/** What the reader takes a tag to say where it says nothing, or less than it might:
    absent attributes, self-closing elements, elements given twice; and which error is
    given for what is missing or wrong. */
module ManifestDefaults {
  import opened Wrappers
  import opened Cmi5Terms
  import opened Manifest
  import opened ManifestParser

  // ----- attributes -------------------------------------------------------------

  /** Every attribute of the tag can be read. */
  predicate AllGiven(attrs: seq<Attr>) {
    forall i :: 0 <= i < |attrs| ==> attrs[i].Attr?
  }

  /** The tag's first attribute with this local name says this. */
  ghost predicate Says(attrs: seq<Attr>, want: string, value: string) {
    exists i :: 0 <= i < |attrs| && attrs[i].Attr? && attrs[i].name.local == want && attrs[i].value == value
                && forall j :: 0 <= j < i ==> attrs[j].Attr? && attrs[j].name.local != want
  }

  /** None has it. */
  predicate SaysNothing(attrs: seq<Attr>, want: string) {
    forall i :: 0 <= i < |attrs| ==> attrs[i].Attr? && attrs[i].name.local != want
  }

  /** Of readable attributes the first with the name is read, by its local name alone. */
  lemma {:induction false} AttributeMeans(attrs: seq<Attr>, want: string)
    requires AllGiven(attrs)
    ensures Attribute(attrs, want).Ok?
    ensures forall v :: Attribute(attrs, want) == Ok(Some(v)) <==> Says(attrs, want, v)
    ensures Attribute(attrs, want) == Ok(None) <==> SaysNothing(attrs, want)
  {
    if |attrs| > 0 {
      var rest := attrs[1..];
      AttributeMeans(rest, want);
      forall v ensures Says(attrs, want, v) <==>
                       if attrs[0].name.local == want then attrs[0].value == v else Says(rest, want, v)
      {
        SaysFirst(attrs, want, v);
      }
      assert SaysNothing(attrs, want) <==> attrs[0].name.local != want && SaysNothing(rest, want) by {
        assert forall i :: 0 <= i < |rest| ==> attrs[i + 1] == rest[i];
        assert forall i :: 0 < i < |attrs| ==> attrs[i] == rest[i - 1];
      }
    }
  }

  lemma SaysFirst(attrs: seq<Attr>, want: string, v: string)
    requires |attrs| > 0 && attrs[0].Attr?
    ensures Says(attrs, want, v) <==>
            if attrs[0].name.local == want then attrs[0].value == v else Says(attrs[1..], want, v)
  {
  }

  /** An attribute that cannot be read is an error where it stands: any, if its name
      cannot be told, and otherwise the one looked for. */
  lemma {:induction false} UnreadableIsAnError(attrs: seq<Attr>, want: string, i: nat)
    requires i < |attrs| && forall j :: 0 <= j < i ==> attrs[j].Attr? && attrs[j].name.local != want
    requires !attrs[i].Attr?
    ensures attrs[i].Malformed? || attrs[i].name.local == want ==> Attribute(attrs, want) == Err(Xml(attrs[i].reason))
    ensures attrs[i].Unreadable? && attrs[i].name.local != want ==>
              Attribute(attrs, want) == Attribute(attrs[i + 1..], want)
  {
    if i > 0 {
      UnreadableIsAnError(attrs[1..], want, i - 1);
      assert attrs[1..][i..] == attrs[i + 1..];
    }
  }

  // ----- the start tag of an AU ---------------------------------------------------

  predicate IsMoveOnWord(w: string) {
    w in {"Passed", "Completed", "CompletedAndPassed", "CompletedOrPassed", "NotApplicable"}
  }

  predicate IsScore(c: Codec, t: string) {
    c.parse(t).Some? && 0.0 <= c.parse(t).value <= 1.0
  }

  /** When an AU moves the learner on is what its tag says, and never where it says nothing. */
  lemma MoveOnMeans(attrs: seq<Attr>)
    requires AllGiven(attrs)
    ensures var r := ReadMoveOn(attrs);
            && (SaysNothing(attrs, "moveOn") ==> r == Ok(NotApplicable))
            && (Says(attrs, "moveOn", "Passed") ==> r == Ok(Passed))
            && (Says(attrs, "moveOn", "Completed") ==> r == Ok(Completed))
            && (Says(attrs, "moveOn", "CompletedAndPassed") ==> r == Ok(CompletedAndPassed))
            && (Says(attrs, "moveOn", "CompletedOrPassed") ==> r == Ok(CompletedOrPassed))
            && (Says(attrs, "moveOn", "NotApplicable") ==> r == Ok(NotApplicable))
            && (forall w :: Says(attrs, "moveOn", w) && !IsMoveOnWord(w) ==> r == Err(BadMoveOn(w)))
            && (r.Err? ==> r.error.BadMoveOn? && Says(attrs, "moveOn", r.error.word) && !IsMoveOnWord(r.error.word))
  {
    AttributeMeans(attrs, "moveOn");
  }

  /** It asks for the score its tag says, which must be a number from 0 to 1, and for none
      where it says nothing. */
  lemma ScoreMeans(c: Codec, attrs: seq<Attr>)
    requires AllGiven(attrs)
    ensures var r := ReadMasteryScore(c, attrs);
            && (SaysNothing(attrs, "masteryScore") ==> r == Ok(None))
            && (forall t :: Says(attrs, "masteryScore", t) ==>
                  r == if IsScore(c, t) then Ok(c.parse(t)) else Err(BadMasteryScore(t)))
            && (r.Err? ==> r.error.BadMasteryScore? && Says(attrs, "masteryScore", r.error.text)
                           && !IsScore(c, r.error.text))
  {
    AttributeMeans(attrs, "masteryScore");
  }

  /** It opens in the window its tag says, and in none in particular where it says nothing. */
  lemma LaunchMethodMeans(attrs: seq<Attr>)
    requires AllGiven(attrs)
    ensures var r := ReadLaunchMethod(attrs);
            && (SaysNothing(attrs, "launchMethod") ==> r == Ok(None))
            && (Says(attrs, "launchMethod", "AnyWindow") ==> r == Ok(Some(AnyWindow)))
            && (Says(attrs, "launchMethod", "OwnWindow") ==> r == Ok(Some(OwnWindow)))
            && (forall w :: Says(attrs, "launchMethod", w) && w !in {"AnyWindow", "OwnWindow"} ==>
                  r == Err(BadLaunchMethod(w)))
  {
    AttributeMeans(attrs, "launchMethod");
  }

  /** An AU's start tag is refused for the first thing wrong with it: no id, then a bad
      moveOn, a bad score, a bad launch method; and is taken as it says otherwise. */
  lemma AuHeadMeans(c: Codec, attrs: seq<Attr>)
    requires AllGiven(attrs)
    ensures var r, moveOn, score := ReadAuHead(c, attrs), ReadMoveOn(attrs), ReadMasteryScore(c, attrs);
            var launch := ReadLaunchMethod(attrs);
            && (SaysNothing(attrs, "id") ==> r == Err(MissingAttribute("au", "id")))
            && (forall id :: Says(attrs, "id", id) ==>
                  r == if moveOn.Err? then Err(moveOn.error)
                       else if score.Err? then Err(score.error)
                       else if launch.Err? then Err(launch.error)
                       else Ok(AuHead(id, moveOn.value, score.value, launch.value)))
  {
    AttributeMeans(attrs, "id");
  }

  /** Whatever stands in the AU, of what its start tag leaves out the AU parsed has no
      moveOn criterion, no score and no launch method. */
  lemma AbsentAttributes(c: Codec, ev: seq<Event>, pos: nat, attrs: seq<Attr>, empty: bool)
    requires pos <= |ev| && AllGiven(attrs) && ParseAu(c, ev, pos, attrs, empty).Ok?
    ensures var au := ParseAu(c, ev, pos, attrs, empty).value.value;
            && (SaysNothing(attrs, "moveOn") ==> au.moveOn == NotApplicable)
            && (SaysNothing(attrs, "masteryScore") ==> au.masteryScore == None)
            && (SaysNothing(attrs, "launchMethod") ==> au.launchMethod == None)
            && Says(attrs, "id", au.id)
  {
    AttributeMeans(attrs, "id");
    AuHeadMeans(c, attrs);
    MoveOnMeans(attrs);
    ScoreMeans(c, attrs);
    LaunchMethodMeans(attrs);
  }

  /** A langstring that gives no language has the empty one; one that closes itself has
      the empty text. */
  lemma LangStringDefaults(ev: seq<Event>, pos: nat, e: Event)
    requires pos <= |ev| && (e.Start? || e.Empty?) && AllGiven(e.attrs)
    ensures var r := ReadLangString(ev, pos, e);
            && (r.Ok? && SaysNothing(e.attrs, "lang") ==> r.value.value.lang == "")
            && (forall l :: r.Ok? && Says(e.attrs, "lang", l) ==> r.value.value.lang == l)
            && (e.Empty? ==> r.Ok? && r.value.value.value == "" && r.value.pos == pos)
            && (e.Start? && pos < |ev| && ev[pos].End? && ev[pos].name.local == "langstring" ==>
                  r.Ok? && r.value.value.value == "" && r.value.pos == pos + 1)
  {
    AttributeMeans(e.attrs, "lang");
  }

  /** A reference is to the `idref` given, or failing that to the `id`. */
  lemma ReferenceMeans(attrs: seq<Attr>)
    requires AllGiven(attrs)
    ensures forall v :: Says(attrs, "idref", v) ==> ReadRef(attrs) == Ok([v])
    ensures forall v :: SaysNothing(attrs, "idref") && Says(attrs, "id", v) ==> ReadRef(attrs) == Ok([v])
    ensures SaysNothing(attrs, "idref") && SaysNothing(attrs, "id") ==> ReadRef(attrs) == Ok([])
  {
    AttributeMeans(attrs, "idref");
    AttributeMeans(attrs, "id");
  }

  // ----- elements that close themselves -------------------------------------------

  /** A text that closes itself is the empty text, just as one that is opened and closed
      at once. */
  lemma SelfClosingTexts(ev: seq<Event>, pos: nat, so: AuParts)
    requires pos < |ev|
    requires ev[pos].Empty? || (ev[pos].Start? && pos + 1 < |ev| && ev[pos + 1] == End(ev[pos].name))
    ensures var tag, next := ev[pos].name.local, if ev[pos].Empty? then pos + 1 else pos + 2;
            && (tag == "url" ==> AuBody(ev, pos, so) == AuBody(ev, next, so.(url := Some(""))))
            && (tag == "launchParameters" ==>
                  AuBody(ev, pos, so) == AuBody(ev, next, so.(launchParameters := Some(""))))
            && (tag == "entitlementKey" ==>
                  AuBody(ev, pos, so) == AuBody(ev, next, so.(entitlementKey := Some(""))))
  {
    var tag := ev[pos].name.local;
    assert |"url"| == 3 && |"launchParameters"| == 16 && |"entitlementKey"| == 14;
    if ev[pos].Start? && IsAuText(tag) {
      NotLabels(tag);
      assert ParseText(ev, pos + 1, tag, "") == Ok(Read("", pos + 2));
    }
  }

  lemma NotLabels(tag: string)
    requires IsAuText(tag)
    ensures tag != "title" && tag != "description" && tag != "objectives"
  {
  }

  /** A course or a block that closes itself holds nothing, and an AU that does has no
      `url`; just as when they are opened and closed at once. */
  lemma SelfClosingContainers(c: Codec, ev: seq<Event>, pos: nat, attrs: seq<Attr>, id: string)
    requires pos <= |ev| && AllGiven(attrs) && Says(attrs, "id", id)
    ensures ParseCourse(ev, pos, attrs, true) == Ok(Read(Course(id, [], []), pos))
    ensures ParseBlock(c, ev, pos, attrs, true) == Ok(Read(Block(id, [], [], [], []), pos))
    ensures ReadAuHead(c, attrs).Ok? ==> ParseAu(c, ev, pos, attrs, true) == Err(MissingElement("url"))
    ensures pos < |ev| && ev[pos].End? ==>
              && (ev[pos].name.local == "course" ==>
                    ParseCourse(ev, pos, attrs, false) == Ok(Read(Course(id, [], []), pos + 1)))
              && (ev[pos].name.local == "block" ==>
                    ParseBlock(c, ev, pos, attrs, false) == Ok(Read(Block(id, [], [], [], []), pos + 1)))
              && (ev[pos].name.local == "au" && ReadAuHead(c, attrs).Ok? ==>
                    ParseAu(c, ev, pos, attrs, false) == Err(MissingElement("url")))
  {
    AttributeMeans(attrs, "id");
  }

  // ----- what is missing ------------------------------------------------------------

  /** Neither is a course, a block or a declared objective taken without an id. */
  lemma IdsAreRequired(c: Codec, ev: seq<Event>, pos: nat, attrs: seq<Attr>, empty: bool, so: seq<Objective>)
    requires pos <= |ev| && AllGiven(attrs) && SaysNothing(attrs, "id")
    ensures ParseCourse(ev, pos, attrs, empty) == Err(MissingAttribute("course", "id"))
    ensures ParseBlock(c, ev, pos, attrs, empty) == Err(MissingAttribute("block", "id"))
    ensures ParseAu(c, ev, pos, attrs, empty) == Err(MissingAttribute("au", "id"))
    ensures pos < |ev| && ev[pos].Start? && ev[pos].name.local == "objective" && ev[pos].attrs == attrs ==>
              ParseObjectives(ev, pos, so) == Err(MissingAttribute("objective", "id"))
  {
    AttributeMeans(attrs, "id");
  }

  /** What an AU's children say of its url is said by a `url` alone. */
  lemma {:induction false} OnlyUrlGivesAUrl(ev: seq<Event>, pos: nat, so: AuParts)
    requires pos <= |ev| && forall p :: pos <= p < |ev| ==> !Opens(ev[p], "url")
    requires AuBody(ev, pos, so).Ok?
    ensures AuBody(ev, pos, so).value.value.url == so.url
    decreases |ev| - pos
  {
    var e := EventAt(ev, pos);
    if e.Start? {
      var tag := e.name.local;
      if tag == "title" {
        var t := ParseLangStrings(ev, pos + 1, "title", []).value;
        OnlyUrlGivesAUrl(ev, t.pos, so.(title := t.value));
      } else if tag == "description" {
        var t := ParseLangStrings(ev, pos + 1, "description", []).value;
        OnlyUrlGivesAUrl(ev, t.pos, so.(description := t.value));
      } else if tag == "objectives" {
        var t := ParseObjectiveRefs(ev, pos + 1, []).value;
        OnlyUrlGivesAUrl(ev, t.pos, so.(objectiveIds := t.value));
      } else if IsAuText(tag) {
        var t := ParseText(ev, pos + 1, tag, "").value;
        OnlyUrlGivesAUrl(ev, t.pos, SetAuText(so, tag, t.value));
      } else {
        OnlyUrlGivesAUrl(ev, SkipToEnd(ev, pos + 1, tag, 1).value.pos, so);
      }
    } else if e.Empty? {
      OnlyUrlGivesAUrl(ev, pos + 1, if IsAuText(e.name.local) then SetAuText(so, e.name.local, "") else so);
    } else if !(e.End? && e.name.local == "au") {
      OnlyUrlGivesAUrl(ev, pos + 1, so);
    }
  }

  /** So an AU with no `url` among what follows is refused for that, if nothing else is
      wrong with it. */
  lemma UrlIsRequired(c: Codec, ev: seq<Event>, pos: nat, attrs: seq<Attr>, empty: bool)
    requires pos <= |ev| && forall p :: pos <= p < |ev| ==> !Opens(ev[p], "url")
    ensures ParseAu(c, ev, pos, attrs, empty).Err?
    ensures ReadAuHead(c, attrs).Ok? && (empty || AuBody(ev, pos, NO_PARTS).Ok?) ==>
              ParseAu(c, ev, pos, attrs, empty) == Err(MissingElement("url"))
  {
    if !empty && AuBody(ev, pos, NO_PARTS).Ok? {
      OnlyUrlGivesAUrl(ev, pos, NO_PARTS);
    }
  }

  lemma {:induction false} OnlyCourseGivesACourse(c: Codec, ev: seq<Event>, pos: nat, so: Parts)
    requires pos <= |ev| && forall p :: pos <= p < |ev| ==> !Opens(ev[p], "course")
    requires StructureBody(c, ev, pos, so).Ok?
    ensures StructureBody(c, ev, pos, so).value.value.course == so.course
    decreases |ev| - pos
  {
    var e := EventAt(ev, pos);
    if OpensNode(e) {
      var node := ParseNode(c, ev, pos + 1, e).value;
      OnlyCourseGivesACourse(c, ev, node.pos, so.(nodes := so.nodes + [node.value]));
    } else if e.Start? && e.name.local == "objectives" {
      var t := ParseObjectives(ev, pos + 1, []).value;
      OnlyCourseGivesACourse(c, ev, t.pos, so.(objectives := t.value));
    } else if e.Start? {
      OnlyCourseGivesACourse(c, ev, SkipToEnd(ev, pos + 1, e.name.local, 1).value.pos, so);
    } else if !(e.End? && e.name.local == "courseStructure") {
      OnlyCourseGivesACourse(c, ev, pos + 1, so);
    }
  }

  /** Nor is a structure taken without a course. */
  lemma CourseIsRequired(c: Codec, ev: seq<Event>, pos: nat)
    requires pos <= |ev| && forall p :: pos <= p < |ev| ==> !Opens(ev[p], "course")
    ensures ParseStructure(c, ev, pos).Err?
    ensures StructureBody(c, ev, pos, Parts(None, [], [])).Ok? ==>
              ParseStructure(c, ev, pos) == Err(MissingElement("course"))
  {
    if StructureBody(c, ev, pos, Parts(None, [], [])).Ok? {
      OnlyCourseGivesACourse(c, ev, pos, Parts(None, [], []));
    }
  }

  /** A reference in a text stands for its character, the five entities of XML for theirs;
      any other entity is an error that names it, and so is a bad character reference. */
  lemma ReferencesInText(ev: seq<Event>, pos: nat, endTag: string, text: string)
    requires pos < |ev| && ev[pos].GeneralRef?
    ensures var r, goesOn := ParseText(ev, pos, endTag, text), (s: string) => ParseText(ev, pos + 1, endTag, text + s);
            match ev[pos].reference
            case CharRef(c) => r == goesOn([c])
            case BadCharRef(reason) => r == Err(Xml(reason))
            case Entity(name) =>
              && (name == "lt" ==> r == goesOn("<")) && (name == "gt" ==> r == goesOn(">"))
              && (name == "amp" ==> r == goesOn("&")) && (name == "apos" ==> r == goesOn("'"))
              && (name == "quot" ==> r == goesOn("\""))
              && (name !in {"lt", "gt", "amp", "apos", "quot"} ==> r == Err(Xml("unknown entity &" + name + ";")))
  {
    assert |"lt"| == 2 && |"gt"| == 2 && |"amp"| == 3 && |"apos"| == 4 && |"quot"| == 4;
    assert "lt"[0] == 'l' && "gt"[0] == 'g' && "apos"[0] == 'a' && "quot"[0] == 'q';
  }

  /** A document with no root element is refused for that. */
  lemma {:induction false} NoRoot(c: Codec, ev: seq<Event>, pos: nat)
    requires pos <= |ev|
    requires forall p :: pos <= p < |ev| ==>
               !ev[p].Broken? && !ev[p].Eof? && !(ev[p].Start? && ev[p].name.local == "courseStructure")
    ensures ParseManifest(c, ev, pos) == Err(MissingElement("courseStructure"))
    decreases |ev| - pos
  {
    if pos < |ev| {
      NoRoot(c, ev, pos + 1);
    }
  }

  /** One cut short is refused for the element it is cut in, and a read that fails for its
      own reason. */
  lemma CutShort(c: Codec, ev: seq<Event>, pos: nat, tag: string, text: string, depth: nat, refs: seq<string>,
                 ls: seq<LangString>, course: Course, objective: Objective, os: seq<Objective>, au: AuParts,
                 block: Block, parts: Parts)
    requires pos <= |ev| && depth >= 1 && (EventAt(ev, pos).Eof? || EventAt(ev, pos).Broken?)
    ensures var e := EventAt(ev, pos);
            && SkipToEnd(ev, pos, tag, depth) == (if e.Eof? then Err(UnexpectedEof("element")) else Err(Xml(e.reason)))
            && ParseText(ev, pos, tag, text) == (if e.Eof? then Err(UnexpectedEof("text")) else Err(Xml(e.reason)))
            && ParseObjectiveRefs(ev, pos, refs)
               == (if e.Eof? then Err(UnexpectedEof("objectives")) else Err(Xml(e.reason)))
            && ParseLangStrings(ev, pos, tag, ls)
               == (if e.Eof? then Err(UnexpectedEof("langstring")) else Err(Xml(e.reason)))
            && CourseBody(ev, pos, course) == (if e.Eof? then Err(UnexpectedEof("course")) else Err(Xml(e.reason)))
            && ObjectiveBody(ev, pos, objective)
               == (if e.Eof? then Err(UnexpectedEof("objective")) else Err(Xml(e.reason)))
            && ParseObjectives(ev, pos, os) == (if e.Eof? then Err(UnexpectedEof("objectives")) else Err(Xml(e.reason)))
            && AuBody(ev, pos, au) == (if e.Eof? then Err(UnexpectedEof("au")) else Err(Xml(e.reason)))
            && BlockBody(c, ev, pos, block) == (if e.Eof? then Err(UnexpectedEof("block")) else Err(Xml(e.reason)))
            && StructureBody(c, ev, pos, parts)
               == (if e.Eof? then Err(UnexpectedEof("courseStructure")) else Err(Xml(e.reason)))
  {
  }

  // ----- what the writer says ---------------------------------------------------------

  /** A document is written as one `courseStructure` of the cmi5 namespace. */
  lemma WrittenRoot(c: Codec, cs: CourseStructure)
    ensures var w := WriteStructure(c, cs);
            && |w| > 1
            && w[0] == Start(Name(None, "courseStructure"), [Attr(Name(None, "xmlns"),
                 "https://w3id.org/xapi/profiles/cmi5/v1/CourseStructure.xsd")])
            && w[|w| - 1] == End(Name(None, "courseStructure"))
  {
  }

  /** An AU's tag is written with its id and its moveOn word always, with its score and its
      launch method if it has them, and with nothing else. */
  lemma WrittenAuTag(c: Codec, au: AssignableUnit)
    ensures var attrs := AuAttrs(c, au);
            && AllGiven(attrs) && Says(attrs, "id", au.id) && Says(attrs, "moveOn", MoveOnText(au.moveOn))
            && (if au.masteryScore.Some? then Says(attrs, "masteryScore", c.show(au.masteryScore.value))
                else SaysNothing(attrs, "masteryScore"))
            && (if au.launchMethod.Some? then Says(attrs, "launchMethod", LaunchMethodText(au.launchMethod.value))
                else SaysNothing(attrs, "launchMethod"))
            && |attrs| == 2 + (if au.masteryScore.Some? then 1 else 0) + (if au.launchMethod.Some? then 1 else 0)
  {
    var attrs := AuAttrs(c, au);
    assert |"id"| == 2 && |"moveOn"| == 6 && |"masteryScore"| == 12 && |"launchMethod"| == 12;
    assert "masteryScore"[0] != "launchMethod"[0];
    assert attrs[0] == Given("id", au.id) && attrs[1] == Given("moveOn", MoveOnText(au.moveOn));
    if au.masteryScore.Some? {
      assert attrs[2] == Given("masteryScore", c.show(au.masteryScore.value));
    }
    if au.launchMethod.Some? {
      assert attrs[|attrs| - 1] == Given("launchMethod", LaunchMethodText(au.launchMethod.value));
    }
  }
}
