/** Elements the model does not know. Among the children of a course, an objective, an
    AU, a block or the structure they are skipped whole, however deeply they nest and
    whatever they hold; inside a title, a description, a text or a list of objectives
    they are not skipped at all, and what they hold is read as though their tags were
    not there. */
module ManifestForeign {
  import opened Wrappers
  import opened Manifest
  import opened ManifestParser

  /** `ev[i..j]` is well-formed content: every start tag has its end tag. */
  ghost predicate Balanced(ev: seq<Event>, i: nat, j: nat)
    decreases j - i
  {
    i <= j <= |ev| &&
    (i == j
     || (!ev[i].Start? && !ev[i].End? && !ev[i].Broken? && !ev[i].Eof? && Balanced(ev, i + 1, j))
     || (ev[i].Start? && exists m: nat :: Closes(ev, i, m, j) && Balanced(ev, i + 1, m) && Balanced(ev, m + 1, j)))
  }

  ghost predicate Closes(ev: seq<Event>, i: nat, m: nat, j: nat) {
    i < m < j <= |ev| && ev[i].Start? && ev[m].End? && ev[m].name.local == ev[i].name.local
  }

  /** Skipping passes over well-formed content and comes out at the same depth. */
  lemma {:induction false} SkipPassesOver(ev: seq<Event>, i: nat, j: nat, name: string, depth: nat)
    requires Balanced(ev, i, j) && depth >= 1
    ensures SkipToEnd(ev, i, name, depth) == SkipToEnd(ev, j, name, depth)
    decreases j - i
  {
    if i < j {
      if ev[i].Start? {
        var m: nat :| Closes(ev, i, m, j) && Balanced(ev, i + 1, m) && Balanced(ev, m + 1, j);
        SkipPassesOver(ev, i + 1, m, name, if ev[i].name.local == name then depth + 1 else depth);
        SkipPassesOver(ev, m + 1, j, name, depth);
      } else {
        SkipPassesOver(ev, i + 1, j, name, depth);
      }
    }
  }

  /** A whole element: closed at `m`, or of a single tag. */
  ghost predicate ElementAt(ev: seq<Event>, i: nat, m: nat) {
    || (i == m < |ev| && ev[i].Empty?)
    || (Closes(ev, i, m, m + 1) && Balanced(ev, i + 1, m))
  }

  lemma SkipsTheElement(ev: seq<Event>, i: nat, m: nat)
    requires ElementAt(ev, i, m) && ev[i].Start?
    ensures SkipToEnd(ev, i + 1, ev[i].name.local, 1) == Ok(Read((), m + 1))
  {
    SkipPassesOver(ev, i + 1, m, ev[i].name.local, 1);
  }

  // Which tags each container reads among its children; some only when they have content.

  predicate IsLabel(tag: string) {
    tag == "title" || tag == "description"
  }

  /** A course's children, and an objective's. */
  predicate LabelsRead(e: Event)
    requires e.Start? || e.Empty?
  {
    e.Start? && IsLabel(e.name.local)
  }

  predicate AuReads(e: Event)
    requires e.Start? || e.Empty?
  {
    (e.Start? && (IsLabel(e.name.local) || e.name.local == "objectives")) || IsAuText(e.name.local)
  }

  predicate BlockReads(e: Event)
    requires e.Start? || e.Empty?
  {
    (e.Start? && (IsLabel(e.name.local) || e.name.local == "objectives")) || OpensNode(e)
  }

  predicate StructureReads(e: Event)
    requires e.Start? || e.Empty?
  {
    (e.Start? && e.name.local == "objectives") || OpensNode(e) || Opens(e, "course")
  }

  /** Anywhere among the children of a container, an element that this container does
      not read leaves what is parsed as it was, though another may read that tag: a
      `url` in a course is as foreign as a tag no one knows. */
  lemma ForeignElementsAreSkipped(c: Codec, ev: seq<Event>, i: nat, m: nat, course: Course, objective: Objective,
                                  au: AuParts, block: Block, parts: Parts)
    requires ElementAt(ev, i, m)
    ensures !LabelsRead(ev[i]) ==> CourseBody(ev, i, course) == CourseBody(ev, m + 1, course)
    ensures !LabelsRead(ev[i]) ==> ObjectiveBody(ev, i, objective) == ObjectiveBody(ev, m + 1, objective)
    ensures !AuReads(ev[i]) ==> AuBody(ev, i, au) == AuBody(ev, m + 1, au)
    ensures !BlockReads(ev[i]) ==> BlockBody(c, ev, i, block) == BlockBody(c, ev, m + 1, block)
    ensures !StructureReads(ev[i]) ==> StructureBody(c, ev, i, parts) == StructureBody(c, ev, m + 1, parts)
  {
    if ev[i].Start? {
      SkipsTheElement(ev, i, m);
    }
  }

  // ----- where they are transparent ---------------------------------------------

  predicate IsTag(e: Event) {
    e.Start? || e.Empty? || e.End?
  }

  predicate Ends(e: Event, endTag: string) {
    e.End? && e.name.local == endTag
  }

  /** A tag a text passes over: any but its own end. */
  predicate TextIgnores(e: Event, endTag: string) {
    IsTag(e) && !Ends(e, endTag)
  }

  /** A tag a list of langstrings passes over: any but theirs and its own end. */
  predicate LabelIgnores(e: Event, endTag: string) {
    IsTag(e) && e.name.local != "langstring" && !Ends(e, endTag)
  }

  /** A tag a list of references passes over: any but what opens one and its own end. */
  predicate RefsIgnore(e: Event) {
    IsTag(e) && !Opens(e, "objective") && !Ends(e, "objectives")
  }

  /** A tag the list of declared objectives passes over, the empty ones among them. */
  predicate ObjectivesIgnore(e: Event) {
    IsTag(e) && !(e.Start? && e.name.local == "objective") && !Ends(e, "objectives")
  }

  function Without(ev: seq<Event>, i: nat): seq<Event>
    requires i < |ev|
  {
    ev[..i] + ev[i + 1..]
  }

  /** The cursor of the shortened stream that stands where `pos` stood. */
  function Back(pos: nat, i: nat): nat {
    if pos > i then pos - 1 else pos
  }

  function Moved<T>(r: Result<Read<T>, Error>, i: nat): Result<Read<T>, Error> {
    match r
    case Ok(read) => Ok(Read(read.value, Back(read.pos, i)))
    case Err(e) => Err(e)
  }

  lemma SameEvent(ev: seq<Event>, i: nat, pos: nat)
    requires i < |ev| && pos <= |ev| && pos != i
    ensures Back(pos, i) <= |Without(ev, i)| && EventAt(Without(ev, i), Back(pos, i)) == EventAt(ev, pos)
    ensures Back(pos + 1, i) == Back(pos, i) + 1 || pos + 1 == i + 1
  {
  }

  lemma {:induction false} TextWithout(ev: seq<Event>, i: nat, pos: nat, endTag: string, text: string)
    requires i < |ev| && pos <= |ev| && TextIgnores(ev[i], endTag)
    ensures ParseText(Without(ev, i), Back(pos, i), endTag, text) == Moved(ParseText(ev, pos, endTag, text), i)
    decreases |ev| - pos
  {
    if pos == i {
      TextWithout(ev, i, pos + 1, endTag, text);
    } else {
      SameEvent(ev, i, pos);
      var e := EventAt(ev, pos);
      if IsPiece(e) {
        if Decode(e).Ok? {
          TextWithout(ev, i, pos + 1, endTag, text + Decode(e).value);
        }
      } else if !e.Eof? && !e.Broken? && !(e.End? && e.name.local == endTag) {
        TextWithout(ev, i, pos + 1, endTag, text);
      }
    }
  }

  lemma {:induction false} RefsWithout(ev: seq<Event>, i: nat, pos: nat, refs: seq<string>)
    requires i < |ev| && pos <= |ev| && RefsIgnore(ev[i])
    ensures ParseObjectiveRefs(Without(ev, i), Back(pos, i), refs) == Moved(ParseObjectiveRefs(ev, pos, refs), i)
    decreases |ev| - pos
  {
    if pos == i {
      RefsWithout(ev, i, pos + 1, refs);
    } else {
      SameEvent(ev, i, pos);
      var e := EventAt(ev, pos);
      if Opens(e, "objective") {
        if ReadRef(e.attrs).Ok? {
          RefsWithout(ev, i, pos + 1, refs + ReadRef(e.attrs).value);
        }
      } else if !e.Eof? && !e.Broken? && !(e.End? && e.name.local == "objectives") {
        RefsWithout(ev, i, pos + 1, refs);
      }
    }
  }

  lemma LangStringWithout(ev: seq<Event>, i: nat, pos: nat, endTag: string, e: Event)
    requires i < |ev| && pos <= |ev| && LabelIgnores(ev[i], endTag) && (e.Start? || e.Empty?)
    ensures ReadLangString(Without(ev, i), Back(pos, i), e) == Moved(ReadLangString(ev, pos, e), i)
  {
    TextWithout(ev, i, pos, "langstring", "");
  }

  /** A `langstring` opens at the cursor: it is read, and then the rest. */
  lemma ReadsOne(ev: seq<Event>, pos: nat, endTag: string, so: seq<LangString>)
    requires pos < |ev| && Opens(ev[pos], "langstring")
    ensures ParseLangStrings(ev, pos, endTag, so)
         == match ReadLangString(ev, pos + 1, ev[pos])
            case Ok(s) => ParseLangStrings(ev, s.pos, endTag, so + [s.value])
            case Err(e) => Err(e)
  {
  }

  /** One `langstring` read, and the rest by what is known of it. */
  lemma OneWithout(ev: seq<Event>, i: nat, pos: nat, endTag: string, so: seq<LangString>)
    requires i < |ev| && pos < |ev| && pos != i && LabelIgnores(ev[i], endTag) && Opens(ev[pos], "langstring")
    requires var s := ReadLangString(ev, pos + 1, ev[pos]);
             s.Ok? ==> Back(s.value.pos, i) <= |Without(ev, i)|
                       && ParseLangStrings(Without(ev, i), Back(s.value.pos, i), endTag, so + [s.value.value])
                          == Moved(ParseLangStrings(ev, s.value.pos, endTag, so + [s.value.value]), i)
    ensures Back(pos, i) <= |Without(ev, i)|
    ensures ParseLangStrings(Without(ev, i), Back(pos, i), endTag, so)
         == Moved(ParseLangStrings(ev, pos, endTag, so), i)
  {
    SameEvent(ev, i, pos);
    LangStringWithout(ev, i, pos + 1, endTag, ev[pos]);
    ReadsOne(ev, pos, endTag, so);
    ReadsOne(Without(ev, i), Back(pos, i), endTag, so);
  }

  lemma {:induction false} LangStringsWithout(ev: seq<Event>, i: nat, pos: nat, endTag: string, so: seq<LangString>)
    requires i < |ev| && pos <= |ev| && LabelIgnores(ev[i], endTag)
    ensures ParseLangStrings(Without(ev, i), Back(pos, i), endTag, so)
         == Moved(ParseLangStrings(ev, pos, endTag, so), i)
    decreases |ev| - pos
  {
    if pos == i {
      LangStringsWithout(ev, i, pos + 1, endTag, so);
    } else {
      SameEvent(ev, i, pos);
      var e := EventAt(ev, pos);
      if Opens(e, "langstring") {
        var s := ReadLangString(ev, pos + 1, e);
        if s.Ok? {
          LangStringsWithout(ev, i, s.value.pos, endTag, so + [s.value.value]);
        }
        OneWithout(ev, i, pos, endTag, so);
      } else if !e.Eof? && !e.Broken? && !(e.End? && e.name.local == endTag) {
        LangStringsWithout(ev, i, pos + 1, endTag, so);
      }
    }
  }

  /** A wrapper around anything inside a text, a title, a description or a list of
      references makes no difference, if its tags are not ones that place reads: taking
      away the two, at `i` and `j`, leaves what is parsed, and the cursor moves back by
      two. So a title does not see an `objective`, nor a text a `langstring`. */
  lemma ForeignWrappersAreTransparent(ev: seq<Event>, i: nat, j: nat, pos: nat, endTag: string,
                                      text: string, refs: seq<string>, so: seq<LangString>)
    requires i < j < |ev| && pos <= i
    ensures var bare := Without(Without(ev, j), i);
            && (TextIgnores(ev[i], endTag) && TextIgnores(ev[j], endTag) ==>
                  ParseText(bare, pos, endTag, text) == Moved(Moved(ParseText(ev, pos, endTag, text), j), i))
            && (LabelIgnores(ev[i], endTag) && LabelIgnores(ev[j], endTag) ==>
                  ParseLangStrings(bare, pos, endTag, so) == Moved(Moved(ParseLangStrings(ev, pos, endTag, so), j), i))
            && (RefsIgnore(ev[i]) && RefsIgnore(ev[j]) ==>
                  ParseObjectiveRefs(bare, pos, refs) == Moved(Moved(ParseObjectiveRefs(ev, pos, refs), j), i))
  {
    var once := Without(ev, j);
    assert once[i] == ev[i];
    if TextIgnores(ev[i], endTag) && TextIgnores(ev[j], endTag) {
      TextWithout(ev, j, pos, endTag, text);
      TextWithout(once, i, pos, endTag, text);
    }
    if LabelIgnores(ev[i], endTag) && LabelIgnores(ev[j], endTag) {
      LangStringsWithout(ev, j, pos, endTag, so);
      LangStringsWithout(once, i, pos, endTag, so);
    }
    if RefsIgnore(ev[i]) && RefsIgnore(ev[j]) {
      RefsWithout(ev, j, pos, refs);
      RefsWithout(once, i, pos, refs);
    }
  }

  /** In the list of declared objectives such a tag is passed over too, so an objective
      inside a foreign wrapper is read. */
  lemma ObjectivesPassOver(ev: seq<Event>, i: nat, so: seq<Objective>)
    requires i < |ev| && ObjectivesIgnore(ev[i])
    ensures ParseObjectives(ev, i, so) == ParseObjectives(ev, i + 1, so)
  {
  }
}
