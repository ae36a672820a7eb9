/** Parsing undoes writing: for every course tree, however its texts are cut up on
    the way back, the reader returns that tree and stops right after it. */
module ManifestRoundTrip {
  import opened Wrappers
  import opened Manifest
  import opened ManifestParser

  // ----- delivery ---------------------------------------------------------

  /** `ev[i..j]` is text, CDATA and references that together stand for `v`. */
  ghost predicate TextAt(ev: seq<Event>, i: nat, j: nat, v: string)
    decreases j - i
  {
    i <= j <= |ev| &&
    if i == j then v == ""
    else
      && IsPiece(ev[i]) && Decode(ev[i]).Ok? && Decode(ev[i]).value <= v
      && TextAt(ev, i + 1, j, v[|Decode(ev[i]).value|..])
  }

  /** A written event comes back as itself, but a text in any number of pieces. */
  ghost predicate OneAt(e: Event, ev: seq<Event>, i: nat, j: nat) {
    if e.Text? then TextAt(ev, i, j, e.text) else i + 1 == j <= |ev| && ev[i] == e
  }

  /** The written events `w` are read back as `ev[i..j]`. */
  ghost predicate DeliveredAt(w: seq<Event>, ev: seq<Event>, i: nat, j: nat)
    decreases |w|
  {
    if |w| == 0 then i == j <= |ev|
    else exists k: nat :: k <= |ev| && OneAt(w[0], ev, i, k) && DeliveredAt(w[1..], ev, k, j)
  }

  lemma {:induction false} DeliveredForward(w: seq<Event>, ev: seq<Event>, i: nat, j: nat)
    requires DeliveredAt(w, ev, i, j)
    ensures i <= j <= |ev|
    decreases |w|
  {
    if |w| > 0 {
      var k: nat :| k <= |ev| && OneAt(w[0], ev, i, k) && DeliveredAt(w[1..], ev, k, j);
      DeliveredForward(w[1..], ev, k, j);
    }
  }

  lemma {:induction false} Split(a: seq<Event>, b: seq<Event>, ev: seq<Event>, i: nat, j: nat) returns (k: nat)
    requires DeliveredAt(a + b, ev, i, j)
    ensures i <= k <= j <= |ev| && DeliveredAt(a, ev, i, k) && DeliveredAt(b, ev, k, j)
    decreases |a|
  {
    if |a| == 0 {
      assert a + b == b;
      k := i;
      DeliveredForward(b, ev, i, j);
    } else {
      var m: nat :| m <= |ev| && OneAt((a + b)[0], ev, i, m) && DeliveredAt((a + b)[1..], ev, m, j);
      assert (a + b)[1..] == a[1..] + b;
      k := Split(a[1..], b, ev, m, j);
      assert (a + b)[0] == a[0];
      assert DeliveredAt(a, ev, i, k);
      DeliveredForward(a, ev, i, k);
    }
  }

  lemma SplitFirst(a: seq<Event>, b: seq<Event>, close: seq<Event>, ev: seq<Event>, i: nat, j: nat) returns (k: nat)
    requires DeliveredAt(a + b + close, ev, i, j)
    ensures i <= k <= j <= |ev| && DeliveredAt(a, ev, i, k) && DeliveredAt(b + close, ev, k, j)
  {
    assert a + b + close == a + (b + close);
    k := Split(a, b + close, ev, i, j);
  }

  /** A written tag is the very next event. */
  lemma First(e: Event, w: seq<Event>, ev: seq<Event>, i: nat, j: nat)
    requires DeliveredAt([e] + w, ev, i, j) && !e.Text?
    ensures i < |ev| && ev[i] == e && DeliveredAt(w, ev, i + 1, j) && i < j <= |ev|
  {
    assert ([e] + w)[1..] == w;
    DeliveredForward(w, ev, i + 1, j);
  }

  lemma Only(e: Event, ev: seq<Event>, i: nat, j: nat)
    requires DeliveredAt([e], ev, i, j) && !e.Text?
    ensures i < |ev| && ev[i] == e && j == i + 1
  {
  }

  // ----- the leaves ---------------------------------------------------------

  lemma {:induction false} TextReads(ev: seq<Event>, i: nat, j: nat, v: string, tag: string, text: string)
    requires TextAt(ev, i, j, v) && j < |ev| && ev[j] == End(Plain(tag))
    ensures ParseText(ev, i, tag, text) == Ok(Read(text + v, j + 1))
    decreases j - i
  {
    if i == j {
      assert text + v == text;
    } else {
      var piece := Decode(ev[i]).value;
      TextReads(ev, i + 1, j, v[|piece|..], tag, text + piece);
      assert text + v == text + piece + v[|piece|..];
    }
  }

  lemma TextElementReads(ev: seq<Event>, i: nat, j: nat, v: string, tag: string, w: seq<Event>) returns (k: nat)
    requires DeliveredAt([Text(v)] + ([End(Plain(tag))] + w), ev, i, j)
    ensures i <= k <= j <= |ev| && ParseText(ev, i, tag, "") == Ok(Read(v, k)) && DeliveredAt(w, ev, k, j)
  {
    var written := [Text(v)] + ([End(Plain(tag))] + w);
    var m: nat :| m <= |ev| && OneAt(written[0], ev, i, m) && DeliveredAt(written[1..], ev, m, j);
    assert written[1..] == [End(Plain(tag))] + w;
    First(End(Plain(tag)), w, ev, m, j);
    TextReads(ev, i, m, v, tag, "");
    assert "" + v == v;
    k := m + 1;
    TextIsForward(ev, i, m, v);
  }

  lemma TextIsForward(ev: seq<Event>, i: nat, j: nat, v: string)
    requires TextAt(ev, i, j, v)
    ensures i <= j <= |ev|
  {
  }

  lemma OneAttribute(name: string, value: string, rest: seq<Attr>, want: string)
    ensures Attribute([Given(name, value)] + rest, want) == if name == want then Ok(Some(value))
         else Attribute(rest, want)
  {
  }

  lemma SoleAttribute(name: string, value: string, want: string)
    ensures Attribute([Given(name, value)], want) == if name == want then Ok(Some(value)) else Ok(None)
  {
  }

  lemma {:induction false} EachLangStringReads(ev: seq<Event>, i: nat, j: nat, endTag: string, ls: seq<LangString>,
                                               so: seq<LangString>)
    requires DeliveredAt(WriteEachLangString(ls) + [End(Plain(endTag))], ev, i, j)
    ensures i < j <= |ev| && ParseLangStrings(ev, i, endTag, so) == Ok(Read(so + ls, j))
    decreases |ls|
  {
    var close := [End(Plain(endTag))];
    if ls == [] {
      assert WriteEachLangString(ls) + close == close;
      Only(End(Plain(endTag)), ev, i, j);
      assert so + ls == so;
    } else {
      var s := ls[0];
      var rest := WriteEachLangString(ls[1..]) + close;
      var start := Start(Plain("langstring"), [Given("lang", s.lang)]);
      assert WriteEachLangString(ls) + close == [start] + ([Text(s.value)] + ([End(Plain("langstring"))] + rest));
      First(start, [Text(s.value)] + ([End(Plain("langstring"))] + rest), ev, i, j);
      var k := TextElementReads(ev, i + 1, j, s.value, "langstring", rest);
      SoleAttribute("lang", s.lang, "lang");
      assert ReadLangString(ev, i + 1, ev[i]) == Ok(Read(s, k));
      EachLangStringReads(ev, k, j, endTag, ls[1..], so + [s]);
      assert so + [s] + ls[1..] == so + ls;
    }
  }

  lemma LangStringsRead(ev: seq<Event>, i: nat, j: nat, tag: string, ls: seq<LangString>)
    requires DeliveredAt(WriteLangStrings(tag, ls), ev, i, j)
    ensures ls == [] ==> i == j
    ensures ls != [] ==> i < j <= |ev| && ev[i] == Start(Plain(tag), [])
                         && ParseLangStrings(ev, i + 1, tag, []) == Ok(Read(ls, j))
  {
    if ls != [] {
      var inner := WriteEachLangString(ls) + [End(Plain(tag))];
      First(Start(Plain(tag), []), inner, ev, i, j);
      EachLangStringReads(ev, i + 1, j, tag, ls, []);
      assert [] + ls == ls;
    }
  }

  lemma {:induction false} EachRefReads(ev: seq<Event>, i: nat, j: nat, ids: seq<string>, so: seq<string>)
    requires DeliveredAt(WriteEachRef(ids) + [End(Plain("objectives"))], ev, i, j)
    ensures i < j <= |ev| && ParseObjectiveRefs(ev, i, so) == Ok(Read(so + ids, j))
    decreases |ids|
  {
    var close := [End(Plain("objectives"))];
    if ids == [] {
      assert WriteEachRef(ids) + close == close;
      Only(End(Plain("objectives")), ev, i, j);
      assert so + ids == so;
    } else {
      var e := Empty(Plain("objective"), [Given("idref", ids[0])]);
      var rest := WriteEachRef(ids[1..]) + close;
      assert WriteEachRef(ids) + close == [e] + rest;
      First(e, rest, ev, i, j);
      SoleAttribute("idref", ids[0], "idref");
      SoleAttribute("idref", ids[0], "id");
      EachRefReads(ev, i + 1, j, ids[1..], so + [ids[0]]);
      assert so + [ids[0]] + ids[1..] == so + ids;
    }
  }

  lemma RefsRead(ev: seq<Event>, i: nat, j: nat, ids: seq<string>)
    requires DeliveredAt(WriteObjectiveRefs(ids), ev, i, j)
    ensures ids == [] ==> i == j
    ensures ids != [] ==> i < j <= |ev| && ev[i] == Start(Plain("objectives"), [])
                          && ParseObjectiveRefs(ev, i + 1, []) == Ok(Read(ids, j))
  {
    if ids != [] {
      First(Start(Plain("objectives"), []), WriteEachRef(ids) + [End(Plain("objectives"))], ev, i, j);
      EachRefReads(ev, i + 1, j, ids, []);
      assert [] + ids == ids;
    }
  }

  // ----- course and objectives -----------------------------------------------

  lemma CourseTitle(ev: seq<Event>, i: nat, j: nat, ls: seq<LangString>, so: Course)
    requires DeliveredAt(WriteLangStrings("title", ls), ev, i, j) && i <= j <= |ev|
    requires (ls != [] || so.title == [])
    ensures CourseBody(ev, i, so) == CourseBody(ev, j, so.(title := ls))
  {
    LangStringsRead(ev, i, j, "title", ls);
  }

  lemma CourseDescription(ev: seq<Event>, i: nat, j: nat, ls: seq<LangString>, so: Course)
    requires DeliveredAt(WriteLangStrings("description", ls), ev, i, j) && i <= j <= |ev|
    requires (ls != [] || so.description == [])
    ensures CourseBody(ev, i, so) == CourseBody(ev, j, so.(description := ls))
  {
    LangStringsRead(ev, i, j, "description", ls);
  }

  lemma CourseLabelsRead(ev: seq<Event>, i: nat, k: nat, l: nat, course: Course)
    requires i <= k <= l < |ev| && ev[l] == End(Plain("course"))
    requires DeliveredAt(WriteLangStrings("title", course.title), ev, i, k)
    requires DeliveredAt(WriteLangStrings("description", course.description), ev, k, l)
    ensures CourseBody(ev, i, Course(course.id, [], [])) == Ok(Read(course, l + 1))
  {
    CourseTitle(ev, i, k, course.title, Course(course.id, [], []));
    CourseDescription(ev, k, l, course.description, Course(course.id, course.title, []));
    assert CourseBody(ev, l, course) == Ok(Read(course, l + 1));
  }

  lemma CourseBodyReads(ev: seq<Event>, i: nat, j: nat, course: Course)
    requires DeliveredAt(WriteLangStrings("title", course.title)
                         + (WriteLangStrings("description", course.description) + [End(Plain("course"))]), ev, i, j)
    ensures i <= j <= |ev| && CourseBody(ev, i, Course(course.id, [], [])) == Ok(Read(course, j))
  {
    var close := [End(Plain("course"))];
    var description := WriteLangStrings("description", course.description);
    var k := Split(WriteLangStrings("title", course.title), description + close, ev, i, j);
    var l := Split(description, close, ev, k, j);
    Only(End(Plain("course")), ev, l, j);
    CourseLabelsRead(ev, i, k, l, course);
  }

  lemma CourseReads(ev: seq<Event>, i: nat, j: nat, course: Course)
    requires DeliveredAt(WriteCourse(course), ev, i, j)
    ensures i < j <= |ev| && ev[i] == Start(Plain("course"), [Given("id", course.id)])
    ensures ParseCourse(ev, i + 1, ev[i].attrs, false) == Ok(Read(course, j))
  {
    First(Start(Plain("course"), [Given("id", course.id)]),
          WriteLangStrings("title", course.title)
          + (WriteLangStrings("description", course.description) + [End(Plain("course"))]), ev, i, j);
    CourseBodyReads(ev, i + 1, j, course);
    SoleAttribute("id", course.id, "id");
  }

  lemma ObjectiveTitle(ev: seq<Event>, i: nat, j: nat, ls: seq<LangString>, so: Objective)
    requires DeliveredAt(WriteLangStrings("title", ls), ev, i, j) && i <= j <= |ev|
    requires (ls != [] || so.title == [])
    ensures ObjectiveBody(ev, i, so) == ObjectiveBody(ev, j, so.(title := ls))
  {
    LangStringsRead(ev, i, j, "title", ls);
  }

  lemma ObjectiveDescription(ev: seq<Event>, i: nat, j: nat, ls: seq<LangString>, so: Objective)
    requires DeliveredAt(WriteLangStrings("description", ls), ev, i, j) && i <= j <= |ev|
    requires (ls != [] || so.description == [])
    ensures ObjectiveBody(ev, i, so) == ObjectiveBody(ev, j, so.(description := ls))
  {
    LangStringsRead(ev, i, j, "description", ls);
  }

  lemma ObjectiveLabelsRead(ev: seq<Event>, i: nat, k: nat, l: nat, o: Objective)
    requires i <= k <= l < |ev| && ev[l] == End(Plain("objective"))
    requires DeliveredAt(WriteLangStrings("title", o.title), ev, i, k)
    requires DeliveredAt(WriteLangStrings("description", o.description), ev, k, l)
    ensures ObjectiveBody(ev, i, Objective(o.id, [], [])) == Ok(Read(o, l + 1))
  {
    ObjectiveTitle(ev, i, k, o.title, Objective(o.id, [], []));
    ObjectiveDescription(ev, k, l, o.description, Objective(o.id, o.title, []));
    assert ObjectiveBody(ev, l, o) == Ok(Read(o, l + 1));
  }

  lemma ObjectiveBodyReads(ev: seq<Event>, i: nat, j: nat, o: Objective)
    requires DeliveredAt(WriteLangStrings("title", o.title)
                         + (WriteLangStrings("description", o.description) + [End(Plain("objective"))]), ev, i, j)
    ensures i <= j <= |ev| && ObjectiveBody(ev, i, Objective(o.id, [], [])) == Ok(Read(o, j))
  {
    var close := [End(Plain("objective"))];
    var description := WriteLangStrings("description", o.description);
    var k := Split(WriteLangStrings("title", o.title), description + close, ev, i, j);
    var l := Split(description, close, ev, k, j);
    Only(End(Plain("objective")), ev, l, j);
    ObjectiveLabelsRead(ev, i, k, l, o);
  }

  lemma ObjectiveReads(ev: seq<Event>, i: nat, j: nat, o: Objective)
    requires DeliveredAt(WriteObjective(o), ev, i, j)
    ensures i < j <= |ev| && ev[i] == Start(Plain("objective"), [Given("id", o.id)])
    ensures ObjectiveBody(ev, i + 1, Objective(o.id, [], [])) == Ok(Read(o, j))
  {
    First(Start(Plain("objective"), [Given("id", o.id)]),
          WriteLangStrings("title", o.title)
          + (WriteLangStrings("description", o.description) + [End(Plain("objective"))]), ev, i, j);
    ObjectiveBodyReads(ev, i + 1, j, o);
  }

  lemma {:induction false} EachObjectiveReads(ev: seq<Event>, i: nat, j: nat, os: seq<Objective>, so: seq<Objective>)
    requires DeliveredAt(WriteEachObjective(os) + [End(Plain("objectives"))], ev, i, j)
    ensures i < j <= |ev| && ParseObjectives(ev, i, so) == Ok(Read(so + os, j))
    decreases |os|
  {
    var close := [End(Plain("objectives"))];
    if os == [] {
      assert WriteEachObjective(os) + close == close;
      Only(End(Plain("objectives")), ev, i, j);
      assert so + os == so;
    } else {
      var k := SplitFirst(WriteObjective(os[0]), WriteEachObjective(os[1..]), close, ev, i, j);
      ObjectiveReads(ev, i, k, os[0]);
      SoleAttribute("id", os[0].id, "id");
      EachObjectiveReads(ev, k, j, os[1..], so + [os[0]]);
      assert so + [os[0]] + os[1..] == so + os;
    }
  }

  lemma ObjectivesRead(ev: seq<Event>, i: nat, j: nat, os: seq<Objective>)
    requires DeliveredAt(WriteObjectives(os), ev, i, j)
    ensures os == [] ==> i == j
    ensures os != [] ==> i < j <= |ev| && ev[i] == Start(Plain("objectives"), [])
                         && ParseObjectives(ev, i + 1, []) == Ok(Read(os, j))
  {
    if os != [] {
      First(Start(Plain("objectives"), []), WriteEachObjective(os) + [End(Plain("objectives"))], ev, i, j);
      EachObjectiveReads(ev, i + 1, j, os, []);
      assert [] + os == os;
    }
  }
}
