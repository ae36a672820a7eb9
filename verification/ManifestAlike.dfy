/** What makes no difference to a manifest: the namespace prefixes of its names,
    attributes that say what their absence says, and elements no part of the reader knows.
    Two event streams that agree but for such attributes and prefixes, and for one such
    element left out, parse alike, to the value and the error, with the cursor at the same
    event. */
module ManifestAlike {
  import opened Wrappers
  import opened Cmi5Terms
  import opened Manifest
  import opened ManifestParser
  import opened ManifestForeign

  // ----- streams that differ in nothing that is read -----------------------------

  /** What the tag is taken to say of the attribute when it says nothing: an AU that it
      has no moveOn criterion, a langstring that it has no language. */
  predicate SaysDefault(tag: string, want: string, said: Result<Option<string>, Error>) {
    || (tag == "au" && want == "moveOn" && (said == Ok(None) || said == Ok(Some("NotApplicable"))))
    || (tag == "langstring" && want == "lang" && (said == Ok(None) || said == Ok(Some(""))))
  }

  predicate SameAttr(tag: string, want: string, a: seq<Attr>, b: seq<Attr>) {
    || Attribute(a, want) == Attribute(b, want)
    || (SaysDefault(tag, want, Attribute(a, want)) && SaysDefault(tag, want, Attribute(b, want)))
  }

  /** Two tags that say the same of every attribute. */
  ghost predicate AlikeAttrs(tag: string, a: seq<Attr>, b: seq<Attr>) {
    forall want :: SameAttr(tag, want, a, b)
  }

  ghost predicate AlikeEvent(e: Event, f: Event) {
    match e
    case Start(n, attrs) => f.Start? && f.name.local == n.local && AlikeAttrs(n.local, attrs, f.attrs)
    case Empty(n, attrs) => f.Empty? && f.name.local == n.local && AlikeAttrs(n.local, attrs, f.attrs)
    case End(n) => f.End? && f.name.local == n.local
    case _ => f == e
  }

  /** A tag some part of the reader looks for. */
  predicate IsKnown(tag: string) {
    || IsLabel(tag) || tag == "langstring" || tag == "objectives" || tag == "objective" || tag == "course"
    || tag == "block" || tag == "au" || IsAuText(tag) || tag == "courseStructure"
  }

  /** Nothing in the reader takes this event for anything. */
  predicate IsInert(e: Event) {
    e.Other? || ((e.Start? || e.Empty? || e.End?) && !IsKnown(e.name.local))
  }

  /** `fv` is `ev` without the events from `i` up to `k`, but for prefixes. */
  datatype Thinning = Thinning(ev: seq<Event>, fv: seq<Event>, i: nat, k: nat) {
    /** What is left out is a whole element in which nothing is known, or nothing at all. */
    ghost predicate Valid() {
      && i <= k <= |ev| && |fv| == |ev| - (k - i)
      && (forall p :: p == i < k ==> WholeFrom(p))
      && (forall p :: i <= p < k ==> InertAt(p))
      && (forall p :: 0 <= p < i || k <= p < |ev| ==> AlikeAt(p))
    }

    ghost predicate WholeFrom(p: nat)
      requires i <= k <= |ev|
    {
      p < k && ElementAt(ev, p, k - 1)
    }

    predicate InertAt(p: nat)
      requires i <= k <= |ev|
    {
      p < k ==> IsInert(ev[p])
    }

    predicate NoEndAt(p: nat, endTag: string)
      requires i <= k <= |ev|
    {
      p < k ==> !(ev[p].End? && ev[p].name.local == endTag)
    }

    /** Nothing left out ends what this tag ends. */
    ghost predicate NeverEnds(endTag: string)
      requires i <= k <= |ev|
    {
      forall p :: i <= p < k ==> NoEndAt(p, endTag)
    }

    ghost predicate AlikeAt(p: nat)
      requires i <= k <= |ev|
    {
      AlikeEvent(EventAt(ev, p), EventAt(fv, Back(p)))
    }

    /** The cursor stands at no event that is left out, but perhaps before the first. */
    predicate At(pos: nat) {
      pos <= |ev| && (pos <= i || k <= pos)
    }

    /** Where the cursor stands in `fv`. */
    function Back(pos: nat): nat
      requires i <= k
    {
      if pos >= k then pos - (k - i) else pos
    }

    predicate Agrees<T(==)>(r: Result<Read<T>, Error>, q: Result<Read<T>, Error>)
      requires i <= k
    {
      match r
      case Ok(read) => At(read.pos) && q == Ok(Read(read.value, Back(read.pos)))
      case Err(e) => q == Err(e)
    }
  }

  lemma SameAt(t: Thinning, pos: nat)
    requires t.Valid() && t.At(pos) && (pos == t.i ==> t.i == t.k)
    ensures AlikeEvent(EventAt(t.ev, pos), EventAt(t.fv, t.Back(pos)))
    ensures pos < |t.ev| ==> t.At(pos + 1) && t.Back(pos + 1) == t.Back(pos) + 1
  {
    assert pos < |t.ev| ==> t.AlikeAt(pos);
  }

  lemma AttributeSame(tag: string, a: seq<Attr>, b: seq<Attr>, want: string)
    requires AlikeAttrs(tag, a, b)
    ensures want != "moveOn" && want != "lang" ==> Attribute(a, want) == Attribute(b, want)
  {
    assert SameAttr(tag, want, a, b);
  }

  lemma KnownTagsStay(t: Thinning, tag: string)
    requires t.Valid() && IsKnown(tag)
    ensures t.NeverEnds(tag)
  {
    forall p | t.i <= p < t.k ensures t.NoEndAt(p, tag) {
      assert t.InertAt(p);
    }
  }

  // ----- what is left out is passed over -------------------------------------------

  lemma {:induction false} TextPasses(t: Thinning, pos: nat, endTag: string, text: string)
    requires t.Valid() && t.i <= pos <= t.k && t.NeverEnds(endTag)
    ensures ParseText(t.ev, pos, endTag, text) == ParseText(t.ev, t.k, endTag, text)
    decreases t.k - pos
  {
    if pos < t.k {
      assert t.InertAt(pos) && t.NoEndAt(pos, endTag);
      TextPasses(t, pos + 1, endTag, text);
    }
  }

  lemma {:induction false} RefsPass(t: Thinning, pos: nat, refs: seq<string>)
    requires t.Valid() && t.i <= pos <= t.k
    ensures ParseObjectiveRefs(t.ev, pos, refs) == ParseObjectiveRefs(t.ev, t.k, refs)
    decreases t.k - pos
  {
    if pos < t.k {
      assert t.InertAt(pos);
      RefsPass(t, pos + 1, refs);
    }
  }

  lemma {:induction false} LangStringsPass(t: Thinning, pos: nat, endTag: string, so: seq<LangString>)
    requires t.Valid() && t.i <= pos <= t.k && t.NeverEnds(endTag)
    ensures ParseLangStrings(t.ev, pos, endTag, so) == ParseLangStrings(t.ev, t.k, endTag, so)
    decreases t.k - pos
  {
    if pos < t.k {
      assert t.InertAt(pos) && t.NoEndAt(pos, endTag);
      LangStringsPass(t, pos + 1, endTag, so);
    }
  }

  lemma {:induction false} ObjectivesPass(t: Thinning, pos: nat, so: seq<Objective>)
    requires t.Valid() && t.i <= pos <= t.k
    ensures ParseObjectives(t.ev, pos, so) == ParseObjectives(t.ev, t.k, so)
    decreases t.k - pos
  {
    if pos < t.k {
      assert t.InertAt(pos);
      ObjectivesPass(t, pos + 1, so);
    }
  }

  lemma {:induction false} ManifestPasses(t: Thinning, c: Codec, pos: nat)
    requires t.Valid() && t.i <= pos <= t.k
    ensures ParseManifest(c, t.ev, pos) == ParseManifest(c, t.ev, t.k)
    decreases t.k - pos
  {
    if pos < t.k {
      assert t.InertAt(pos);
      ManifestPasses(t, c, pos + 1);
    }
  }

  lemma SkipPasses(t: Thinning, name: string, depth: nat)
    requires t.Valid() && depth >= 1
    ensures SkipToEnd(t.ev, t.i, name, depth) == SkipToEnd(t.ev, t.k, name, depth)
  {
    if t.i < t.k {
      assert t.InertAt(t.i) && t.WholeFrom(t.i);
      assert Balanced(t.ev, t.k, t.k);
      assert t.ev[t.i].Start? ==> Closes(t.ev, t.i, t.k - 1, t.k);
      SkipPassesOver(t.ev, t.i, t.k, name, depth);
    }
  }

  lemma CoursePasses(t: Thinning, so: Course)
    requires t.Valid()
    ensures CourseBody(t.ev, t.i, so) == CourseBody(t.ev, t.k, so)
  {
    if t.i < t.k {
      assert t.InertAt(t.i) && t.WholeFrom(t.i);
      if t.ev[t.i].Start? {
        SkipsTheElement(t.ev, t.i, t.k - 1);
      }
    }
  }

  lemma ObjectivePasses(t: Thinning, so: Objective)
    requires t.Valid()
    ensures ObjectiveBody(t.ev, t.i, so) == ObjectiveBody(t.ev, t.k, so)
  {
    if t.i < t.k {
      assert t.InertAt(t.i) && t.WholeFrom(t.i);
      if t.ev[t.i].Start? {
        SkipsTheElement(t.ev, t.i, t.k - 1);
      }
    }
  }

  lemma AuPasses(t: Thinning, so: AuParts)
    requires t.Valid()
    ensures AuBody(t.ev, t.i, so) == AuBody(t.ev, t.k, so)
  {
    if t.i < t.k {
      assert t.InertAt(t.i) && t.WholeFrom(t.i);
      if t.ev[t.i].Start? {
        SkipsTheElement(t.ev, t.i, t.k - 1);
      }
    }
  }

  lemma BlockPasses(t: Thinning, c: Codec, so: Block)
    requires t.Valid()
    ensures BlockBody(c, t.ev, t.i, so) == BlockBody(c, t.ev, t.k, so)
  {
    if t.i < t.k {
      assert t.InertAt(t.i) && t.WholeFrom(t.i);
      if t.ev[t.i].Start? {
        SkipsTheElement(t.ev, t.i, t.k - 1);
      }
    }
  }

  lemma StructurePasses(t: Thinning, c: Codec, so: Parts)
    requires t.Valid()
    ensures StructureBody(c, t.ev, t.i, so) == StructureBody(c, t.ev, t.k, so)
  {
    if t.i < t.k {
      assert t.InertAt(t.i) && t.WholeFrom(t.i);
      if t.ev[t.i].Start? {
        SkipsTheElement(t.ev, t.i, t.k - 1);
      }
    }
  }

  // ----- and the rest is read alike ----------------------------------------------------

  lemma {:induction false} SkipSame(t: Thinning, pos: nat, name: string, depth: nat)
    requires t.Valid() && t.At(pos) && depth >= 1
    ensures t.Agrees(SkipToEnd(t.ev, pos, name, depth), SkipToEnd(t.fv, t.Back(pos), name, depth))
    decreases |t.ev| - pos
  {
    if pos == t.i < t.k {
      SkipPasses(t, name, depth);
      SkipSame(t, t.k, name, depth);
    } else {
      SameAt(t, pos);
      var e := EventAt(t.ev, pos);
      if !e.Eof? && !e.Broken? {
        var same := (e.Start? || e.End?) && e.name.local == name;
        if !(e.End? && same && depth == 1) {
          SkipSame(t, pos + 1, name, if !same then depth else if e.Start? then depth + 1 else depth - 1);
        }
      }
    }
  }

  lemma {:induction false} TextSame(t: Thinning, pos: nat, endTag: string, text: string)
    requires t.Valid() && t.At(pos) && t.NeverEnds(endTag)
    ensures t.Agrees(ParseText(t.ev, pos, endTag, text), ParseText(t.fv, t.Back(pos), endTag, text))
    decreases |t.ev| - pos
  {
    if pos == t.i < t.k {
      TextPasses(t, pos, endTag, text);
      TextSame(t, t.k, endTag, text);
    } else {
      SameAt(t, pos);
      var e := EventAt(t.ev, pos);
      if IsPiece(e) {
        if Decode(e).Ok? {
          TextSame(t, pos + 1, endTag, text + Decode(e).value);
        }
      } else if !e.Eof? && !e.Broken? && !(e.End? && e.name.local == endTag) {
        TextSame(t, pos + 1, endTag, text);
      }
    }
  }

  lemma {:induction false} RefsSame(t: Thinning, pos: nat, refs: seq<string>)
    requires t.Valid() && t.At(pos)
    ensures t.Agrees(ParseObjectiveRefs(t.ev, pos, refs), ParseObjectiveRefs(t.fv, t.Back(pos), refs))
    decreases |t.ev| - pos
  {
    if pos == t.i < t.k {
      RefsPass(t, pos, refs);
      RefsSame(t, t.k, refs);
    } else {
      SameAt(t, pos);
      var e := EventAt(t.ev, pos);
      if Opens(e, "objective") {
        AttributeSame("objective", e.attrs, EventAt(t.fv, t.Back(pos)).attrs, "idref");
        AttributeSame("objective", e.attrs, EventAt(t.fv, t.Back(pos)).attrs, "id");
        if ReadRef(e.attrs).Ok? {
          RefsSame(t, pos + 1, refs + ReadRef(e.attrs).value);
        }
      } else if !e.Eof? && !e.Broken? && !(e.End? && e.name.local == "objectives") {
        RefsSame(t, pos + 1, refs);
      }
    }
  }

  lemma LangStringSame(t: Thinning, pos: nat, e: Event, f: Event)
    requires t.Valid() && t.At(pos) && AlikeEvent(e, f) && Opens(e, "langstring")
    ensures t.Agrees(ReadLangString(t.ev, pos, e), ReadLangString(t.fv, t.Back(pos), f))
  {
    assert SameAttr("langstring", "lang", e.attrs, f.attrs);
    KnownTagsStay(t, "langstring");
    TextSame(t, pos, "langstring", "");
  }

  lemma {:induction false} LangStringsSame(t: Thinning, pos: nat, endTag: string, so: seq<LangString>)
    requires t.Valid() && t.At(pos) && t.NeverEnds(endTag)
    ensures t.Agrees(ParseLangStrings(t.ev, pos, endTag, so), ParseLangStrings(t.fv, t.Back(pos), endTag, so))
    decreases |t.ev| - pos, 1
  {
    if pos == t.i < t.k {
      LangStringsPass(t, pos, endTag, so);
      LangStringsSame(t, t.k, endTag, so);
    } else {
      SameAt(t, pos);
      var e := EventAt(t.ev, pos);
      if Opens(e, "langstring") {
        OneSame(t, pos, endTag, so);
      } else if !e.Eof? && !e.Broken? && !(e.End? && e.name.local == endTag) {
        LangStringsSame(t, pos + 1, endTag, so);
      }
    }
  }

  lemma {:induction false} OneSame(t: Thinning, pos: nat, endTag: string, so: seq<LangString>)
    requires t.Valid() && t.At(pos) && (pos == t.i ==> t.i == t.k) && t.NeverEnds(endTag)
    requires Opens(EventAt(t.ev, pos), "langstring")
    ensures t.Agrees(ParseLangStrings(t.ev, pos, endTag, so), ParseLangStrings(t.fv, t.Back(pos), endTag, so))
    decreases |t.ev| - pos, 0
  {
    SameAt(t, pos);
    var e := EventAt(t.ev, pos);
    LangStringSame(t, pos + 1, e, EventAt(t.fv, t.Back(pos)));
    ReadsOne(t.ev, pos, endTag, so);
    ReadsOne(t.fv, t.Back(pos), endTag, so);
    var r := ReadLangString(t.ev, pos + 1, e);
    if r.Ok? {
      LangStringsSame(t, r.value.pos, endTag, so + [r.value.value]);
    }
  }

  lemma LabelSame(t: Thinning, pos: nat, tag: string)
    requires t.Valid() && t.At(pos) && IsLabel(tag)
    ensures t.Agrees(ParseLangStrings(t.ev, pos, tag, []), ParseLangStrings(t.fv, t.Back(pos), tag, []))
  {
    KnownTagsStay(t, tag);
    LangStringsSame(t, pos, tag, []);
  }

  lemma AuTextSame(t: Thinning, pos: nat, tag: string)
    requires t.Valid() && t.At(pos) && IsAuText(tag)
    ensures t.Agrees(ParseText(t.ev, pos, tag, ""), ParseText(t.fv, t.Back(pos), tag, ""))
  {
    KnownTagsStay(t, tag);
    TextSame(t, pos, tag, "");
  }

  lemma {:induction false} CourseBodySame(t: Thinning, pos: nat, so: Course)
    requires t.Valid() && t.At(pos)
    ensures t.Agrees(CourseBody(t.ev, pos, so), CourseBody(t.fv, t.Back(pos), so))
    decreases |t.ev| - pos, 1
  {
    if pos == t.i < t.k {
      CoursePasses(t, so);
      CourseBodySame(t, t.k, so);
    } else {
      SameAt(t, pos);
      var e := EventAt(t.ev, pos);
      if e.Start? && IsLabel(e.name.local) {
        CourseLabelSame(t, pos, so);
      } else if e.Start? {
        CourseSkipSame(t, pos, so);
      } else if !e.Eof? && !e.Broken? && !(e.End? && e.name.local == "course") {
        CourseBodySame(t, pos + 1, so);
      }
    }
  }

  lemma {:induction false} CourseSkipSame(t: Thinning, pos: nat, so: Course)
    requires t.Valid() && t.At(pos) && (pos == t.i ==> t.i == t.k) && EventAt(t.ev, pos).Start?
    requires !LabelsRead(EventAt(t.ev, pos))
    ensures t.Agrees(CourseBody(t.ev, pos, so), CourseBody(t.fv, t.Back(pos), so))
    decreases |t.ev| - pos, 0
  {
    SameAt(t, pos);
    var tag := EventAt(t.ev, pos).name.local;
    SkipSame(t, pos + 1, tag, 1);
    var r := SkipToEnd(t.ev, pos + 1, tag, 1);
    if r.Ok? {
      CourseBodySame(t, r.value.pos, so);
    }
  }

  lemma {:induction false} CourseLabelSame(t: Thinning, pos: nat, so: Course)
    requires t.Valid() && t.At(pos) && (pos == t.i ==> t.i == t.k) && EventAt(t.ev, pos).Start?
    requires IsLabel(EventAt(t.ev, pos).name.local)
    ensures t.Agrees(CourseBody(t.ev, pos, so), CourseBody(t.fv, t.Back(pos), so))
    decreases |t.ev| - pos, 0
  {
    SameAt(t, pos);
    var tag := EventAt(t.ev, pos).name.local;
    LabelSame(t, pos + 1, tag);
    var r := ParseLangStrings(t.ev, pos + 1, tag, []);
    if r.Ok? {
      if tag == "title" {
        CourseBodySame(t, r.value.pos, so.(title := r.value.value));
      } else {
        CourseBodySame(t, r.value.pos, so.(description := r.value.value));
      }
    }
  }

  lemma {:induction false} ObjectiveBodySame(t: Thinning, pos: nat, so: Objective)
    requires t.Valid() && t.At(pos)
    ensures t.Agrees(ObjectiveBody(t.ev, pos, so), ObjectiveBody(t.fv, t.Back(pos), so))
    decreases |t.ev| - pos, 1
  {
    if pos == t.i < t.k {
      ObjectivePasses(t, so);
      ObjectiveBodySame(t, t.k, so);
    } else {
      SameAt(t, pos);
      var e := EventAt(t.ev, pos);
      if e.Start? && IsLabel(e.name.local) {
        ObjectiveLabelSame(t, pos, so);
      } else if e.Start? {
        ObjectiveSkipSame(t, pos, so);
      } else if !e.Eof? && !e.Broken? && !(e.End? && e.name.local == "objective") {
        ObjectiveBodySame(t, pos + 1, so);
      }
    }
  }

  lemma {:induction false} ObjectiveSkipSame(t: Thinning, pos: nat, so: Objective)
    requires t.Valid() && t.At(pos) && (pos == t.i ==> t.i == t.k) && EventAt(t.ev, pos).Start?
    requires !LabelsRead(EventAt(t.ev, pos))
    ensures t.Agrees(ObjectiveBody(t.ev, pos, so), ObjectiveBody(t.fv, t.Back(pos), so))
    decreases |t.ev| - pos, 0
  {
    SameAt(t, pos);
    var tag := EventAt(t.ev, pos).name.local;
    SkipSame(t, pos + 1, tag, 1);
    var r := SkipToEnd(t.ev, pos + 1, tag, 1);
    if r.Ok? {
      ObjectiveBodySame(t, r.value.pos, so);
    }
  }

  lemma {:induction false} ObjectiveLabelSame(t: Thinning, pos: nat, so: Objective)
    requires t.Valid() && t.At(pos) && (pos == t.i ==> t.i == t.k) && EventAt(t.ev, pos).Start?
    requires IsLabel(EventAt(t.ev, pos).name.local)
    ensures t.Agrees(ObjectiveBody(t.ev, pos, so), ObjectiveBody(t.fv, t.Back(pos), so))
    decreases |t.ev| - pos, 0
  {
    SameAt(t, pos);
    var tag := EventAt(t.ev, pos).name.local;
    LabelSame(t, pos + 1, tag);
    var r := ParseLangStrings(t.ev, pos + 1, tag, []);
    if r.Ok? {
      if tag == "title" {
        ObjectiveBodySame(t, r.value.pos, so.(title := r.value.value));
      } else {
        ObjectiveBodySame(t, r.value.pos, so.(description := r.value.value));
      }
    }
  }

  lemma {:induction false} ObjectivesSame(t: Thinning, pos: nat, so: seq<Objective>)
    requires t.Valid() && t.At(pos)
    ensures t.Agrees(ParseObjectives(t.ev, pos, so), ParseObjectives(t.fv, t.Back(pos), so))
    decreases |t.ev| - pos, 1
  {
    if pos == t.i < t.k {
      ObjectivesPass(t, pos, so);
      ObjectivesSame(t, t.k, so);
    } else {
      SameAt(t, pos);
      var e := EventAt(t.ev, pos);
      if e.Start? && e.name.local == "objective" {
        ObjectiveSame(t, pos, so);
      } else if !e.Eof? && !e.Broken? && !(e.End? && e.name.local == "objectives") {
        ObjectivesSame(t, pos + 1, so);
      }
    }
  }

  lemma {:induction false} ObjectiveSame(t: Thinning, pos: nat, so: seq<Objective>)
    requires t.Valid() && t.At(pos) && (pos == t.i ==> t.i == t.k) && EventAt(t.ev, pos).Start?
    requires EventAt(t.ev, pos).name.local == "objective"
    ensures t.Agrees(ParseObjectives(t.ev, pos, so), ParseObjectives(t.fv, t.Back(pos), so))
    decreases |t.ev| - pos, 0
  {
    SameAt(t, pos);
    var e := EventAt(t.ev, pos);
    AttributeSame("objective", e.attrs, EventAt(t.fv, t.Back(pos)).attrs, "id");
    var id := RequiredId(e.attrs, "objective");
    if id.Ok? {
      ObjectiveBodySame(t, pos + 1, Objective(id.value, [], []));
      var r := ObjectiveBody(t.ev, pos + 1, Objective(id.value, [], []));
      if r.Ok? {
        ObjectivesSame(t, r.value.pos, so + [r.value.value]);
      }
    }
  }

  lemma CourseSame(t: Thinning, pos: nat, a: seq<Attr>, b: seq<Attr>, empty: bool)
    requires t.Valid() && t.At(pos) && AlikeAttrs("course", a, b)
    ensures t.Agrees(ParseCourse(t.ev, pos, a, empty), ParseCourse(t.fv, t.Back(pos), b, empty))
  {
    AttributeSame("course", a, b, "id");
    if Attribute(a, "id").Ok? && Attribute(a, "id").value.Some? {
      CourseBodySame(t, pos, Course(Attribute(a, "id").value.value, [], []));
    }
  }

  lemma AuHeadSame(c: Codec, a: seq<Attr>, b: seq<Attr>)
    requires AlikeAttrs("au", a, b)
    ensures ReadAuHead(c, a) == ReadAuHead(c, b)
  {
    AttributeSame("au", a, b, "id");
    assert SameAttr("au", "moveOn", a, b);
    WordsRoundTrip(NotApplicable, AnyWindow, "NotApplicable");
    assert ReadMoveOn(a) == ReadMoveOn(b);
    AttributeSame("au", a, b, "masteryScore");
    AttributeSame("au", a, b, "launchMethod");
  }

  lemma {:induction false} AuBodySame(t: Thinning, pos: nat, so: AuParts)
    requires t.Valid() && t.At(pos)
    ensures t.Agrees(AuBody(t.ev, pos, so), AuBody(t.fv, t.Back(pos), so))
    decreases |t.ev| - pos, 1
  {
    if pos == t.i < t.k {
      AuPasses(t, so);
      AuBodySame(t, t.k, so);
    } else {
      SameAt(t, pos);
      var e := EventAt(t.ev, pos);
      if e.Start? && IsLabel(e.name.local) {
        AuLabelSame(t, pos, so);
      } else if e.Start? && e.name.local == "objectives" {
        AuRefsSame(t, pos, so);
      } else if e.Start? && IsAuText(e.name.local) {
        AuLeafSame(t, pos, so);
      } else if e.Start? {
        AuSkipSame(t, pos, so);
      } else if !e.Eof? && !e.Broken? && !(e.End? && e.name.local == "au") {
        AuBodySame(t, pos + 1,
                   if e.Empty? && IsAuText(e.name.local) then SetAuText(so, e.name.local, "") else so);
      }
    }
  }

  lemma {:induction false} AuLabelSame(t: Thinning, pos: nat, so: AuParts)
    requires t.Valid() && t.At(pos) && (pos == t.i ==> t.i == t.k) && EventAt(t.ev, pos).Start?
    requires IsLabel(EventAt(t.ev, pos).name.local)
    ensures t.Agrees(AuBody(t.ev, pos, so), AuBody(t.fv, t.Back(pos), so))
    decreases |t.ev| - pos, 0
  {
    SameAt(t, pos);
    var tag := EventAt(t.ev, pos).name.local;
    LabelSame(t, pos + 1, tag);
    var r := ParseLangStrings(t.ev, pos + 1, tag, []);
    if r.Ok? {
      if tag == "title" {
        AuBodySame(t, r.value.pos, so.(title := r.value.value));
      } else {
        AuBodySame(t, r.value.pos, so.(description := r.value.value));
      }
    }
  }

  lemma {:induction false} AuRefsSame(t: Thinning, pos: nat, so: AuParts)
    requires t.Valid() && t.At(pos) && (pos == t.i ==> t.i == t.k) && EventAt(t.ev, pos).Start?
    requires EventAt(t.ev, pos).name.local == "objectives"
    ensures t.Agrees(AuBody(t.ev, pos, so), AuBody(t.fv, t.Back(pos), so))
    decreases |t.ev| - pos, 0
  {
    SameAt(t, pos);
    var tag := EventAt(t.ev, pos).name.local;
    RefsSame(t, pos + 1, []);
    var r := ParseObjectiveRefs(t.ev, pos + 1, []);
    if r.Ok? {
      AuBodySame(t, r.value.pos, so.(objectiveIds := r.value.value));
    }
  }

  lemma {:induction false} AuLeafSame(t: Thinning, pos: nat, so: AuParts)
    requires t.Valid() && t.At(pos) && (pos == t.i ==> t.i == t.k) && EventAt(t.ev, pos).Start?
    requires IsAuText(EventAt(t.ev, pos).name.local)
    ensures t.Agrees(AuBody(t.ev, pos, so), AuBody(t.fv, t.Back(pos), so))
    decreases |t.ev| - pos, 0
  {
    SameAt(t, pos);
    var tag := EventAt(t.ev, pos).name.local;
    AuTextSame(t, pos + 1, tag);
    var r := ParseText(t.ev, pos + 1, tag, "");
    if r.Ok? {
      AuBodySame(t, r.value.pos, SetAuText(so, tag, r.value.value));
    }
  }

  lemma {:induction false} AuSkipSame(t: Thinning, pos: nat, so: AuParts)
    requires t.Valid() && t.At(pos) && (pos == t.i ==> t.i == t.k) && EventAt(t.ev, pos).Start?
    requires !AuReads(EventAt(t.ev, pos))
    ensures t.Agrees(AuBody(t.ev, pos, so), AuBody(t.fv, t.Back(pos), so))
    decreases |t.ev| - pos, 0
  {
    SameAt(t, pos);
    var tag := EventAt(t.ev, pos).name.local;
    SkipSame(t, pos + 1, tag, 1);
    var r := SkipToEnd(t.ev, pos + 1, tag, 1);
    if r.Ok? {
      AuBodySame(t, r.value.pos, so);
    }
  }

  lemma {:induction false} NodeSame(t: Thinning, c: Codec, pos: nat, e: Event, f: Event)
    requires t.Valid() && t.At(pos) && AlikeEvent(e, f) && OpensNode(e)
    ensures t.Agrees(ParseNode(c, t.ev, pos, e), ParseNode(c, t.fv, t.Back(pos), f))
    decreases |t.ev| - pos, 2
  {
    if e.name.local == "block" {
      AttributeSame("block", e.attrs, f.attrs, "id");
      if RequiredId(e.attrs, "block").Ok? {
        BlockBodySame(t, c, pos, Block(RequiredId(e.attrs, "block").value, [], [], [], []));
      }
    } else {
      AuHeadSame(c, e.attrs, f.attrs);
      AuBodySame(t, pos, NO_PARTS);
    }
  }

  lemma {:induction false} BlockBodySame(t: Thinning, c: Codec, pos: nat, so: Block)
    requires t.Valid() && t.At(pos)
    ensures t.Agrees(BlockBody(c, t.ev, pos, so), BlockBody(c, t.fv, t.Back(pos), so))
    decreases |t.ev| - pos, 1
  {
    if pos == t.i < t.k {
      BlockPasses(t, c, so);
      BlockBodySame(t, c, t.k, so);
    } else {
      SameAt(t, pos);
      var e := EventAt(t.ev, pos);
      if OpensNode(e) {
        BlockNodeSame(t, c, pos, so);
      } else if e.Start? && e.name.local == "title" {
        BlockTitleSame(t, c, pos, so);
      } else if e.Start? && e.name.local == "description" {
        BlockDescriptionSame(t, c, pos, so);
      } else if e.Start? && e.name.local == "objectives" {
        BlockRefsSame(t, c, pos, so);
      } else if e.Start? {
        BlockSkipSame(t, c, pos, so);
      } else if !e.Eof? && !e.Broken? && !(e.End? && e.name.local == "block") {
        BlockBodySame(t, c, pos + 1, so);
      }
    }
  }

  lemma {:induction false} BlockTitleSame(t: Thinning, c: Codec, pos: nat, so: Block)
    requires t.Valid() && t.At(pos) && (pos == t.i ==> t.i == t.k) && EventAt(t.ev, pos).Start?
    requires EventAt(t.ev, pos).name.local == "title"
    ensures t.Agrees(BlockBody(c, t.ev, pos, so), BlockBody(c, t.fv, t.Back(pos), so))
    decreases |t.ev| - pos, 0
  {
    SameAt(t, pos);
    LabelSame(t, pos + 1, "title");
    var r := ParseLangStrings(t.ev, pos + 1, "title", []);
    if r.Ok? {
      BlockBodySame(t, c, r.value.pos, so.(title := r.value.value));
    }
  }

  lemma {:induction false} BlockDescriptionSame(t: Thinning, c: Codec, pos: nat, so: Block)
    requires t.Valid() && t.At(pos) && (pos == t.i ==> t.i == t.k) && EventAt(t.ev, pos).Start?
    requires EventAt(t.ev, pos).name.local == "description"
    ensures t.Agrees(BlockBody(c, t.ev, pos, so), BlockBody(c, t.fv, t.Back(pos), so))
    decreases |t.ev| - pos, 0
  {
    SameAt(t, pos);
    LabelSame(t, pos + 1, "description");
    var r := ParseLangStrings(t.ev, pos + 1, "description", []);
    if r.Ok? {
      BlockBodySame(t, c, r.value.pos, so.(description := r.value.value));
    }
  }

  lemma {:induction false} BlockRefsSame(t: Thinning, c: Codec, pos: nat, so: Block)
    requires t.Valid() && t.At(pos) && (pos == t.i ==> t.i == t.k) && EventAt(t.ev, pos).Start?
    requires EventAt(t.ev, pos).name.local == "objectives"
    ensures t.Agrees(BlockBody(c, t.ev, pos, so), BlockBody(c, t.fv, t.Back(pos), so))
    decreases |t.ev| - pos, 0
  {
    SameAt(t, pos);
    var tag := EventAt(t.ev, pos).name.local;
    RefsSame(t, pos + 1, []);
    var r := ParseObjectiveRefs(t.ev, pos + 1, []);
    if r.Ok? {
      BlockBodySame(t, c, r.value.pos, so.(objectiveIds := r.value.value));
    }
  }

  lemma {:induction false} BlockSkipSame(t: Thinning, c: Codec, pos: nat, so: Block)
    requires t.Valid() && t.At(pos) && (pos == t.i ==> t.i == t.k) && EventAt(t.ev, pos).Start?
    requires !BlockReads(EventAt(t.ev, pos))
    ensures t.Agrees(BlockBody(c, t.ev, pos, so), BlockBody(c, t.fv, t.Back(pos), so))
    decreases |t.ev| - pos, 0
  {
    SameAt(t, pos);
    var tag := EventAt(t.ev, pos).name.local;
    SkipSame(t, pos + 1, tag, 1);
    var r := SkipToEnd(t.ev, pos + 1, tag, 1);
    if r.Ok? {
      BlockBodySame(t, c, r.value.pos, so);
    }
  }

  /** A block or AU opens at the cursor of a block: it is read, and then the rest. */
  lemma BlockReadsNode(c: Codec, ev: seq<Event>, pos: nat, so: Block)
    requires pos <= |ev| && OpensNode(EventAt(ev, pos))
    ensures BlockBody(c, ev, pos, so)
         == match ParseNode(c, ev, pos + 1, EventAt(ev, pos))
            case Ok(r) => BlockBody(c, ev, r.pos, so.(children := so.children + [r.value]))
            case Err(e) => Err(e)
  {
  }

  lemma {:induction false} BlockNodeSame(t: Thinning, c: Codec, pos: nat, so: Block)
    requires t.Valid() && t.At(pos) && (pos == t.i ==> t.i == t.k) && OpensNode(EventAt(t.ev, pos))
    ensures t.Agrees(BlockBody(c, t.ev, pos, so), BlockBody(c, t.fv, t.Back(pos), so))
    decreases |t.ev| - pos, 0
  {
    SameAt(t, pos);
    var e := EventAt(t.ev, pos);
    BlockReadsNode(c, t.ev, pos, so);
    BlockReadsNode(c, t.fv, t.Back(pos), so);
    NodeSame(t, c, pos + 1, e, EventAt(t.fv, t.Back(pos)));
    var r := ParseNode(c, t.ev, pos + 1, e);
    if r.Ok? {
      BlockBodySame(t, c, r.value.pos, so.(children := so.children + [r.value.value]));
    }
  }

  lemma {:induction false} StructureBodySame(t: Thinning, c: Codec, pos: nat, so: Parts)
    requires t.Valid() && t.At(pos)
    ensures t.Agrees(StructureBody(c, t.ev, pos, so), StructureBody(c, t.fv, t.Back(pos), so))
    decreases |t.ev| - pos, 1
  {
    if pos == t.i < t.k {
      StructurePasses(t, c, so);
      StructureBodySame(t, c, t.k, so);
    } else {
      SameAt(t, pos);
      var e := EventAt(t.ev, pos);
      if OpensNode(e) {
        StructureNodeSame(t, c, pos, so);
      } else if Opens(e, "course") {
        StructureCourseSame(t, c, pos, so);
      } else if e.Start? && e.name.local == "objectives" {
        StructureObjectivesSame(t, c, pos, so);
      } else if e.Start? {
        StructureSkipSame(t, c, pos, so);
      } else if !e.Eof? && !e.Broken? && !(e.End? && e.name.local == "courseStructure") {
        StructureBodySame(t, c, pos + 1, so);
      }
    }
  }

  lemma {:induction false} StructureCourseSame(t: Thinning, c: Codec, pos: nat, so: Parts)
    requires t.Valid() && t.At(pos) && (pos == t.i ==> t.i == t.k) && Opens(EventAt(t.ev, pos), "course")
    ensures t.Agrees(StructureBody(c, t.ev, pos, so), StructureBody(c, t.fv, t.Back(pos), so))
    decreases |t.ev| - pos, 0
  {
    SameAt(t, pos);
    var e := EventAt(t.ev, pos);
    CourseSame(t, pos + 1, e.attrs, EventAt(t.fv, t.Back(pos)).attrs, e.Empty?);
    var r := ParseCourse(t.ev, pos + 1, e.attrs, e.Empty?);
    if r.Ok? {
      StructureBodySame(t, c, r.value.pos, so.(course := Some(r.value.value)));
    }
  }

  lemma {:induction false} StructureObjectivesSame(t: Thinning, c: Codec, pos: nat, so: Parts)
    requires t.Valid() && t.At(pos) && (pos == t.i ==> t.i == t.k) && EventAt(t.ev, pos).Start?
    requires EventAt(t.ev, pos).name.local == "objectives"
    ensures t.Agrees(StructureBody(c, t.ev, pos, so), StructureBody(c, t.fv, t.Back(pos), so))
    decreases |t.ev| - pos, 0
  {
    SameAt(t, pos);
    var tag := EventAt(t.ev, pos).name.local;
    ObjectivesSame(t, pos + 1, []);
    var r := ParseObjectives(t.ev, pos + 1, []);
    if r.Ok? {
      StructureBodySame(t, c, r.value.pos, so.(objectives := r.value.value));
    }
  }

  lemma {:induction false} StructureSkipSame(t: Thinning, c: Codec, pos: nat, so: Parts)
    requires t.Valid() && t.At(pos) && (pos == t.i ==> t.i == t.k) && EventAt(t.ev, pos).Start?
    requires !StructureReads(EventAt(t.ev, pos))
    ensures t.Agrees(StructureBody(c, t.ev, pos, so), StructureBody(c, t.fv, t.Back(pos), so))
    decreases |t.ev| - pos, 0
  {
    SameAt(t, pos);
    var tag := EventAt(t.ev, pos).name.local;
    SkipSame(t, pos + 1, tag, 1);
    var r := SkipToEnd(t.ev, pos + 1, tag, 1);
    if r.Ok? {
      StructureBodySame(t, c, r.value.pos, so);
    }
  }

  lemma {:induction false} StructureNodeSame(t: Thinning, c: Codec, pos: nat, so: Parts)
    requires t.Valid() && t.At(pos) && (pos == t.i ==> t.i == t.k) && OpensNode(EventAt(t.ev, pos))
    ensures t.Agrees(StructureBody(c, t.ev, pos, so), StructureBody(c, t.fv, t.Back(pos), so))
    decreases |t.ev| - pos, 0
  {
    SameAt(t, pos);
    var e := EventAt(t.ev, pos);
    NodeSame(t, c, pos + 1, e, EventAt(t.fv, t.Back(pos)));
    var r := ParseNode(c, t.ev, pos + 1, e);
    if r.Ok? {
      StructureBodySame(t, c, r.value.pos, so.(nodes := so.nodes + [r.value.value]));
    }
  }

  /** From any cursor, the thinned stream parses to the same structure or the same error,
      and leaves the cursor at the same event. */
  lemma {:induction false} ThinningMakesNoDifference(t: Thinning, c: Codec, pos: nat)
    requires t.Valid() && t.At(pos)
    ensures t.Agrees(ParseManifest(c, t.ev, pos), ParseManifest(c, t.fv, t.Back(pos)))
    decreases |t.ev| - pos
  {
    if pos == t.i < t.k {
      ManifestPasses(t, c, pos);
      ThinningMakesNoDifference(t, c, t.k);
    } else {
      SameAt(t, pos);
      var e := EventAt(t.ev, pos);
      if e.Start? && e.name.local == "courseStructure" {
        StructureBodySame(t, c, pos + 1, Parts(None, [], []));
      } else if !e.Eof? && !e.Broken? {
        ThinningMakesNoDifference(t, c, pos + 1);
      }
    }
  }

  // ----- the ways to use it -------------------------------------------------------------------

  predicate SameButPrefix(a: Attr, b: Attr) {
    match a
    case Attr(n, value) => b.Attr? && b.name.local == n.local && b.value == value
    case Unreadable(n, reason) => b.Unreadable? && b.name.local == n.local && b.reason == reason
    case Malformed(reason) => b == a
  }

  predicate SameButPrefixes(a: seq<Attr>, b: seq<Attr>) {
    |a| == |b| && forall i :: 0 <= i < |a| ==> SameButPrefix(a[i], b[i])
  }

  predicate SameEventButPrefixes(e: Event, f: Event) {
    match e
    case Start(n, attrs) => f.Start? && f.name.local == n.local && SameButPrefixes(attrs, f.attrs)
    case Empty(n, attrs) => f.Empty? && f.name.local == n.local && SameButPrefixes(attrs, f.attrs)
    case End(n) => f.End? && f.name.local == n.local
    case _ => f == e
  }

  ghost predicate SameStream(ev: seq<Event>, fv: seq<Event>) {
    |ev| == |fv| && forall p :: 0 <= p < |ev| ==> SameEventButPrefixes(ev[p], fv[p])
  }

  lemma {:induction false} PrefixesSayNothing(a: seq<Attr>, b: seq<Attr>, want: string)
    requires SameButPrefixes(a, b)
    ensures Attribute(a, want) == Attribute(b, want)
  {
    if |a| > 0 {
      assert SameButPrefix(a[0], b[0]);
      PrefixesSayNothing(a[1..], b[1..], want);
    }
  }

  lemma AlikeButPrefixes(e: Event, f: Event)
    requires SameEventButPrefixes(e, f)
    ensures AlikeEvent(e, f)
  {
    if e.Start? || e.Empty? {
      forall want ensures SameAttr(e.name.local, want, e.attrs, f.attrs) {
        PrefixesSayNothing(e.attrs, f.attrs, want);
      }
    }
  }

  /** A manifest reads the same with any prefixes or none, good or bad. */
  lemma PrefixesMakeNoDifference(c: Codec, ev: seq<Event>, fv: seq<Event>, pos: nat)
    requires SameStream(ev, fv) && pos <= |ev|
    ensures ParseManifest(c, ev, pos) == ParseManifest(c, fv, pos)
  {
    var t := Thinning(ev, fv, 0, 0);
    forall p: nat | p < |ev| ensures t.AlikeAt(p) {
      AlikeButPrefixes(ev[p], fv[p]);
    }
    ThinningMakesNoDifference(t, c, pos);
  }

  lemma AlikeToItself(e: Event)
    ensures AlikeEvent(e, e)
  {
    if e.Start? || e.Empty? {
      assert forall want :: SameAttr(e.name.local, want, e.attrs, e.attrs);
    }
  }

  /** The tag without the attribute at `x`. */
  function WithoutAttr(e: Event, x: nat): Event
    requires (e.Start? || e.Empty?) && x < |e.attrs|
  {
    var rest := e.attrs[..x] + e.attrs[x + 1..];
    if e.Start? then Start(e.name, rest) else Empty(e.name, rest)
  }

  lemma {:induction false} OneAttributeLess(a: seq<Attr>, x: nat, want: string)
    requires x < |a| && a[x].Attr?
    requires forall i :: 0 <= i < |a| && i != x ==> a[i].Attr? && a[i].name.local != a[x].name.local
    ensures var rest := a[..x] + a[x + 1..];
            if want == a[x].name.local
            then Attribute(a, want) == Ok(Some(a[x].value)) && Attribute(rest, want) == Ok(None)
            else Attribute(a, want) == Attribute(rest, want)
  {
    var rest := a[..x] + a[x + 1..];
    if x == 0 {
      assert rest == a[1..];
      if want == a[x].name.local {
        NothingSaid(a[1..], want);
      }
    } else {
      assert rest[0] == a[0] && rest[1..] == a[1..][..x - 1] + a[1..][x..];
      OneAttributeLess(a[1..], x - 1, want);
    }
  }

  lemma {:induction false} NothingSaid(a: seq<Attr>, want: string)
    requires forall i :: 0 <= i < |a| ==> a[i].Attr? && a[i].name.local != want
    ensures Attribute(a, want) == Ok(None)
  {
    if |a| > 0 {
      NothingSaid(a[1..], want);
    }
  }

  /** An AU that says it has no moveOn criterion, or a langstring that says it has no
      language, anywhere in a document, may as well say nothing: without that attribute
      the manifest parses to the same structure or the same error. So an AU that gives no
      `moveOn` is `NotApplicable`. */
  lemma DefaultsMakeNoDifference(c: Codec, ev: seq<Event>, p: nat, x: nat)
    requires p < |ev| && (ev[p].Start? || ev[p].Empty?) && x < |ev[p].attrs| && ev[p].attrs[x].Attr?
    requires forall i :: 0 <= i < |ev[p].attrs| ==>
               ev[p].attrs[i].Attr? && (i != x ==> ev[p].attrs[i].name.local != ev[p].attrs[x].name.local)
    requires var a := ev[p].attrs[x];
             || (ev[p].name.local == "au" && a.name.local == "moveOn" && a.value == "NotApplicable")
             || (ev[p].name.local == "langstring" && a.name.local == "lang" && a.value == "")
    ensures ParseManifest(c, ev, 0) == ParseManifest(c, ev[p := WithoutAttr(ev[p], x)], 0)
  {
    var t := Thinning(ev, ev[p := WithoutAttr(ev[p], x)], 0, 0);
    forall want ensures SameAttr(ev[p].name.local, want, ev[p].attrs, WithoutAttr(ev[p], x).attrs) {
      OneAttributeLess(ev[p].attrs, x, want);
    }
    forall q: nat | q < |ev| ensures t.AlikeAt(q) {
      AlikeToItself(ev[q]);
    }
    ThinningMakesNoDifference(t, c, 0);
  }

  /** An element in which nothing is known, at `i..k` anywhere in the document, may be
      taken out: the manifest parses to the same structure or the same error. */
  lemma ForeignElementsMakeNoDifference(c: Codec, ev: seq<Event>, i: nat, k: nat)
    requires i < k <= |ev| && ElementAt(ev, i, k - 1) && forall p :: i <= p < k ==> IsInert(ev[p])
    ensures var r, q := ParseManifest(c, ev, 0), ParseManifest(c, ev[..i] + ev[k..], 0);
            if r.Ok? then
              q == Ok(Read(r.value.value, if r.value.pos >= k then r.value.pos - (k - i) else r.value.pos))
            else q == r
  {
    var t := Thinning(ev, ev[..i] + ev[k..], i, k);
    forall p: nat | p < i || k <= p < |ev| ensures t.AlikeAt(p) {
      AlikeToItself(ev[p]);
    }
    ThinningMakesNoDifference(t, c, 0);
  }
}
