/** The round trip over whole course trees. */
module ManifestTrees {
  import opened Wrappers
  import opened Cmi5Terms
  import opened Manifest
  import opened ManifestParser
  import opened ManifestRoundTrip

  // ----- scores -------------------------------------------------------------

  /** The mastery scores of a tree, in document order. */
  function ScoresOf(nodes: seq<Node>): seq<real> {
    if nodes == [] then [] else ScoresOfNode(nodes[0]) + ScoresOf(nodes[1..])
  }

  function ScoresOfNode(node: Node): seq<real> {
    match node
    case BlockNode(b) => ScoresOf(b.children)
    case AuNode(au) => if au.masteryScore.Some? then [au.masteryScore.value] else []
  }

  /** Each of these scores reads back as the number that was written. */
  ghost predicate ReadBack(c: Codec, scores: seq<real>) {
    forall v :: v in scores ==> c.parse(c.show(v)) == Some(v)
  }

  ghost predicate AllInRange(scores: seq<real>) {
    forall v :: v in scores ==> InRange(v)
  }

  ghost predicate Writable(c: Codec, scores: seq<real>) {
    ReadBack(c, scores) && AllInRange(scores)
  }

  // ----- assignable units -----------------------------------------------------

  lemma AuAttributeNames()
    ensures "id" != "moveOn" && "id" != "masteryScore" && "id" != "launchMethod"
    ensures "moveOn" != "masteryScore" && "moveOn" != "launchMethod" && "masteryScore" != "launchMethod"
  {
  }

  function ScoreAttr(c: Codec, au: AssignableUnit): seq<Attr> {
    if au.masteryScore.Some? then [Given("masteryScore", c.show(au.masteryScore.value))] else []
  }

  function MethodAttr(au: AssignableUnit): seq<Attr> {
    if au.launchMethod.Some? then [Given("launchMethod", LaunchMethodText(au.launchMethod.value))] else []
  }

  lemma OptionalAttrs(c: Codec, au: AssignableUnit, want: string)
    ensures Attribute(ScoreAttr(c, au) + MethodAttr(au), want)
         == if want == "masteryScore" && au.masteryScore.Some? then Ok(Some(c.show(au.masteryScore.value)))
            else if want == "launchMethod"
                && au.launchMethod.Some? then Ok(Some(LaunchMethodText(au.launchMethod.value)))
            else Ok(None)
  {
    AuAttributeNames();
    if au.masteryScore.Some? {
      OneAttribute("masteryScore", c.show(au.masteryScore.value), MethodAttr(au), want);
    } else {
      assert ScoreAttr(c, au) + MethodAttr(au) == MethodAttr(au);
    }
    if au.launchMethod.Some? {
      SoleAttribute("launchMethod", LaunchMethodText(au.launchMethod.value), want);
    }
  }

  lemma AuAttribute(c: Codec, au: AssignableUnit, want: string)
    ensures Attribute(AuAttrs(c, au), want)
         == if want == "id" then Ok(Some(au.id))
            else if want == "moveOn" then Ok(Some(MoveOnText(au.moveOn)))
            else Attribute(ScoreAttr(c, au) + MethodAttr(au), want)
  {
    var optional := ScoreAttr(c, au) + MethodAttr(au);
    var moveOn := [Given("moveOn", MoveOnText(au.moveOn))] + optional;
    assert AuAttrs(c, au) == [Given("id", au.id)] + moveOn;
    OneAttribute("id", au.id, moveOn, want);
    OneAttribute("moveOn", MoveOnText(au.moveOn), optional, want);
  }

  /** A score the codec reads back is taken exactly when it is in range. */
  lemma AuHeadReads(c: Codec, au: AssignableUnit)
    requires ReadBack(c, ScoresOfNode(AuNode(au)))
    ensures ReadAuHead(c, AuAttrs(c, au))
         == if AllInRange(ScoresOfNode(AuNode(au))) then Ok(AuHead(au.id, au.moveOn, au.masteryScore, au.launchMethod))
            else Err(BadMasteryScore(c.show(au.masteryScore.value)))
  {
    AuAttributeNames();
    AuAttribute(c, au, "id");
    AuAttribute(c, au, "moveOn");
    AuAttribute(c, au, "masteryScore");
    AuAttribute(c, au, "launchMethod");
    OptionalAttrs(c, au, "masteryScore");
    OptionalAttrs(c, au, "launchMethod");
    WordsRoundTrip(au.moveOn, au.launchMethod.GetOr(AnyWindow), "");
    var attrs, scores := AuAttrs(c, au), ScoresOfNode(AuNode(au));
    assert RequiredId(attrs, "au") == Ok(au.id) && ReadMoveOn(attrs) == Ok(au.moveOn);
    if au.masteryScore.Some? {
      var v := au.masteryScore.value;
      assert v in scores;
      assert AllInRange(scores) <==> InRange(v);
      assert ReadMasteryScore(c, attrs) == if InRange(v) then Ok(Some(v)) else Err(BadMasteryScore(c.show(v)));
    } else {
      assert ReadMasteryScore(c, attrs) == Ok(None);
    }
    assert ReadLaunchMethod(attrs) == Ok(au.launchMethod);
  }

  // A title, a description or a list of references given again takes the place of the
  // one before; so, among the children of the structure, does a list of objectives.

  lemma AuTitle(ev: seq<Event>, i: nat, j: nat, ls: seq<LangString>, so: AuParts)
    requires DeliveredAt(WriteLangStrings("title", ls), ev, i, j) && i <= j <= |ev|
    requires (ls != [] || so.title == [])
    ensures AuBody(ev, i, so) == AuBody(ev, j, so.(title := ls))
  {
    LangStringsRead(ev, i, j, "title", ls);
  }

  lemma AuDescription(ev: seq<Event>, i: nat, j: nat, ls: seq<LangString>, so: AuParts)
    requires DeliveredAt(WriteLangStrings("description", ls), ev, i, j) && i <= j <= |ev|
    requires (ls != [] || so.description == [])
    ensures AuBody(ev, i, so) == AuBody(ev, j, so.(description := ls))
  {
    LangStringsRead(ev, i, j, "description", ls);
  }

  lemma AuRefs(ev: seq<Event>, i: nat, j: nat, ids: seq<string>, so: AuParts)
    requires DeliveredAt(WriteObjectiveRefs(ids), ev, i, j) && i <= j <= |ev|
    requires (ids != [] || so.objectiveIds == [])
    ensures AuBody(ev, i, so) == AuBody(ev, j, so.(objectiveIds := ids))
  {
    RefsRead(ev, i, j, ids);
  }

  lemma AuTextTags(tag: string)
    requires IsAuText(tag)
    ensures tag != "title" && tag != "description" && tag != "objectives" && tag != "block" && tag != "au"
  {
  }

  lemma AuText(ev: seq<Event>, i: nat, j: nat, tag: string, text: Option<string>, so: AuParts)
    requires IsAuText(tag) && DeliveredAt(WriteTextElement(tag, text), ev, i, j) && i <= j <= |ev|
    ensures AuBody(ev, i, so) == AuBody(ev, j, if text.Some? then SetAuText(so, tag, text.value) else so)
  {
    if text.Some? {
      AuTextTags(tag);
      var close := [End(Plain(tag))];
      First(Start(Plain(tag), []), [Text(text.value)] + close, ev, i, j);
      assert close == close + [];
      var k := TextElementReads(ev, i + 1, j, text.value, tag, []);
    }
  }

  /** The three texts that end an AU. */
  lemma AuTail(ev: seq<Event>, i: nat, j: nat, au: AssignableUnit, so: AuParts)
    requires DeliveredAt(WriteTextElement("url", Some(au.url))
                         + (WriteTextElement("launchParameters", au.launchParameters)
                            + (WriteTextElement("entitlementKey", au.entitlementKey) + [End(Plain("au"))])), ev, i, j)
    requires so == AuParts(au.title, au.description, au.objectiveIds, None, None, None)
    ensures i <= j <= |ev|
    ensures AuBody(ev, i, so) == Ok(Read(so.(url := Some(au.url), launchParameters := au.launchParameters,
                                             entitlementKey := au.entitlementKey), j))
  {
    var close := [End(Plain("au"))];
    var key := WriteTextElement("entitlementKey", au.entitlementKey);
    var params := WriteTextElement("launchParameters", au.launchParameters);
    var k := Split(WriteTextElement("url", Some(au.url)), params + (key + close), ev, i, j);
    AuText(ev, i, k, "url", Some(au.url), so);
    var l := Split(params, key + close, ev, k, j);
    AuText(ev, k, l, "launchParameters", au.launchParameters, so.(url := Some(au.url)));
    var m := Split(key, close, ev, l, j);
    assert |"url"| == 3 && |"launchParameters"| == 16 && |"entitlementKey"| == 14;
    AuText(ev, l, m, "entitlementKey", au.entitlementKey,
           so.(url := Some(au.url), launchParameters := au.launchParameters));
    Only(End(Plain("au")), ev, m, j);
  }

  lemma AuBodyReads(ev: seq<Event>, i: nat, j: nat, au: AssignableUnit, tail: seq<Event>)
    requires tail == WriteTextElement("url", Some(au.url))
                     + (WriteTextElement("launchParameters", au.launchParameters)
                        + (WriteTextElement("entitlementKey", au.entitlementKey) + [End(Plain("au"))]))
    requires DeliveredAt(WriteLangStrings("title", au.title)
                         + (WriteLangStrings("description", au.description)
                            + (WriteObjectiveRefs(au.objectiveIds) + tail)), ev, i, j)
    ensures i <= j <= |ev|
    ensures AuBody(ev, i, NO_PARTS)
         == Ok(Read(AuParts(au.title, au.description, au.objectiveIds, Some(au.url), au.launchParameters,
                            au.entitlementKey), j))
  {
    var refs := WriteObjectiveRefs(au.objectiveIds);
    var description := WriteLangStrings("description", au.description);
    var k := Split(WriteLangStrings("title", au.title), description + (refs + tail), ev, i, j);
    AuTitle(ev, i, k, au.title, NO_PARTS);
    var l := Split(description, refs + tail, ev, k, j);
    AuDescription(ev, k, l, au.description, NO_PARTS.(title := au.title));
    var m := Split(refs, tail, ev, l, j);
    AuRefs(ev, l, m, au.objectiveIds, NO_PARTS.(title := au.title, description := au.description));
    AuTail(ev, m, j, au, AuParts(au.title, au.description, au.objectiveIds, None, None, None));
  }

  lemma AuReads(c: Codec, ev: seq<Event>, i: nat, j: nat, au: AssignableUnit)
    requires DeliveredAt(WriteAu(c, au), ev, i, j) && Writable(c, ScoresOfNode(AuNode(au)))
    ensures i < j <= |ev| && ev[i] == Start(Plain("au"), AuAttrs(c, au))
    ensures ParseAu(c, ev, i + 1, ev[i].attrs, false) == Ok(Read(au, j))
  {
    var tail := WriteTextElement("url", Some(au.url))
                + (WriteTextElement("launchParameters", au.launchParameters)
                   + (WriteTextElement("entitlementKey", au.entitlementKey) + [End(Plain("au"))]));
    First(Start(Plain("au"), AuAttrs(c, au)),
          WriteLangStrings("title", au.title)
          + (WriteLangStrings("description", au.description) + (WriteObjectiveRefs(au.objectiveIds) + tail)), ev, i, j);
    AuBodyReads(ev, i + 1, j, au, tail);
    AuHeadReads(c, au);
    assert ReadAuHead(c, ev[i].attrs).Ok? && AuBody(ev, i + 1, NO_PARTS).Ok?;
  }

  // ----- blocks and nodes -------------------------------------------------------

  lemma BlockTitle(c: Codec, ev: seq<Event>, i: nat, j: nat, ls: seq<LangString>, so: Block)
    requires DeliveredAt(WriteLangStrings("title", ls), ev, i, j) && i <= j <= |ev|
    requires (ls != [] || so.title == [])
    ensures BlockBody(c, ev, i, so) == BlockBody(c, ev, j, so.(title := ls))
  {
    LangStringsRead(ev, i, j, "title", ls);
  }

  lemma BlockDescription(c: Codec, ev: seq<Event>, i: nat, j: nat, ls: seq<LangString>, so: Block)
    requires DeliveredAt(WriteLangStrings("description", ls), ev, i, j) && i <= j <= |ev|
    requires (ls != [] || so.description == [])
    ensures BlockBody(c, ev, i, so) == BlockBody(c, ev, j, so.(description := ls))
  {
    LangStringsRead(ev, i, j, "description", ls);
  }

  lemma BlockRefs(c: Codec, ev: seq<Event>, i: nat, j: nat, ids: seq<string>, so: Block)
    requires DeliveredAt(WriteObjectiveRefs(ids), ev, i, j) && i <= j <= |ev|
    requires (ids != [] || so.objectiveIds == [])
    ensures BlockBody(c, ev, i, so) == BlockBody(c, ev, j, so.(objectiveIds := ids))
  {
    RefsRead(ev, i, j, ids);
  }

  function WriteChildren(c: Codec, b: Block): seq<Event> {
    WriteNodes(c, b.children) + [End(Plain("block"))]
  }

  /** The part of a block before its children. */
  lemma BlockLabelsRead(c: Codec, ev: seq<Event>, i: nat, j: nat, b: Block) returns (m: nat)
    requires DeliveredAt(WriteLangStrings("title", b.title)
                         + (WriteLangStrings("description", b.description)
                            + (WriteObjectiveRefs(b.objectiveIds) + WriteChildren(c, b))), ev, i, j)
    ensures i <= m <= j <= |ev| && DeliveredAt(WriteChildren(c, b), ev, m, j)
    ensures BlockBody(c, ev, i, Block(b.id, [], [], [], []))
         == BlockBody(c, ev, m, Block(b.id, b.title, b.description, b.objectiveIds, []))
  {
    var refs, tail := WriteObjectiveRefs(b.objectiveIds), WriteChildren(c, b);
    var description := WriteLangStrings("description", b.description);
    var k := Split(WriteLangStrings("title", b.title), description + (refs + tail), ev, i, j);
    BlockTitle(c, ev, i, k, b.title, Block(b.id, [], [], [], []));
    var l := Split(description, refs + tail, ev, k, j);
    BlockDescription(c, ev, k, l, b.description, Block(b.id, b.title, [], [], []));
    m := Split(refs, tail, ev, l, j);
    BlockRefs(c, ev, l, m, b.objectiveIds, Block(b.id, b.title, b.description, [], []));
  }

  lemma {:induction false} BlockReads(c: Codec, ev: seq<Event>, i: nat, j: nat, b: Block)
    requires DeliveredAt(WriteBlock(c, b), ev, i, j) && Writable(c, ScoresOf(b.children))
    ensures i < j <= |ev| && ev[i] == Start(Plain("block"), [Given("id", b.id)])
    ensures ParseBlock(c, ev, i + 1, ev[i].attrs, false) == Ok(Read(b, j))
    decreases b, 1
  {
    First(Start(Plain("block"), [Given("id", b.id)]),
          WriteLangStrings("title", b.title)
          + (WriteLangStrings("description", b.description)
             + (WriteObjectiveRefs(b.objectiveIds) + WriteChildren(c, b))), ev, i, j);
    var m := BlockLabelsRead(c, ev, i + 1, j, b);
    SoleAttribute("id", b.id, "id");
    ChildrenRead(c, ev, m, j, b.children, Block(b.id, b.title, b.description, b.objectiveIds, []));
    assert [] + b.children == b.children;
  }

  lemma {:induction false} NodeReads(c: Codec, ev: seq<Event>, i: nat, j: nat, node: Node)
    requires DeliveredAt(WriteNode(c, node), ev, i, j) && Writable(c, ScoresOfNode(node))
    ensures i < j <= |ev| && OpensNode(ev[i]) && ParseNode(c, ev, i + 1, ev[i]) == Ok(Read(node, j))
    decreases node, 2
  {
    assert "au" != "block";
    match node
    case BlockNode(b) => BlockReads(c, ev, i, j, b);
    case AuNode(au) => AuReads(c, ev, i, j, au);
  }

  lemma WritableSplits(c: Codec, nodes: seq<Node>)
    requires nodes != [] && Writable(c, ScoresOf(nodes))
    ensures Writable(c, ScoresOfNode(nodes[0])) && Writable(c, ScoresOf(nodes[1..]))
  {
  }

  lemma NodesSplit(c: Codec, ev: seq<Event>, i: nat, j: nat, nodes: seq<Node>, close: seq<Event>) returns (k: nat)
    requires nodes != [] && DeliveredAt(WriteNodes(c, nodes) + close, ev, i, j)
    ensures i <= k <= j <= |ev|
    ensures DeliveredAt(WriteNode(c, nodes[0]), ev, i, k) && DeliveredAt(WriteNodes(c, nodes[1..]) + close, ev, k, j)
  {
    k := SplitFirst(WriteNode(c, nodes[0]), WriteNodes(c, nodes[1..]), close, ev, i, j);
  }

  lemma BlockTakes(c: Codec, ev: seq<Event>, i: nat, k: nat, node: Node, so: Block)
    requires i < k <= |ev| && OpensNode(ev[i]) && ParseNode(c, ev, i + 1, ev[i]) == Ok(Read(node, k))
    ensures BlockBody(c, ev, i, so) == BlockBody(c, ev, k, so.(children := so.children + [node]))
  {
  }

  lemma {:induction false} ChildrenRead(c: Codec, ev: seq<Event>, i: nat, j: nat, nodes: seq<Node>, so: Block)
    requires DeliveredAt(WriteNodes(c, nodes) + [End(Plain("block"))], ev, i, j) && Writable(c, ScoresOf(nodes))
    ensures i <= j <= |ev|
    ensures BlockBody(c, ev, i, so) == Ok(Read(so.(children := so.children + nodes), j))
    decreases nodes, 3
  {
    var close := [End(Plain("block"))];
    if nodes == [] {
      assert WriteNodes(c, nodes) + close == close;
      Only(End(Plain("block")), ev, i, j);
      assert so.children + nodes == so.children;
    } else {
      var k := NodesSplit(c, ev, i, j, nodes, close);
      WritableSplits(c, nodes);
      NodeReads(c, ev, i, k, nodes[0]);
      BlockTakes(c, ev, i, k, nodes[0], so);
      ChildrenRead(c, ev, k, j, nodes[1..], so.(children := so.children + [nodes[0]]));
      assert so.children + [nodes[0]] + nodes[1..] == so.children + nodes;
    }
  }

  // ----- the structure ------------------------------------------------------------

  lemma TopTakes(c: Codec, ev: seq<Event>, i: nat, k: nat, node: Node, so: Parts)
    requires i < k <= |ev| && OpensNode(ev[i]) && ParseNode(c, ev, i + 1, ev[i]) == Ok(Read(node, k))
    ensures StructureBody(c, ev, i, so) == StructureBody(c, ev, k, so.(nodes := so.nodes + [node]))
  {
  }

  lemma {:induction false} TopNodesRead(c: Codec, ev: seq<Event>, i: nat, j: nat, nodes: seq<Node>, so: Parts)
    requires DeliveredAt(WriteNodes(c, nodes) + [End(Plain("courseStructure"))], ev, i, j)
         && Writable(c, ScoresOf(nodes))
    ensures i <= j <= |ev|
    ensures StructureBody(c, ev, i, so) == Ok(Read(so.(nodes := so.nodes + nodes), j))
    decreases nodes
  {
    var close := [End(Plain("courseStructure"))];
    if nodes == [] {
      assert WriteNodes(c, nodes) + close == close;
      Only(End(Plain("courseStructure")), ev, i, j);
      assert so.nodes + nodes == so.nodes;
    } else {
      var k := NodesSplit(c, ev, i, j, nodes, close);
      WritableSplits(c, nodes);
      NodeReads(c, ev, i, k, nodes[0]);
      TopTakes(c, ev, i, k, nodes[0], so);
      var more := so.(nodes := so.nodes + [nodes[0]]);
      TopNodesRead(c, ev, k, j, nodes[1..], more);
      assert more.nodes + nodes[1..] == so.nodes + nodes;
      assert more.(nodes := more.nodes + nodes[1..]) == so.(nodes := so.nodes + nodes);
    }
  }

  lemma TopCourse(c: Codec, ev: seq<Event>, i: nat, j: nat, course: Course, so: Parts)
    requires DeliveredAt(WriteCourse(course), ev, i, j) && i <= j <= |ev|
    ensures StructureBody(c, ev, i, so) == StructureBody(c, ev, j, so.(course := Some(course)))
  {
    CourseReads(ev, i, j, course);
    assert "course" != "block" && "course" != "au";
  }

  lemma TopObjectives(c: Codec, ev: seq<Event>, i: nat, j: nat, os: seq<Objective>, so: Parts)
    requires DeliveredAt(WriteObjectives(os), ev, i, j) && i <= j <= |ev|
    requires os != [] || so.objectives == []
    ensures StructureBody(c, ev, i, so) == StructureBody(c, ev, j, so.(objectives := os))
  {
    ObjectivesRead(ev, i, j, os);
    assert "objectives" != "block" && "objectives" != "au" && "objectives" != "course";
  }

  lemma PartsRead(c: Codec, ev: seq<Event>, i: nat, k: nat, l: nat, j: nat, cs: CourseStructure)
    requires i <= k <= l <= |ev| && Writable(c, ScoresOf(cs.nodes))
    requires DeliveredAt(WriteCourse(cs.course), ev, i, k) && DeliveredAt(WriteObjectives(cs.objectives), ev, k, l)
    requires DeliveredAt(WriteNodes(c, cs.nodes) + [End(Plain("courseStructure"))], ev, l, j)
    ensures ParseStructure(c, ev, i) == Ok(Read(cs, j))
  {
    TopCourse(c, ev, i, k, cs.course, Parts(None, [], []));
    TopObjectives(c, ev, k, l, cs.objectives, Parts(Some(cs.course), [], []));
    TopNodesRead(c, ev, l, j, cs.nodes, Parts(Some(cs.course), cs.objectives, []));
    assert [] + cs.nodes == cs.nodes;
  }

  lemma StructureReads(c: Codec, ev: seq<Event>, i: nat, j: nat, cs: CourseStructure)
    requires DeliveredAt(WriteStructure(c, cs), ev, i, j) && Writable(c, ScoresOf(cs.nodes))
    ensures i < j <= |ev| && ev[i] == Start(Plain("courseStructure"), [Given("xmlns", COURSE_STRUCTURE_NS)])
    ensures ParseStructure(c, ev, i + 1) == Ok(Read(cs, j))
  {
    var tail := WriteNodes(c, cs.nodes) + [End(Plain("courseStructure"))];
    var objectives := WriteObjectives(cs.objectives);
    First(Start(Plain("courseStructure"), [Given("xmlns", COURSE_STRUCTURE_NS)]),
          WriteCourse(cs.course) + (objectives + tail), ev, i, j);
    var k := Split(WriteCourse(cs.course), objectives + tail, ev, i + 1, j);
    var l := Split(objectives, tail, ev, k, j);
    PartsRead(c, ev, i + 1, k, l, j, cs);
  }

  /** Whatever stands in front of the root element. */
  ghost predicate IsProlog(ev: seq<Event>, n: nat) {
    n <= |ev| && forall k :: 0 <= k < n ==>
      !ev[k].Eof? && !ev[k].Broken? && !(ev[k].Start? && ev[k].name.local == "courseStructure")
  }

  lemma {:induction false} PrologIsSkipped(c: Codec, ev: seq<Event>, pos: nat, n: nat)
    requires IsProlog(ev, n) && pos <= n
    ensures ParseManifest(c, ev, pos) == ParseManifest(c, ev, n)
    decreases n - pos
  {
    if pos < n {
      PrologIsSkipped(c, ev, pos + 1, n);
    }
  }

  // ----- what parses at all ---------------------------------------------------------

  lemma {:induction false} ScoresAppend(nodes: seq<Node>, node: Node)
    ensures ScoresOf(nodes + [node]) == ScoresOf(nodes) + ScoresOfNode(node)
  {
    if nodes == [] {
      assert [] + [node] == [node];
      assert ScoresOf([]) == [];
    } else {
      assert (nodes + [node])[1..] == nodes[1..] + [node];
      ScoresAppend(nodes[1..], node);
    }
  }

  lemma {:induction false} ParsedNodeInRange(c: Codec, ev: seq<Event>, pos: nat, e: Event)
    requires pos <= |ev| && (e.Start? || e.Empty?)
    requires ParseNode(c, ev, pos, e).Ok?
    ensures AllInRange(ScoresOfNode(ParseNode(c, ev, pos, e).value.value))
    decreases |ev| - pos, 2
  {
    if e.name.local == "block" && !e.Empty? {
      var id := RequiredId(e.attrs, "block").value;
      ParsedBlockInRange(c, ev, pos, Block(id, [], [], [], []));
    }
  }

  lemma {:induction false} ParsedBlockInRange(c: Codec, ev: seq<Event>, pos: nat, so: Block)
    requires pos <= |ev| && BlockBody(c, ev, pos, so).Ok? && AllInRange(ScoresOf(so.children))
    ensures AllInRange(ScoresOf(BlockBody(c, ev, pos, so).value.value.children))
    decreases |ev| - pos, 0
  {
    var e := EventAt(ev, pos);
    if OpensNode(e) {
      var child := ParseNode(c, ev, pos + 1, e).value;
      ParsedNodeInRange(c, ev, pos + 1, e);
      ScoresAppend(so.children, child.value);
      ParsedBlockInRange(c, ev, child.pos, so.(children := so.children + [child.value]));
    } else if e.Start? {
      if e.name.local == "title" {
        var t := ParseLangStrings(ev, pos + 1, "title", []).value;
        ParsedBlockInRange(c, ev, t.pos, so.(title := t.value));
      } else if e.name.local == "description" {
        var t := ParseLangStrings(ev, pos + 1, "description", []).value;
        ParsedBlockInRange(c, ev, t.pos, so.(description := t.value));
      } else if e.name.local == "objectives" {
        var t := ParseObjectiveRefs(ev, pos + 1, []).value;
        ParsedBlockInRange(c, ev, t.pos, so.(objectiveIds := t.value));
      } else {
        ParsedBlockInRange(c, ev, SkipToEnd(ev, pos + 1, e.name.local, 1).value.pos, so);
      }
    } else if !(e.End? && e.name.local == "block") {
      ParsedBlockInRange(c, ev, pos + 1, so);
    }
  }

  lemma {:induction false} ParsedPartsInRange(c: Codec, ev: seq<Event>, pos: nat, so: Parts)
    requires pos <= |ev| && StructureBody(c, ev, pos, so).Ok? && AllInRange(ScoresOf(so.nodes))
    ensures AllInRange(ScoresOf(StructureBody(c, ev, pos, so).value.value.nodes))
    decreases |ev| - pos
  {
    var e := EventAt(ev, pos);
    if OpensNode(e) {
      var node := ParseNode(c, ev, pos + 1, e).value;
      ParsedNodeInRange(c, ev, pos + 1, e);
      ScoresAppend(so.nodes, node.value);
      ParsedPartsInRange(c, ev, node.pos, so.(nodes := so.nodes + [node.value]));
    } else if Opens(e, "course") {
      var t := ParseCourse(ev, pos + 1, e.attrs, e.Empty?).value;
      ParsedPartsInRange(c, ev, t.pos, so.(course := Some(t.value)));
    } else if e.Start? {
      if e.name.local == "objectives" {
        var t := ParseObjectives(ev, pos + 1, []).value;
        ParsedPartsInRange(c, ev, t.pos, so.(objectives := t.value));
      } else {
        ParsedPartsInRange(c, ev, SkipToEnd(ev, pos + 1, e.name.local, 1).value.pos, so);
      }
    } else if !(e.End? && e.name.local == "courseStructure") {
      ParsedPartsInRange(c, ev, pos + 1, so);
    }
  }

  /** Whatever document it came from, a parsed tree's scores are in range. */
  lemma {:induction false} ParsedScoresAreInRange(c: Codec, ev: seq<Event>, pos: nat)
    requires pos <= |ev| && ParseManifest(c, ev, pos).Ok?
    ensures AllInRange(ScoresOf(ParseManifest(c, ev, pos).value.value.nodes))
    decreases |ev| - pos
  {
    var e := EventAt(ev, pos);
    if e.Start? && e.name.local == "courseStructure" {
      assert ScoresOf([]) == [];
      ParsedPartsInRange(c, ev, pos + 1, Parts(None, [], []));
    } else {
      ParsedScoresAreInRange(c, ev, pos + 1);
    }
  }

  // ----- the round trip -----------------------------------------------------------------

  /** Parsing what was written, behind any prolog and however its texts were cut up,
      gives back the tree and stops right after it, exactly when its scores are in
      0..1. */
  lemma ManifestRoundTrips(c: Codec, cs: CourseStructure, ev: seq<Event>, i: nat, j: nat)
    requires ReadBack(c, ScoresOf(cs.nodes))
    requires IsProlog(ev, i) && DeliveredAt(WriteStructure(c, cs), ev, i, j)
    ensures ParseManifest(c, ev, 0) == Ok(Read(cs, j)) <==> AllInRange(ScoresOf(cs.nodes))
  {
    if AllInRange(ScoresOf(cs.nodes)) {
      PrologIsSkipped(c, ev, 0, i);
      StructureReads(c, ev, i, j, cs);
    }
    if ParseManifest(c, ev, 0).Ok? {
      ParsedScoresAreInRange(c, ev, 0);
    }
  }

  /** So writing out a parsed manifest and parsing it again changes nothing. */
  lemma ReparsingChangesNothing(c: Codec, document: seq<Event>, ev: seq<Event>, i: nat, j: nat)
    requires ParseManifest(c, document, 0).Ok?
    requires ReadBack(c, ScoresOf(ParseManifest(c, document, 0).value.value.nodes))
    requires IsProlog(ev, i) && DeliveredAt(WriteStructure(c, ParseManifest(c, document, 0).value.value), ev, i, j)
    ensures ParseManifest(c, ev, 0) == Ok(Read(ParseManifest(c, document, 0).value.value, j))
  {
    ParsedScoresAreInRange(c, document, 0);
    ManifestRoundTrips(c, ParseManifest(c, document, 0).value.value, ev, i, j);
  }
}
