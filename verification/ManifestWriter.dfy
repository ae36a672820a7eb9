/** The writer: it appends events, and what it has appended is what writing the
    tree is specified to emit. */
module ManifestWriter {
  import opened Wrappers
  import opened Cmi5Terms
  import Spec = Manifest
  import opened Manifest

  /** Appending a chunk and then the rest is appending both. */
  lemma Appended(before: seq<Event>, chunk: seq<Event>, rest: seq<Event>)
    ensures before + (chunk + rest) == before + chunk + rest
  {
  }

  lemma AppendedFive(at: seq<Event>, a: seq<Event>, b: seq<Event>, c: seq<Event>, d: seq<Event>, e: seq<Event>)
    ensures at + a + b + c + d + e == at + (a + (b + (c + (d + e))))
  {
  }

  lemma AppendedSix(at: seq<Event>, a: seq<Event>, b: seq<Event>, c: seq<Event>, d: seq<Event>, e: seq<Event>,
                    f: seq<Event>)
    ensures at + a + b + c + d + e + f == at + (a + (b + (c + (d + (e + f)))))
  {
  }

  class Writer {
    const codec: Codec
    var events: seq<Event>

    constructor (codec: Codec)
      ensures this.codec == codec && events == []
    {
      this.codec, events := codec, [];
    }

    method WriteEvent(e: Event)
      modifies this`events
      ensures events == old(events) + [e]
    {
      events := events + [e];
    }

    method WriteEachLangString(strings: seq<LangString>)
      modifies this`events
      ensures events == old(events) + Spec.WriteEachLangString(strings)
    {
      for i := 0 to |strings|
        invariant old(events) + Spec.WriteEachLangString(strings) == events + Spec.WriteEachLangString(strings[i..])
      {
        var s, rest := strings[i], strings[i + 1..];
        assert strings[i..][0] == s && strings[i..][1..] == rest;
        ghost var before := events;
        WriteEvent(Start(Plain("langstring"), [Given("lang", s.lang)]));
        WriteEvent(Text(s.value));
        WriteEvent(End(Plain("langstring")));
        assert before + Spec.WriteEachLangString(strings[i..]) == events + Spec.WriteEachLangString(rest);
      }
    }

    method WriteLangStrings(wrapper: string, strings: seq<LangString>)
      modifies this`events
      ensures events == old(events) + Spec.WriteLangStrings(wrapper, strings)
    {
      if strings == [] {
        return;
      }
      WriteEvent(Start(Plain(wrapper), []));
      WriteEachLangString(strings);
      WriteEvent(End(Plain(wrapper)));
    }

    method WriteEachRef(ids: seq<string>)
      modifies this`events
      ensures events == old(events) + Spec.WriteEachRef(ids)
    {
      for i := 0 to |ids|
        invariant old(events) + Spec.WriteEachRef(ids) == events + Spec.WriteEachRef(ids[i..])
      {
        var e := Empty(Plain("objective"), [Given("idref", ids[i])]);
        assert ids[i..][0] == ids[i] && ids[i..][1..] == ids[i + 1..];
        Appended(events, [e], Spec.WriteEachRef(ids[i + 1..]));
        WriteEvent(e);
      }
    }

    method WriteObjectiveRefs(ids: seq<string>)
      modifies this`events
      ensures events == old(events) + Spec.WriteObjectiveRefs(ids)
    {
      if ids == [] {
        return;
      }
      WriteEvent(Start(Plain("objectives"), []));
      WriteEachRef(ids);
      WriteEvent(End(Plain("objectives")));
    }

    method WriteTextElement(tag: string, text: string)
      modifies this`events
      ensures events == old(events) + Spec.WriteTextElement(tag, Some(text))
    {
      WriteEvent(Start(Plain(tag), []));
      WriteEvent(Text(text));
      WriteEvent(End(Plain(tag)));
    }

    method WriteCourse(course: Course)
      modifies this`events
      ensures events == old(events) + Spec.WriteCourse(course)
    {
      WriteEvent(Start(Plain("course"), [Given("id", course.id)]));
      WriteLangStrings("title", course.title);
      WriteLangStrings("description", course.description);
      WriteEvent(End(Plain("course")));
    }

    method WriteObjective(o: Objective)
      modifies this`events
      ensures events == old(events) + Spec.WriteObjective(o)
    {
      WriteEvent(Start(Plain("objective"), [Given("id", o.id)]));
      WriteLangStrings("title", o.title);
      WriteLangStrings("description", o.description);
      WriteEvent(End(Plain("objective")));
    }

    method WriteEachObjective(objectives: seq<Objective>)
      modifies this`events
      ensures events == old(events) + Spec.WriteEachObjective(objectives)
    {
      for i := 0 to |objectives|
        invariant old(events) + Spec.WriteEachObjective(objectives) == events + Spec.WriteEachObjective(objectives[i..])
      {
        var o := objectives[i];
        assert objectives[i..][0] == o && objectives[i..][1..] == objectives[i + 1..];
        Appended(events, Spec.WriteObjective(o), Spec.WriteEachObjective(objectives[i + 1..]));
        WriteObjective(o);
      }
    }

    method WriteObjectives(objectives: seq<Objective>)
      requires objectives != []
      modifies this`events
      ensures events == old(events) + Spec.WriteObjectives(objectives)
    {
      WriteEvent(Start(Plain("objectives"), []));
      WriteEachObjective(objectives);
      WriteEvent(End(Plain("objectives")));
    }

    method WriteAuStart(au: AssignableUnit)
      modifies this`events
      ensures events == old(events) + [Start(Plain("au"), AuAttrs(codec, au))]
    {
      var attrs := [Given("id", au.id), Given("moveOn", MoveOnText(au.moveOn))];
      if au.masteryScore.Some? {
        attrs := attrs + [Given("masteryScore", codec.show(au.masteryScore.value))];
      }
      if au.launchMethod.Some? {
        attrs := attrs + [Given("launchMethod", LaunchMethodText(au.launchMethod.value))];
      }
      assert attrs == AuAttrs(codec, au);
      WriteEvent(Start(Plain("au"), attrs));
    }

    method WriteAuTexts(au: AssignableUnit)
      modifies this`events
      ensures events == old(events) + (Spec.WriteTextElement("url", Some(au.url))
                                       + (Spec.WriteTextElement("launchParameters", au.launchParameters)
                                          + (Spec.WriteTextElement("entitlementKey", au.entitlementKey)
                                             + [End(Plain("au"))])))
    {
      WriteTextElement("url", au.url);
      if au.launchParameters.Some? {
        WriteTextElement("launchParameters", au.launchParameters.value);
      }
      if au.entitlementKey.Some? {
        WriteTextElement("entitlementKey", au.entitlementKey.value);
      }
      WriteEvent(End(Plain("au")));
    }

    method WriteAu(au: AssignableUnit)
      modifies this`events
      ensures events == old(events) + Spec.WriteAu(codec, au)
    {
      WriteAuStart(au);
      WriteLangStrings("title", au.title);
      WriteLangStrings("description", au.description);
      WriteObjectiveRefs(au.objectiveIds);
      WriteAuTexts(au);
      AppendedFive(old(events), [Start(Plain("au"), AuAttrs(codec, au))], Spec.WriteLangStrings("title", au.title),
                   Spec.WriteLangStrings("description", au.description), Spec.WriteObjectiveRefs(au.objectiveIds),
                   Spec.WriteTextElement("url", Some(au.url))
                   + (Spec.WriteTextElement("launchParameters", au.launchParameters)
                      + (Spec.WriteTextElement("entitlementKey", au.entitlementKey) + [End(Plain("au"))])));
    }

    method WriteNodes(nodes: seq<Node>)
      modifies this`events
      ensures events == old(events) + Spec.WriteNodes(codec, nodes)
      decreases nodes, 1
    {
      for i := 0 to |nodes|
        invariant old(events) + Spec.WriteNodes(codec, nodes) == events + Spec.WriteNodes(codec, nodes[i..])
      {
        assert nodes[i..][0] == nodes[i] && nodes[i..][1..] == nodes[i + 1..];
        Appended(events, Spec.WriteNode(codec, nodes[i]), Spec.WriteNodes(codec, nodes[i + 1..]));
        WriteNode(nodes[i]);
      }
    }

    method WriteBlock(b: Block)
      modifies this`events
      ensures events == old(events) + Spec.WriteBlock(codec, b)
      decreases b
    {
      WriteEvent(Start(Plain("block"), [Given("id", b.id)]));
      WriteLangStrings("title", b.title);
      WriteLangStrings("description", b.description);
      WriteObjectiveRefs(b.objectiveIds);
      WriteNodes(b.children);
      WriteEvent(End(Plain("block")));
      AppendedSix(old(events), [Start(Plain("block"), [Given("id", b.id)])], Spec.WriteLangStrings("title", b.title),
                  Spec.WriteLangStrings("description", b.description), Spec.WriteObjectiveRefs(b.objectiveIds),
                  Spec.WriteNodes(codec, b.children), [End(Plain("block"))]);
    }

    method WriteNode(node: Node)
      modifies this`events
      ensures events == old(events) + Spec.WriteNode(codec, node)
      decreases node
    {
      match node
      case BlockNode(b) => WriteBlock(b);
      case AuNode(au) => WriteAu(au);
    }

    method WriteStructure(cs: CourseStructure)
      modifies this`events
      ensures events == old(events) + Spec.WriteStructure(codec, cs)
    {
      WriteEvent(Start(Plain("courseStructure"), [Given("xmlns", COURSE_STRUCTURE_NS)]));
      WriteCourse(cs.course);
      ghost var before := events;
      if cs.objectives != [] {
        WriteObjectives(cs.objectives);
      }
      assert events == before + Spec.WriteObjectives(cs.objectives);
      WriteNodes(cs.nodes);
      WriteEvent(End(Plain("courseStructure")));
      AppendedFive(old(events), [Start(Plain("courseStructure"), [Given("xmlns", COURSE_STRUCTURE_NS)])],
                   Spec.WriteCourse(cs.course), Spec.WriteObjectives(cs.objectives), Spec.WriteNodes(codec, cs.nodes),
                   [End(Plain("courseStructure"))]);
    }
  }
}
