/** The reader's and the writer's loops, each proved against what parsing and
    writing are specified to yield. */
module ManifestReader {
  import opened Wrappers
  import opened Cmi5Terms
  import opened Manifest
  import opened ManifestDefaults
  import Spec = ManifestParser

  /** A call that started where the specification starts ended where it ends. */
  ghost predicate Agrees<T>(r: Result<T, Error>, pos: nat, spec: Result<Spec.Read<T>, Error>) {
    match spec
    case Ok(read) => r == Ok(read.value) && pos == read.pos
    case Err(e) => r == Err(e)
  }

  method Attribute(attrs: seq<Attr>, want: string) returns (r: Result<Option<string>, Error>)
    ensures r == Spec.Attribute(attrs, want)
  {
    for i := 0 to |attrs|
      invariant Spec.Attribute(attrs[i..], want) == Spec.Attribute(attrs, want)
    {
      var a := attrs[i];
      assert attrs[i..][1..] == attrs[i + 1..];
      if a.Malformed? {
        return Err(Xml(a.reason));
      }
      if a.name.local == want {
        if a.Unreadable? {
          return Err(Xml(a.reason));
        }
        return Ok(Some(a.value));
      }
    }
    return Ok(None);
  }

  class Reader {
    const codec: Codec
    const events: seq<Event>
    var pos: nat

    ghost predicate Valid()
      reads this
    {
      pos <= |events|
    }

    constructor (codec: Codec, events: seq<Event>)
      ensures Valid() && this.codec == codec && this.events == events && pos == 0
    {
      this.codec, this.events, pos := codec, events, 0;
    }

    method ReadEvent() returns (e: Event)
      requires Valid()
      modifies this`pos
      ensures Valid() && e == Spec.EventAt(events, old(pos))
      ensures pos == if old(pos) < |events| then old(pos) + 1 else old(pos)
    {
      if pos == |events| {
        return Eof;
      }
      e := events[pos];
      pos := pos + 1;
    }

    method SkipToEnd(name: string) returns (r: Result<(), Error>)
      requires Valid()
      modifies this`pos
      ensures Valid() && old(pos) <= pos && Agrees(r, pos, Spec.SkipToEnd(events, old(pos), name, 1))
    {
      var depth := 1;
      while true
        invariant old(pos) <= pos <= |events| && depth >= 1
        invariant Spec.SkipToEnd(events, pos, name, depth) == Spec.SkipToEnd(events, old(pos), name, 1)
        decreases |events| - pos
      {
        var e := ReadEvent();
        match e
        case Start(n, _) =>
          if n.local == name {
            depth := depth + 1;
          }
        case End(n) =>
          if n.local == name {
            depth := depth - 1;
            if depth == 0 {
              return Ok(());
            }
          }
        case Eof => return Err(UnexpectedEof("element"));
        case Broken(reason) => return Err(Xml(reason));
        case _ =>
      }
    }

    method ParseText(endTag: string) returns (r: Result<string, Error>)
      requires Valid()
      modifies this`pos
      ensures Valid() && old(pos) <= pos && Agrees(r, pos, Spec.ParseText(events, old(pos), endTag, ""))
    {
      var text := "";
      while true
        invariant old(pos) <= pos <= |events|
        invariant Spec.ParseText(events, pos, endTag, text) == Spec.ParseText(events, old(pos), endTag, "")
        decreases |events| - pos
      {
        var e := ReadEvent();
        match e
        case Text(s) => text := text + s;
        case CData(s) => text := text + s;
        case GeneralRef(reference) =>
          match reference {
            case CharRef(c) => text := text + [c];
            case BadCharRef(reason) => return Err(Xml(reason));
            case Entity(name) =>
              var replacement := PredefinedEntity(name);
              if replacement.None? {
                return Err(Xml("unknown entity &" + name + ";"));
              }
              text := text + replacement.value;
          }
        case End(n) =>
          if n.local == endTag {
            return Ok(text);
          }
        case Eof => return Err(UnexpectedEof("text"));
        case Broken(reason) => return Err(Xml(reason));
        case _ =>
      }
    }

    method ParseObjectiveRefs() returns (r: Result<seq<string>, Error>)
      requires Valid()
      modifies this`pos
      ensures Valid() && old(pos) <= pos && Agrees(r, pos, Spec.ParseObjectiveRefs(events, old(pos), []))
    {
      var refs: seq<string> := [];
      while true
        invariant old(pos) <= pos <= |events|
        invariant Spec.ParseObjectiveRefs(events, pos, refs) == Spec.ParseObjectiveRefs(events, old(pos), [])
        decreases |events| - pos
      {
        var e := ReadEvent();
        if Spec.Opens(e, "objective") {
          var idref :- Attribute(e.attrs, "idref");
          var id :- Attribute(e.attrs, "id");
          var one := if idref.Some? then idref else id;
          if one.Some? {
            refs := refs + [one.value];
          } else {
            assert refs + [] == refs;
          }
        } else if e.End? && e.name.local == "objectives" {
          return Ok(refs);
        } else if e.Eof? {
          return Err(UnexpectedEof("objectives"));
        } else if e.Broken? {
          return Err(Xml(e.reason));
        }
      }
    }

    method ParseLangStrings(endTag: string) returns (r: Result<seq<LangString>, Error>)
      requires Valid()
      modifies this`pos
      ensures Valid() && old(pos) <= pos && Agrees(r, pos, Spec.ParseLangStrings(events, old(pos), endTag, []))
    {
      var strings: seq<LangString> := [];
      while true
        invariant old(pos) <= pos <= |events|
        invariant Spec.ParseLangStrings(events, pos, endTag, strings)
            == Spec.ParseLangStrings(events, old(pos), endTag, [])
        decreases |events| - pos
      {
        var e := ReadEvent();
        if e.Start? && e.name.local == "langstring" {
          var lang :- Attribute(e.attrs, "lang");
          var value :- ParseText("langstring");
          strings := strings + [LangString(lang.GetOr(""), value)];
        } else if e.Empty? && e.name.local == "langstring" {
          var lang :- Attribute(e.attrs, "lang");
          strings := strings + [LangString(lang.GetOr(""), "")];
        } else if e.End? && e.name.local == endTag {
          return Ok(strings);
        } else if e.Eof? {
          return Err(UnexpectedEof("langstring"));
        } else if e.Broken? {
          return Err(Xml(e.reason));
        }
      }
    }

    method RequiredId(attrs: seq<Attr>, element: string) returns (r: Result<string, Error>)
      ensures r == Spec.RequiredId(attrs, element)
    {
      var id :- Attribute(attrs, "id");
      return if id.Some? then Ok(id.value) else Err(MissingAttribute(element, "id"));
    }

    method ParseCourse(attrs: seq<Attr>, empty: bool) returns (r: Result<Course, Error>)
      requires Valid()
      modifies this`pos
      ensures Valid() && old(pos) <= pos && Agrees(r, pos, Spec.ParseCourse(events, old(pos), attrs, empty))
    {
      var id :- RequiredId(attrs, "course");
      var title: seq<LangString>, description: seq<LangString> := [], [];
      if empty {
        return Ok(Course(id, title, description));
      }
      while true
        invariant old(pos) <= pos <= |events|
        invariant Spec.CourseBody(events, pos, Course(id, title, description))
               == Spec.CourseBody(events, old(pos), Course(id, [], []))
        decreases |events| - pos
      {
        var e := ReadEvent();
        match e
        case Start(n, _) =>
          if n.local == "title" {
            title :- ParseLangStrings("title");
          } else if n.local == "description" {
            description :- ParseLangStrings("description");
          } else {
            var _ :- SkipToEnd(n.local);
          }
        case End(n) =>
          if n.local == "course" {
            return Ok(Course(id, title, description));
          }
        case Eof => return Err(UnexpectedEof("course"));
        case Broken(reason) => return Err(Xml(reason));
        case _ =>
      }
    }

    /** The inner loop over one objective's children. */
    method ParseObjective(id: string) returns (r: Result<Objective, Error>)
      requires Valid()
      modifies this`pos
      ensures Valid() && old(pos) <= pos && Agrees(r, pos, Spec.ObjectiveBody(events, old(pos), Objective(id, [], [])))
    {
      var title: seq<LangString>, description: seq<LangString> := [], [];
      while true
        invariant old(pos) <= pos <= |events|
        invariant Spec.ObjectiveBody(events, pos, Objective(id, title, description))
               == Spec.ObjectiveBody(events, old(pos), Objective(id, [], []))
        decreases |events| - pos
      {
        var e := ReadEvent();
        match e
        case Start(n, _) =>
          if n.local == "title" {
            title :- ParseLangStrings("title");
          } else if n.local == "description" {
            description :- ParseLangStrings("description");
          } else {
            var _ :- SkipToEnd(n.local);
          }
        case End(n) =>
          if n.local == "objective" {
            return Ok(Objective(id, title, description));
          }
        case Eof => return Err(UnexpectedEof("objective"));
        case Broken(reason) => return Err(Xml(reason));
        case _ =>
      }
    }

    method ParseObjectives() returns (r: Result<seq<Objective>, Error>)
      requires Valid()
      modifies this`pos
      ensures Valid() && old(pos) <= pos && Agrees(r, pos, Spec.ParseObjectives(events, old(pos), []))
    {
      var objectives: seq<Objective> := [];
      while true
        invariant old(pos) <= pos <= |events|
        invariant Spec.ParseObjectives(events, pos, objectives) == Spec.ParseObjectives(events, old(pos), [])
        decreases |events| - pos
      {
        var e := ReadEvent();
        match e
        case Start(n, attrs) =>
          if n.local == "objective" {
            var id :- RequiredId(attrs, "objective");
            var o :- ParseObjective(id);
            objectives := objectives + [o];
          }
        case End(n) =>
          if n.local == "objectives" {
            return Ok(objectives);
          }
        case Eof => return Err(UnexpectedEof("objectives"));
        case Broken(reason) => return Err(Xml(reason));
        case _ =>
      }
    }

    method AuHead(attrs: seq<Attr>) returns (r: Result<Spec.AuHead, Error>)
      ensures r == Spec.ReadAuHead(codec, attrs)
    {
      var id :- RequiredId(attrs, "au");
      var moveOn := NotApplicable;
      var word :- Attribute(attrs, "moveOn");
      if word.Some? {
        var m := ParseMoveOn(word.value);
        if m.None? {
          return Err(BadMoveOn(word.value));
        }
        moveOn := m.value;
      }
      var masteryScore: Option<real> := None;
      var text :- Attribute(attrs, "masteryScore");
      if text.Some? {
        masteryScore := codec.parse(text.value);
        if masteryScore.None? || !Spec.InRange(masteryScore.value) {
          return Err(BadMasteryScore(text.value));
        }
      }
      var launchMethod: Option<LaunchMethod> := None;
      var opening :- Attribute(attrs, "launchMethod");
      if opening.Some? {
        launchMethod := ParseLaunchMethod(opening.value);
        if launchMethod.None? {
          return Err(BadLaunchMethod(opening.value));
        }
      }
      return Ok(Spec.AuHead(id, moveOn, masteryScore, launchMethod));
    }

    method ParseAu(attrs: seq<Attr>, empty: bool) returns (r: Result<AssignableUnit, Error>)
      requires Valid()
      modifies this`pos
      ensures Valid() && old(pos) <= pos && Agrees(r, pos, Spec.ParseAu(codec, events, old(pos), attrs, empty))
      ensures r.Ok? && AllGiven(attrs) ==>
                && Says(attrs, "id", r.value.id)
                && (SaysNothing(attrs, "moveOn") ==> r.value.moveOn == NotApplicable)
                && (SaysNothing(attrs, "masteryScore") ==> r.value.masteryScore == None)
                && (SaysNothing(attrs, "launchMethod") ==> r.value.launchMethod == None)
    {
      if AllGiven(attrs) && Spec.ParseAu(codec, events, pos, attrs, empty).Ok? {
        AbsentAttributes(codec, events, pos, attrs, empty);
      }
      var head :- AuHead(attrs);
      if empty {
        return Err(MissingElement("url"));
      }
      var parts :- AuChildren();
      return Spec.Assemble(head, parts);
    }

    method AuChildren() returns (r: Result<Spec.AuParts, Error>)
      requires Valid()
      modifies this`pos
      ensures Valid() && old(pos) <= pos && Agrees(r, pos, Spec.AuBody(events, old(pos), Spec.NO_PARTS))
    {
      var title: seq<LangString>, description: seq<LangString>, objectiveIds: seq<string> := [], [], [];
      var url: Option<string>, launchParameters: Option<string>, entitlementKey: Option<string> := None, None, None;
      while true
        invariant old(pos) <= pos <= |events|
        invariant Spec.AuBody(events, pos, Spec.AuParts(title, description, objectiveIds, url, launchParameters,
                                                        entitlementKey))
               == Spec.AuBody(events, old(pos), Spec.NO_PARTS)
        decreases |events| - pos
      {
        var e := ReadEvent();
        match e
        case Start(n, _) =>
          if n.local == "title" {
            title :- ParseLangStrings("title");
          } else if n.local == "description" {
            description :- ParseLangStrings("description");
          } else if n.local == "objectives" {
            objectiveIds :- ParseObjectiveRefs();
          } else if n.local == "url" {
            var t :- ParseText("url");
            url := Some(t);
          } else if n.local == "launchParameters" {
            var t :- ParseText("launchParameters");
            launchParameters := Some(t);
          } else if n.local == "entitlementKey" {
            var t :- ParseText("entitlementKey");
            entitlementKey := Some(t);
          } else {
            var _ :- SkipToEnd(n.local);
          }
        case Empty(n, _) =>
          if n.local == "url" {
            url := Some("");
          } else if n.local == "launchParameters" {
            launchParameters := Some("");
          } else if n.local == "entitlementKey" {
            entitlementKey := Some("");
          }
        case End(n) =>
          if n.local == "au" {
            return Ok(Spec.AuParts(title, description, objectiveIds, url, launchParameters, entitlementKey));
          }
        case Eof => return Err(UnexpectedEof("au"));
        case Broken(reason) => return Err(Xml(reason));
        case _ =>
      }
    }

    method ParseNode(e: Event) returns (r: Result<Node, Error>)
      requires Valid() && Spec.OpensNode(e)
      modifies this`pos
      ensures Valid() && old(pos) <= pos && Agrees(r, pos, Spec.ParseNode(codec, events, old(pos), e))
      decreases |events| - pos, 2
    {
      if e.name.local == "block" {
        var b :- ParseBlock(e.attrs, e.Empty?);
        return Ok(BlockNode(b));
      } else {
        var au :- ParseAu(e.attrs, e.Empty?);
        return Ok(AuNode(au));
      }
    }

    method ParseBlock(attrs: seq<Attr>, empty: bool) returns (r: Result<Block, Error>)
      requires Valid()
      modifies this`pos
      ensures Valid() && old(pos) <= pos && Agrees(r, pos, Spec.ParseBlock(codec, events, old(pos), attrs, empty))
      decreases |events| - pos, 1
    {
      var id :- RequiredId(attrs, "block");
      var title: seq<LangString>, description: seq<LangString> := [], [];
      var objectiveIds: seq<string>, children: seq<Node> := [], [];
      if empty {
        return Ok(Block(id, title, description, objectiveIds, children));
      }
      while true
        invariant old(pos) <= pos <= |events|
        invariant Spec.BlockBody(codec, events, pos, Block(id, title, description, objectiveIds, children))
               == Spec.BlockBody(codec, events, old(pos), Block(id, [], [], [], []))
        decreases |events| - pos
      {
        var e := ReadEvent();
        if Spec.OpensNode(e) {
          var child :- ParseNode(e);
          children := children + [child];
        } else if e.Start? {
          if e.name.local == "title" {
            title :- ParseLangStrings("title");
          } else if e.name.local == "description" {
            description :- ParseLangStrings("description");
          } else if e.name.local == "objectives" {
            objectiveIds :- ParseObjectiveRefs();
          } else {
            var _ :- SkipToEnd(e.name.local);
          }
        } else if e.End? && e.name.local == "block" {
          return Ok(Block(id, title, description, objectiveIds, children));
        } else if e.Eof? {
          return Err(UnexpectedEof("block"));
        } else if e.Broken? {
          return Err(Xml(e.reason));
        }
      }
    }

    method ParseStructure() returns (r: Result<CourseStructure, Error>)
      requires Valid()
      modifies this`pos
      ensures Valid() && Agrees(r, pos, Spec.ParseStructure(codec, events, old(pos)))
    {
      var course: Option<Course> := None;
      var objectives: seq<Objective>, nodes: seq<Node> := [], [];
      while true
        invariant old(pos) <= pos <= |events|
        invariant Spec.StructureBody(codec, events, pos, Spec.Parts(course, objectives, nodes))
               == Spec.StructureBody(codec, events, old(pos), Spec.Parts(None, [], []))
        decreases |events| - pos
      {
        var e := ReadEvent();
        if Spec.OpensNode(e) {
          var node :- ParseNode(e);
          nodes := nodes + [node];
        } else if Spec.Opens(e, "course") {
          var found :- ParseCourse(e.attrs, e.Empty?);
          course := Some(found);
        } else if e.Start? {
          if e.name.local == "objectives" {
            objectives :- ParseObjectives();
          } else {
            var _ :- SkipToEnd(e.name.local);
          }
        } else if e.End? && e.name.local == "courseStructure" {
          break;
        } else if e.Eof? {
          return Err(UnexpectedEof("courseStructure"));
        } else if e.Broken? {
          return Err(Xml(e.reason));
        }
      }
      return if course.Some? then Ok(CourseStructure(course.value, objectives, nodes))
          else Err(MissingElement("course"));
    }

    method ParseManifest() returns (r: Result<CourseStructure, Error>)
      requires Valid()
      modifies this`pos
      ensures Valid() && Agrees(r, pos, Spec.ParseManifest(codec, events, old(pos)))
    {
      while true
        invariant old(pos) <= pos <= |events|
        invariant Spec.ParseManifest(codec, events, pos) == Spec.ParseManifest(codec, events, old(pos))
        decreases |events| - pos
      {
        var e := ReadEvent();
        if e.Start? && e.name.local == "courseStructure" {
          r := ParseStructure();
          return;
        } else if e.Eof? {
          return Err(MissingElement("courseStructure"));
        } else if e.Broken? {
          return Err(Xml(e.reason));
        }
      }
    }
  }
}
