/** The cmi5 course structure, the event stream it is written as, and what the
    writer emits. */
module Manifest {
  import opened Wrappers
  import opened Cmi5Terms

  const COURSE_STRUCTURE_NS := "https://w3id.org/xapi/profiles/cmi5/v1/CourseStructure.xsd"

  datatype LangString = LangString(lang: string, value: string)

  datatype Course = Course(id: string, title: seq<LangString>, description: seq<LangString>)

  datatype Objective = Objective(id: string, title: seq<LangString>, description: seq<LangString>)

  datatype Node = BlockNode(block: Block) | AuNode(au: AssignableUnit)

  datatype Block = Block(
    id: string,
    title: seq<LangString>,
    description: seq<LangString>,
    objectiveIds: seq<string>,
    children: seq<Node>)

  datatype AssignableUnit = AssignableUnit(
    id: string,
    moveOn: MoveOn,
    masteryScore: Option<real>,
    launchMethod: Option<LaunchMethod>,
    title: seq<LangString>,
    description: seq<LangString>,
    objectiveIds: seq<string>,
    url: string,
    launchParameters: Option<string>,
    entitlementKey: Option<string>)

  datatype CourseStructure = CourseStructure(course: Course, objectives: seq<Objective>, nodes: seq<Node>)

  datatype Error =
    | Xml(reason: string)
    | MissingElement(element: string)
    | MissingAttribute(element: string, attribute: string)
    | BadMoveOn(word: string)
    | BadLaunchMethod(word: string)
    | BadMasteryScore(text: string)
    | UnexpectedEof(element: string)

  // ----- events -----------------------------------------------------------

  datatype Name = Name(prefix: Option<string>, local: string)

  datatype Attr =
    | Attr(name: Name, value: string)
    | Unreadable(name: Name, reason: string)
    | Malformed(reason: string)

  datatype Reference = CharRef(c: char) | BadCharRef(reason: string) | Entity(name: string)

  /** One read of the XML reader; `Broken` is a read that fails. */
  datatype Event =
    | Start(name: Name, attrs: seq<Attr>)
    | Empty(name: Name, attrs: seq<Attr>)
    | End(name: Name)
    | Text(text: string)
    | CData(text: string)
    | GeneralRef(reference: Reference)
    | Other
    | Broken(reason: string)
    | Eof

  /** How a score is written and read. */
  datatype Codec = Codec(show: real -> string, parse: string -> Option<real>)

  function Plain(local: string): Name {
    Name(None, local)
  }

  function Given(local: string, value: string): Attr {
    Attr(Plain(local), value)
  }

  function PredefinedEntity(name: string): Option<string> {
    if name == "lt" then Some("<")
    else if name == "gt" then Some(">")
    else if name == "amp" then Some("&")
    else if name == "apos" then Some("'")
    else if name == "quot" then Some("\"")
    else None
  }

  // ----- what the writer emits ----------------------------------------------

  function WriteStructure(c: Codec, cs: CourseStructure): seq<Event> {
    [Start(Plain("courseStructure"), [Given("xmlns", COURSE_STRUCTURE_NS)])]
    + (WriteCourse(cs.course)
       + (WriteObjectives(cs.objectives)
          + (WriteNodes(c, cs.nodes) + [End(Plain("courseStructure"))])))
  }

  function WriteCourse(course: Course): seq<Event> {
    [Start(Plain("course"), [Given("id", course.id)])]
    + (WriteLangStrings("title", course.title)
       + (WriteLangStrings("description", course.description) + [End(Plain("course"))]))
  }

  function WriteObjectives(objectives: seq<Objective>): seq<Event> {
    if objectives == [] then []
    else [Start(Plain("objectives"), [])] + (WriteEachObjective(objectives) + [End(Plain("objectives"))])
  }

  function WriteEachObjective(objectives: seq<Objective>): seq<Event> {
    if objectives == [] then [] else WriteObjective(objectives[0]) + WriteEachObjective(objectives[1..])
  }

  function WriteObjective(o: Objective): seq<Event> {
    [Start(Plain("objective"), [Given("id", o.id)])]
    + (WriteLangStrings("title", o.title)
       + (WriteLangStrings("description", o.description) + [End(Plain("objective"))]))
  }

  function WriteNodes(c: Codec, nodes: seq<Node>): seq<Event> {
    if nodes == [] then [] else WriteNode(c, nodes[0]) + WriteNodes(c, nodes[1..])
  }

  function WriteNode(c: Codec, node: Node): seq<Event> {
    match node
    case BlockNode(b) => WriteBlock(c, b)
    case AuNode(au) => WriteAu(c, au)
  }

  function WriteBlock(c: Codec, b: Block): seq<Event> {
    [Start(Plain("block"), [Given("id", b.id)])]
    + (WriteLangStrings("title", b.title)
       + (WriteLangStrings("description", b.description)
          + (WriteObjectiveRefs(b.objectiveIds)
             + (WriteNodes(c, b.children) + [End(Plain("block"))]))))
  }

  function AuAttrs(c: Codec, au: AssignableUnit): seq<Attr> {
    [Given("id", au.id), Given("moveOn", MoveOnText(au.moveOn))]
    + (if au.masteryScore.Some? then [Given("masteryScore", c.show(au.masteryScore.value))] else [])
    + (if au.launchMethod.Some? then [Given("launchMethod", LaunchMethodText(au.launchMethod.value))] else [])
  }

  function WriteAu(c: Codec, au: AssignableUnit): seq<Event> {
    [Start(Plain("au"), AuAttrs(c, au))]
    + (WriteLangStrings("title", au.title)
       + (WriteLangStrings("description", au.description)
          + (WriteObjectiveRefs(au.objectiveIds)
             + (WriteTextElement("url", Some(au.url))
                + (WriteTextElement("launchParameters", au.launchParameters)
                   + (WriteTextElement("entitlementKey", au.entitlementKey) + [End(Plain("au"))]))))))
  }

  function WriteLangStrings(wrapper: string, strings: seq<LangString>): seq<Event> {
    if strings == [] then []
    else [Start(Plain(wrapper), [])] + (WriteEachLangString(strings) + [End(Plain(wrapper))])
  }

  function WriteEachLangString(strings: seq<LangString>): seq<Event> {
    if strings == [] then []
    else
      [Start(Plain("langstring"), [Given("lang", strings[0].lang)])]
      + ([Text(strings[0].value)] + ([End(Plain("langstring"))] + WriteEachLangString(strings[1..])))
  }

  function WriteObjectiveRefs(ids: seq<string>): seq<Event> {
    if ids == [] then []
    else [Start(Plain("objectives"), [])] + (WriteEachRef(ids) + [End(Plain("objectives"))])
  }

  function WriteEachRef(ids: seq<string>): seq<Event> {
    if ids == [] then [] else [Empty(Plain("objective"), [Given("idref", ids[0])])] + WriteEachRef(ids[1..])
  }

  /** An absent text writes no element at all. */
  function WriteTextElement(tag: string, text: Option<string>): seq<Event> {
    if text.None? then [] else [Start(Plain(tag), [])] + ([Text(text.value)] + [End(Plain(tag))])
  }
}
