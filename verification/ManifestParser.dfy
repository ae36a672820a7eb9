/** What parsing an event stream from a given cursor yields: the specification the
    reader's loops are proved against. */
module ManifestParser {
  import opened Wrappers
  import opened Cmi5Terms
  import opened Manifest

  /** A value read, and where the cursor is left. */
  datatype Read<+T> = Read(value: T, pos: nat)

  function EventAt(ev: seq<Event>, pos: nat): Event {
    if pos < |ev| then ev[pos] else Eof
  }

  /** The first attribute with this local name; a bad one before it is an error. */
  function Attribute(attrs: seq<Attr>, want: string): Result<Option<string>, Error> {
    if |attrs| == 0 then Ok(None)
    else
      match attrs[0]
      case Malformed(reason) => Err(Xml(reason))
      case Unreadable(name, reason) => if name.local == want then Err(Xml(reason)) else Attribute(attrs[1..], want)
      case Attr(name, value) => if name.local == want then Ok(Some(value)) else Attribute(attrs[1..], want)
  }

  function RequiredId(attrs: seq<Attr>, element: string): Result<string, Error> {
    var id :- Attribute(attrs, "id");
    if id.Some? then Ok(id.value) else Err(MissingAttribute(element, "id"))
  }

  function SkipToEnd(ev: seq<Event>, pos: nat, name: string, depth: nat): (r: Result<Read<()>, Error>)
    requires pos <= |ev| && depth >= 1
    ensures r.Ok? ==> pos <= r.value.pos <= |ev|
    decreases |ev| - pos
  {
    match EventAt(ev, pos)
    case Start(n, _) => SkipToEnd(ev, pos + 1, name, if n.local == name then depth + 1 else depth)
    case End(n) =>
      if n.local != name then SkipToEnd(ev, pos + 1, name, depth)
      else if depth == 1 then Ok(Read((), pos + 1))
      else SkipToEnd(ev, pos + 1, name, depth - 1)
    case Eof => Err(UnexpectedEof("element"))
    case Broken(reason) => Err(Xml(reason))
    case _ => SkipToEnd(ev, pos + 1, name, depth)
  }

  predicate IsPiece(e: Event) {
    e.Text? || e.CData? || e.GeneralRef?
  }

  /** What a piece of text stands for. */
  function Decode(e: Event): Result<string, Error>
    requires IsPiece(e)
  {
    match e
    case Text(s) => Ok(s)
    case CData(s) => Ok(s)
    case GeneralRef(CharRef(c)) => Ok([c])
    case GeneralRef(BadCharRef(reason)) => Err(Xml(reason))
    case GeneralRef(Entity(name)) =>
      match PredefinedEntity(name)
      case Some(s) => Ok(s)
      case None => Err(Xml("unknown entity &" + name + ";"))
  }

  function ParseText(ev: seq<Event>, pos: nat, endTag: string, text: string): (r: Result<Read<string>, Error>)
    requires pos <= |ev|
    ensures r.Ok? ==> pos <= r.value.pos <= |ev|
    decreases |ev| - pos
  {
    var e := EventAt(ev, pos);
    if IsPiece(e) then
      var piece :- Decode(e);
      ParseText(ev, pos + 1, endTag, text + piece)
    else if e.Eof? then Err(UnexpectedEof("text"))
    else if e.Broken? then Err(Xml(e.reason))
    else if e.End? && e.name.local == endTag then Ok(Read(text, pos + 1))
    else ParseText(ev, pos + 1, endTag, text)
  }

  predicate Opens(e: Event, tag: string) {
    (e.Start? || e.Empty?) && e.name.local == tag
  }

  /** What one `objective` refers to: its `idref`, or failing that its `id`. */
  function ReadRef(attrs: seq<Attr>): Result<seq<string>, Error> {
    var idref :- Attribute(attrs, "idref");
    var id :- Attribute(attrs, "id");
    Ok(if idref.Some? then [idref.value] else if id.Some? then [id.value] else [])
  }

  function ParseObjectiveRefs(ev: seq<Event>, pos: nat, refs: seq<string>): (r: Result<Read<seq<string>>, Error>)
    requires pos <= |ev|
    ensures r.Ok? ==> pos <= r.value.pos <= |ev|
    decreases |ev| - pos
  {
    var e := EventAt(ev, pos);
    if Opens(e, "objective") then
      var ref :- ReadRef(e.attrs);
      ParseObjectiveRefs(ev, pos + 1, refs + ref)
    else
      match e
      case Eof => Err(UnexpectedEof("objectives"))
      case Broken(reason) => Err(Xml(reason))
      case End(n) => if n.local == "objectives" then Ok(Read(refs, pos + 1)) else ParseObjectiveRefs(ev, pos + 1, refs)
      case _ => ParseObjectiveRefs(ev, pos + 1, refs)
  }

  /** The text of a `langstring` whose opening event was just read. */
  function ReadLangString(ev: seq<Event>, pos: nat, e: Event): (r: Result<Read<LangString>, Error>)
    requires pos <= |ev| && (e.Start? || e.Empty?)
    ensures r.Ok? ==> pos <= r.value.pos <= |ev|
  {
    var lang :- Attribute(e.attrs, "lang");
    if e.Empty? then Ok(Read(LangString(lang.GetOr(""), ""), pos))
    else
      var value :- ParseText(ev, pos, "langstring", "");
      Ok(Read(LangString(lang.GetOr(""), value.value), value.pos))
  }

  function ParseLangStrings(ev: seq<Event>, pos: nat, endTag: string, strings: seq<LangString>)
    : (r: Result<Read<seq<LangString>>, Error>)
    requires pos <= |ev|
    ensures r.Ok? ==> pos <= r.value.pos <= |ev|
    decreases |ev| - pos
  {
    var e := EventAt(ev, pos);
    if Opens(e, "langstring") then
      var s :- ReadLangString(ev, pos + 1, e);
      ParseLangStrings(ev, s.pos, endTag, strings + [s.value])
    else
      match e
      case Eof => Err(UnexpectedEof("langstring"))
      case Broken(reason) => Err(Xml(reason))
      case End(n) => if n.local == endTag then Ok(Read(strings, pos + 1))
          else ParseLangStrings(ev, pos + 1, endTag, strings)
      case _ => ParseLangStrings(ev, pos + 1, endTag, strings)
  }

  // ----- the course and its objectives ----------------------------------------

  function ParseCourse(ev: seq<Event>, pos: nat, attrs: seq<Attr>, empty: bool): (r: Result<Read<Course>, Error>)
    requires pos <= |ev|
    ensures r.Ok? ==> pos <= r.value.pos <= |ev|
  {
    var id :- RequiredId(attrs, "course");
    if empty then Ok(Read(Course(id, [], []), pos)) else CourseBody(ev, pos, Course(id, [], []))
  }

  function CourseBody(ev: seq<Event>, pos: nat, so: Course): (r: Result<Read<Course>, Error>)
    requires pos <= |ev|
    ensures r.Ok? ==> pos <= r.value.pos <= |ev|
    decreases |ev| - pos
  {
    match EventAt(ev, pos)
    case Start(n, _) =>
      if n.local == "title" then
        var t :- ParseLangStrings(ev, pos + 1, "title", []);
        CourseBody(ev, t.pos, so.(title := t.value))
      else if n.local == "description" then
        var t :- ParseLangStrings(ev, pos + 1, "description", []);
        CourseBody(ev, t.pos, so.(description := t.value))
      else
        var t :- SkipToEnd(ev, pos + 1, n.local, 1);
        CourseBody(ev, t.pos, so)
    case End(n) => if n.local == "course" then Ok(Read(so, pos + 1)) else CourseBody(ev, pos + 1, so)
    case Eof => Err(UnexpectedEof("course"))
    case Broken(reason) => Err(Xml(reason))
    case _ => CourseBody(ev, pos + 1, so)
  }

  function ObjectiveBody(ev: seq<Event>, pos: nat, so: Objective): (r: Result<Read<Objective>, Error>)
    requires pos <= |ev|
    ensures r.Ok? ==> pos <= r.value.pos <= |ev|
    decreases |ev| - pos
  {
    match EventAt(ev, pos)
    case Start(n, _) =>
      if n.local == "title" then
        var t :- ParseLangStrings(ev, pos + 1, "title", []);
        ObjectiveBody(ev, t.pos, so.(title := t.value))
      else if n.local == "description" then
        var t :- ParseLangStrings(ev, pos + 1, "description", []);
        ObjectiveBody(ev, t.pos, so.(description := t.value))
      else
        var t :- SkipToEnd(ev, pos + 1, n.local, 1);
        ObjectiveBody(ev, t.pos, so)
    case End(n) => if n.local == "objective" then Ok(Read(so, pos + 1)) else ObjectiveBody(ev, pos + 1, so)
    case Eof => Err(UnexpectedEof("objective"))
    case Broken(reason) => Err(Xml(reason))
    case _ => ObjectiveBody(ev, pos + 1, so)
  }

  function ParseObjectives(ev: seq<Event>, pos: nat, objectives: seq<Objective>)
    : (r: Result<Read<seq<Objective>>, Error>)
    requires pos <= |ev|
    ensures r.Ok? ==> pos <= r.value.pos <= |ev|
    decreases |ev| - pos
  {
    match EventAt(ev, pos)
    case Start(n, attrs) =>
      if n.local == "objective" then
        var id :- RequiredId(attrs, "objective");
        var o :- ObjectiveBody(ev, pos + 1, Objective(id, [], []));
        ParseObjectives(ev, o.pos, objectives + [o.value])
      else ParseObjectives(ev, pos + 1, objectives)
    case End(n) =>
      if n.local == "objectives" then Ok(Read(objectives, pos + 1)) else ParseObjectives(ev, pos + 1, objectives)
    case Eof => Err(UnexpectedEof("objectives"))
    case Broken(reason) => Err(Xml(reason))
    case _ => ParseObjectives(ev, pos + 1, objectives)
  }

  // ----- assignable units -------------------------------------------------------

  predicate InRange(score: real) {
    0.0 <= score <= 1.0
  }

  function ReadMoveOn(attrs: seq<Attr>): Result<MoveOn, Error> {
    var word :- Attribute(attrs, "moveOn");
    match word
    case None => Ok(NotApplicable)
    case Some(w) => (match ParseMoveOn(w) case Some(m) => Ok(m) case None => Err(BadMoveOn(w)))
  }

  function ReadMasteryScore(c: Codec, attrs: seq<Attr>): Result<Option<real>, Error> {
    var text :- Attribute(attrs, "masteryScore");
    match text
    case None => Ok(None)
    case Some(t) =>
      (match c.parse(t)
       case Some(v) => if InRange(v) then Ok(Some(v)) else Err(BadMasteryScore(t))
       case None => Err(BadMasteryScore(t)))
  }

  function ReadLaunchMethod(attrs: seq<Attr>): Result<Option<LaunchMethod>, Error> {
    var word :- Attribute(attrs, "launchMethod");
    match word
    case None => Ok(None)
    case Some(w) => (match ParseLaunchMethod(w) case Some(m) => Ok(Some(m)) case None => Err(BadLaunchMethod(w)))
  }

  /** What a start tag says of an AU, before its children are read. */
  datatype AuHead = AuHead(id: string, moveOn: MoveOn, masteryScore: Option<real>, launchMethod: Option<LaunchMethod>)

  function ReadAuHead(c: Codec, attrs: seq<Attr>): Result<AuHead, Error> {
    var id :- RequiredId(attrs, "au");
    var moveOn :- ReadMoveOn(attrs);
    var masteryScore :- ReadMasteryScore(c, attrs);
    var launchMethod :- ReadLaunchMethod(attrs);
    Ok(AuHead(id, moveOn, masteryScore, launchMethod))
  }

  /** The children of an AU read so far. */
  datatype AuParts = AuParts(
    title: seq<LangString>,
    description: seq<LangString>,
    objectiveIds: seq<string>,
    url: Option<string>,
    launchParameters: Option<string>,
    entitlementKey: Option<string>)

  const NO_PARTS := AuParts([], [], [], None, None, None)

  function Assemble(h: AuHead, p: AuParts): Result<AssignableUnit, Error> {
    if p.url.None? then Err(MissingElement("url"))
    else
      Ok(AssignableUnit(h.id, h.moveOn, h.masteryScore, h.launchMethod, p.title, p.description, p.objectiveIds,
                        p.url.value, p.launchParameters, p.entitlementKey))
  }

  function ParseAu(c: Codec, ev: seq<Event>, pos: nat, attrs: seq<Attr>, empty: bool)
    : (r: Result<Read<AssignableUnit>, Error>)
    requires pos <= |ev|
    ensures r.Ok? ==> pos <= r.value.pos <= |ev|
  {
    var head :- ReadAuHead(c, attrs);
    if empty then Err(MissingElement("url"))
    else
      var parts :- AuBody(ev, pos, NO_PARTS);
      var au :- Assemble(head, parts.value);
      Ok(Read(au, parts.pos))
  }

  predicate IsAuText(tag: string) {
    tag == "url" || tag == "launchParameters" || tag == "entitlementKey"
  }

  function SetAuText(so: AuParts, tag: string, text: string): AuParts
    requires IsAuText(tag)
  {
    if tag == "url" then so.(url := Some(text))
    else if tag == "launchParameters" then so.(launchParameters := Some(text))
    else so.(entitlementKey := Some(text))
  }

  function AuBody(ev: seq<Event>, pos: nat, so: AuParts): (r: Result<Read<AuParts>, Error>)
    requires pos <= |ev|
    ensures r.Ok? ==> pos <= r.value.pos <= |ev|
    decreases |ev| - pos
  {
    match EventAt(ev, pos)
    case Start(n, _) =>
      if n.local == "title" then
        var t :- ParseLangStrings(ev, pos + 1, "title", []);
        AuBody(ev, t.pos, so.(title := t.value))
      else if n.local == "description" then
        var t :- ParseLangStrings(ev, pos + 1, "description", []);
        AuBody(ev, t.pos, so.(description := t.value))
      else if n.local == "objectives" then
        var t :- ParseObjectiveRefs(ev, pos + 1, []);
        AuBody(ev, t.pos, so.(objectiveIds := t.value))
      else if IsAuText(n.local) then
        var t :- ParseText(ev, pos + 1, n.local, "");
        AuBody(ev, t.pos, SetAuText(so, n.local, t.value))
      else
        var t :- SkipToEnd(ev, pos + 1, n.local, 1);
        AuBody(ev, t.pos, so)
    case Empty(n, _) => AuBody(ev, pos + 1, if IsAuText(n.local) then SetAuText(so, n.local, "") else so)
    case End(n) => if n.local == "au" then Ok(Read(so, pos + 1)) else AuBody(ev, pos + 1, so)
    case Eof => Err(UnexpectedEof("au"))
    case Broken(reason) => Err(Xml(reason))
    case _ => AuBody(ev, pos + 1, so)
  }

  // ----- blocks -------------------------------------------------------------------

  function ParseBlock(c: Codec, ev: seq<Event>, pos: nat, attrs: seq<Attr>, empty: bool)
    : (r: Result<Read<Block>, Error>)
    requires pos <= |ev|
    ensures r.Ok? ==> pos <= r.value.pos <= |ev|
    decreases |ev| - pos, 1
  {
    var id :- RequiredId(attrs, "block");
    var none := Block(id, [], [], [], []);
    if empty then Ok(Read(none, pos)) else BlockBody(c, ev, pos, none)
  }

  /** The block or AU a start tag opens. */
  function ParseNode(c: Codec, ev: seq<Event>, pos: nat, e: Event): (r: Result<Read<Node>, Error>)
    requires pos <= |ev| && (e.Start? || e.Empty?)
    ensures r.Ok? ==> pos <= r.value.pos <= |ev|
    decreases |ev| - pos, 2
  {
    if e.name.local == "block" then
      var b :- ParseBlock(c, ev, pos, e.attrs, e.Empty?);
      Ok(Read(BlockNode(b.value), b.pos))
    else
      var au :- ParseAu(c, ev, pos, e.attrs, e.Empty?);
      Ok(Read(AuNode(au.value), au.pos))
  }

  predicate OpensNode(e: Event) {
    Opens(e, "block") || Opens(e, "au")
  }

  function BlockBody(c: Codec, ev: seq<Event>, pos: nat, so: Block): (r: Result<Read<Block>, Error>)
    requires pos <= |ev|
    ensures r.Ok? ==> pos <= r.value.pos <= |ev|
    decreases |ev| - pos, 0
  {
    var e := EventAt(ev, pos);
    if OpensNode(e) then
      var child :- ParseNode(c, ev, pos + 1, e);
      BlockBody(c, ev, child.pos, so.(children := so.children + [child.value]))
    else
      match e
      case Start(n, _) =>
        if n.local == "title" then
          var t :- ParseLangStrings(ev, pos + 1, "title", []);
          BlockBody(c, ev, t.pos, so.(title := t.value))
        else if n.local == "description" then
          var t :- ParseLangStrings(ev, pos + 1, "description", []);
          BlockBody(c, ev, t.pos, so.(description := t.value))
        else if n.local == "objectives" then
          var t :- ParseObjectiveRefs(ev, pos + 1, []);
          BlockBody(c, ev, t.pos, so.(objectiveIds := t.value))
        else
          var t :- SkipToEnd(ev, pos + 1, n.local, 1);
          BlockBody(c, ev, t.pos, so)
      case End(n) => if n.local == "block" then Ok(Read(so, pos + 1)) else BlockBody(c, ev, pos + 1, so)
      case Eof => Err(UnexpectedEof("block"))
      case Broken(reason) => Err(Xml(reason))
      case _ => BlockBody(c, ev, pos + 1, so)
  }

  // ----- the whole structure ----------------------------------------------------------

  datatype Parts = Parts(course: Option<Course>, objectives: seq<Objective>, nodes: seq<Node>)

  function ParseStructure(c: Codec, ev: seq<Event>, pos: nat): Result<Read<CourseStructure>, Error>
    requires pos <= |ev|
  {
    var parts :- StructureBody(c, ev, pos, Parts(None, [], []));
    match parts.value.course
    case None => Err(MissingElement("course"))
    case Some(course) => Ok(Read(CourseStructure(course, parts.value.objectives, parts.value.nodes), parts.pos))
  }

  function StructureBody(c: Codec, ev: seq<Event>, pos: nat, so: Parts): (r: Result<Read<Parts>, Error>)
    requires pos <= |ev|
    ensures r.Ok? ==> pos <= r.value.pos <= |ev|
    decreases |ev| - pos
  {
    var e := EventAt(ev, pos);
    if OpensNode(e) then
      var node :- ParseNode(c, ev, pos + 1, e);
      StructureBody(c, ev, node.pos, so.(nodes := so.nodes + [node.value]))
    else if Opens(e, "course") then
      var course :- ParseCourse(ev, pos + 1, e.attrs, e.Empty?);
      StructureBody(c, ev, course.pos, so.(course := Some(course.value)))
    else
      match e
      case Start(n, _) =>
        if n.local == "objectives" then
          var t :- ParseObjectives(ev, pos + 1, []);
          StructureBody(c, ev, t.pos, so.(objectives := t.value))
        else
          var t :- SkipToEnd(ev, pos + 1, n.local, 1);
          StructureBody(c, ev, t.pos, so)
      case End(n) => if n.local == "courseStructure" then Ok(Read(so, pos + 1)) else StructureBody(c, ev, pos + 1, so)
      case Eof => Err(UnexpectedEof("courseStructure"))
      case Broken(reason) => Err(Xml(reason))
      case _ => StructureBody(c, ev, pos + 1, so)
  }

  function ParseManifest(c: Codec, ev: seq<Event>, pos: nat): Result<Read<CourseStructure>, Error>
    requires pos <= |ev|
    decreases |ev| - pos
  {
    match EventAt(ev, pos)
    case Start(n, _) =>
      if n.local == "courseStructure" then ParseStructure(c, ev, pos + 1) else ParseManifest(c, ev, pos + 1)
    case Eof => Err(MissingElement("courseStructure"))
    case Broken(reason) => Err(Xml(reason))
    case _ => ParseManifest(c, ev, pos + 1)
  }
}
