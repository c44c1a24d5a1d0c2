/**
 * What the listener of RobotsTxtParser.java builds, stated without the
 * listener's state: for a walk of a tree of entries, the document holds one
 * group per entry that has a start-group line, in document order, and each
 * field lands in the list its kind selects, in order of appearance.
 */
module ParsingProperties {
  import opened Wrappers
  import opened Text
  import opened Matching
  import opened Parsing

  // ---------------------------------------------------------------------
  // Trees and their walks

  /** A top-level node: an entry and its lines, or a line outside any entry. */
  datatype Node = Entry(lines: seq<Line>) | Loose(line: Line)

  predicate HasStartGroupLine(lines: seq<Line>) {
    exists i :: 0 <= i < |lines| && lines[i].StartGroupLine?
  }

  function Enters(lines: seq<Line>): (r: seq<Event>)
    ensures |r| == |lines|
    ensures forall i :: 0 <= i < |lines| ==> r[i] == Enter(lines[i])
  {
    seq(|lines|, i requires 0 <= i < |lines| => Enter(lines[i]))
  }

  /** The events a depth-first walk delivers for one node. */
  function NodeEvents(n: Node): seq<Event> {
    match n
    case Entry(lines) => [EnterEntry(HasStartGroupLine(lines))] + Enters(lines) + [ExitEntry]
    case Loose(line) => [Enter(line)]
  }

  function Walk(nodes: seq<Node>): seq<Event> {
    if nodes == [] then [] else Walk(nodes[..|nodes| - 1]) + NodeEvents(nodes[|nodes| - 1])
  }

  // ---------------------------------------------------------------------
  // Which lines throw

  predicate SomeLineFaults(lines: seq<Line>, open: bool) {
    exists i :: 0 <= i < |lines| && LineFaults(lines[i], open)
  }

  /** Inside an entry a group is open exactly when the entry has a start-group line. */
  predicate NodeFaults(n: Node) {
    match n
    case Entry(lines) => SomeLineFaults(lines, HasStartGroupLine(lines))
    case Loose(line) => LineFaults(line, false)
  }

  predicate AnyFault(nodes: seq<Node>) {
    exists k :: 0 <= k < |nodes| && NodeFaults(nodes[k])
  }

  // ---------------------------------------------------------------------
  // What each line contributes

  function AgentsOf(line: Line): seq<string> {
    if line.StartGroupLine? && line.agentValue.Some? then [Lower(line.agentValue.value)] else []
  }

  function DirectivesOf(line: Line): seq<Directive> {
    if line.PathMemberField? && line.pathType.Some? && line.pathValue.Some?
    then PathDirectives(line.pathType.value, line.pathValue.value)
    else []
  }

  function GroupFieldsOf(line: Line): seq<Field> {
    if line.OtherMemberField? && line.memberType.Some? && line.textValue.Some?
       && !IsDelayName(Lower(line.memberType.value))
    then [Field(Lower(line.memberType.value), line.textValue.value)]
    else []
  }

  /** The value a numeric delay line of the given name sets. */
  function DelayOf(line: Line, name: string): Option<real> {
    if line.OtherMemberField? && line.memberType.Some? && line.textValue.Some?
       && Lower(line.memberType.value) == name && line.number.Some?
    then Some(line.number.value)
    else None
  }

  function SitemapsOf(line: Line): seq<string> {
    if line.UrlNonGroupField? && line.urlType.Some? && line.urlValue.Some?
       && Lower(line.urlType.value) == SitemapName
    then [line.urlValue.value]
    else []
  }

  function DocFieldsOf(line: Line): seq<Field> {
    match line
    case UrlNonGroupField(t, u) =>
      if t.Some? && u.Some? && Lower(t.value) != SitemapName then [Field(Lower(t.value), u.value)] else []
    case OtherNonGroupField(t, v) =>
      if t.Some? && v.Some? && !(t.value == "" && v.value == "") then [Field(Lower(t.value), v.value)] else []
    case _ => []
  }

  function FlatMap<T>(f: Line -> seq<T>, lines: seq<Line>): seq<T> {
    if lines == [] then [] else FlatMap(f, lines[..|lines| - 1]) + f(lines[|lines| - 1])
  }

  /** The last delay of that name the lines set, if any. */
  function LastDelay(lines: seq<Line>, name: string): Option<real> {
    if lines == [] then None
    else
      var d := DelayOf(lines[|lines| - 1], name);
      if d.Some? then d else LastDelay(lines[..|lines| - 1], name)
  }

  function OrElse(o: Option<real>, otherwise: real): real {
    if o.Some? then o.value else otherwise
  }

  /** The group an entry with a start-group line contributes. */
  function EntryGroup(lines: seq<Line>): Group {
    Group(FlatMap(AgentsOf, lines), FlatMap(DirectivesOf, lines), FlatMap(GroupFieldsOf, lines),
          OrElse(LastDelay(lines, CrawlDelayName), Unset), OrElse(LastDelay(lines, CacheDelayName), Unset))
  }

  function NodeLines(n: Node): seq<Line> {
    match n
    case Entry(lines) => lines
    case Loose(line) => [line]
  }

  /** An entry with a start-group line: the listener opens a group for it. */
  predicate OpensGroup(n: Node) {
    n.Entry? && HasStartGroupLine(n.lines)
  }

  function NodeGroups(n: Node): seq<Group> {
    if OpensGroup(n) then [EntryGroup(n.lines)] else []
  }

  function AllLines(nodes: seq<Node>): seq<Line> {
    if nodes == [] then [] else AllLines(nodes[..|nodes| - 1]) + NodeLines(nodes[|nodes| - 1])
  }

  function Groups(nodes: seq<Node>): seq<Group> {
    if nodes == [] then [] else Groups(nodes[..|nodes| - 1]) + NodeGroups(nodes[|nodes| - 1])
  }

  /** The document the walk of `nodes` leaves, started from `doc` with no group open. */
  function Expected(doc: Document, nodes: seq<Node>): Document {
    doc.(groups := doc.groups + Groups(nodes),
         otherFields := doc.otherFields + FlatMap(DocFieldsOf, AllLines(nodes)),
         sitemaps := doc.sitemaps + FlatMap(SitemapsOf, AllLines(nodes)))
  }

  // ---------------------------------------------------------------------
  // Effects on a state, for the induction

  function DocAfter(doc: Document, lines: seq<Line>): Document {
    doc.(otherFields := doc.otherFields + FlatMap(DocFieldsOf, lines),
         sitemaps := doc.sitemaps + FlatMap(SitemapsOf, lines))
  }

  function Extend(g: Group, lines: seq<Line>): Group {
    g.(userAgents := g.userAgents + FlatMap(AgentsOf, lines),
       directives := g.directives + FlatMap(DirectivesOf, lines),
       otherFields := g.otherFields + FlatMap(GroupFieldsOf, lines),
       crawlDelay := OrElse(LastDelay(lines, CrawlDelayName), g.crawlDelay),
       cacheDelay := OrElse(LastDelay(lines, CacheDelayName), g.cacheDelay))
  }

  function ExtendOpen(current: Option<Group>, lines: seq<Line>): Option<Group> {
    if current.None? then None else Some(Extend(current.value, lines))
  }

  lemma FlatMapSingle<T>(f: Line -> seq<T>, line: Line)
    ensures FlatMap(f, [line]) == f(line)
  {
    assert [line][..0] == [];
  }

  lemma {:induction false} FlatMapAppend<T>(f: Line -> seq<T>, a: seq<Line>, b: seq<Line>)
    ensures FlatMap(f, a + b) == FlatMap(f, a) + FlatMap(f, b)
    decreases |b|
  {
    if b == [] {
      assert a + b == a;
    } else {
      var init := b[..|b| - 1];
      assert (a + b)[..|a + b| - 1] == a + init;
      assert (a + b)[|a + b| - 1] == b[|b| - 1];
      FlatMapAppend(f, a, init);
    }
  }

  /** Running a walk in two pieces is running it whole. */
  lemma {:induction false} RunAppend(st: ListenerState, a: seq<Event>, b: seq<Event>)
    ensures Run(st, a + b) == if Run(st, a).None? then None else Run(Run(st, a).value, b)
    decreases |b|
  {
    if b == [] {
      assert a + b == a;
    } else {
      var init := b[..|b| - 1];
      assert (a + b)[..|a + b| - 1] == a + init;
      assert (a + b)[|a + b| - 1] == b[|b| - 1];
      RunAppend(st, a, init);
    }
  }

  lemma RunSingle(st: ListenerState, e: Event)
    ensures Run(st, [e]) == Step(st, e)
  {
    assert [e][..0] == [];
  }

  /** One line: it throws exactly when it faults, and otherwise contributes its projections. */
  lemma StepLineEffect(st: ListenerState, line: Line)
    ensures StepLine(st, line) ==
              if LineFaults(line, st.current.Some?) then None
              else Some(ListenerState(DocAfter(st.doc, [line]), ExtendOpen(st.current, [line])))
  {
    FlatMapSingle(AgentsOf, line);
    FlatMapSingle(DirectivesOf, line);
    FlatMapSingle(GroupFieldsOf, line);
    FlatMapSingle(DocFieldsOf, line);
    FlatMapSingle(SitemapsOf, line);
    assert [line][..0] == [];
    assert st.doc.otherFields + [] == st.doc.otherFields && st.doc.sitemaps + [] == st.doc.sitemaps;
    LastDelaySingle(line, CrawlDelayName);
    LastDelaySingle(line, CacheDelayName);
    if st.current.Some? {
      var g := st.current.value;
      assert g.userAgents + [] == g.userAgents && g.directives + [] == g.directives;
      assert g.otherFields + [] == g.otherFields;
      match line
      case OtherMemberField(n, v, number) =>
      case _ =>
    }
  }

  lemma LastDelaySingle(line: Line, name: string)
    ensures LastDelay([line], name) == DelayOf(line, name)
  {
    assert [line][..0] == [];
  }

  lemma DocAfterAppend(doc: Document, lines: seq<Line>, line: Line)
    ensures DocAfter(DocAfter(doc, lines), [line]) == DocAfter(doc, lines + [line])
  {
    PrefixedFlatMapAppend(doc.otherFields, DocFieldsOf, lines, line);
    PrefixedFlatMapAppend(doc.sitemaps, SitemapsOf, lines, line);
  }

  lemma ExtendAppend(g: Group, lines: seq<Line>, line: Line)
    ensures Extend(Extend(g, lines), [line]) == Extend(g, lines + [line])
  {
    var stepwise := Extend(Extend(g, lines), [line]);
    var whole := Extend(g, lines + [line]);
    PrefixedFlatMapAppend(g.userAgents, AgentsOf, lines, line);
    PrefixedFlatMapAppend(g.directives, DirectivesOf, lines, line);
    PrefixedFlatMapAppend(g.otherFields, GroupFieldsOf, lines, line);
    LastDelayAppend(lines, line, CrawlDelayName);
    LastDelayAppend(lines, line, CacheDelayName);
    assert stepwise.crawlDelay == whole.crawlDelay;
    assert stepwise.cacheDelay == whole.cacheDelay;
  }

  lemma PrefixedFlatMapAppend<T>(prefix: seq<T>, f: Line -> seq<T>, lines: seq<Line>, line: Line)
    ensures (prefix + FlatMap(f, lines)) + FlatMap(f, [line]) == prefix + FlatMap(f, lines + [line])
  {
    FlatMapAppend(f, lines, [line]);
  }

  lemma LastDelayAppend(lines: seq<Line>, line: Line, name: string)
    ensures LastDelay(lines + [line], name) == OrElseOption(DelayOf(line, name), LastDelay(lines, name))
    ensures LastDelay([line], name) == DelayOf(line, name)
  {
    assert (lines + [line])[..|lines|] == lines;
    assert [line][..0] == [];
  }

  function OrElseOption(o: Option<real>, otherwise: Option<real>): Option<real> {
    if o.Some? then o else otherwise
  }

  lemma SomeLineFaultsStep(lines: seq<Line>, open: bool)
    requires lines != []
    ensures SomeLineFaults(lines, open) <==>
              SomeLineFaults(lines[..|lines| - 1], open) || LineFaults(lines[|lines| - 1], open)
  {
    var init := lines[..|lines| - 1];
    assert forall i :: 0 <= i < |init| ==> init[i] == lines[i];
  }

  lemma AnyFaultStep(nodes: seq<Node>)
    requires nodes != []
    ensures AnyFault(nodes) <==> AnyFault(nodes[..|nodes| - 1]) || NodeFaults(nodes[|nodes| - 1])
  {
    var init := nodes[..|nodes| - 1];
    assert forall k :: 0 <= k < |init| ==> init[k] == nodes[k];
  }

  /** The lines of one entry, delivered with a group open or not. */
  lemma {:induction false} LinesEffect(st: ListenerState, lines: seq<Line>)
    ensures Run(st, Enters(lines)) ==
              if SomeLineFaults(lines, st.current.Some?) then None
              else Some(ListenerState(DocAfter(st.doc, lines), ExtendOpen(st.current, lines)))
    decreases |lines|
  {
    if lines == [] {
      assert Enters(lines) == [];
      assert st.doc.otherFields + [] == st.doc.otherFields && st.doc.sitemaps + [] == st.doc.sitemaps;
      if st.current.Some? {
        var g := st.current.value;
        assert g.userAgents + [] == g.userAgents && g.directives + [] == g.directives;
        assert g.otherFields + [] == g.otherFields;
      }
    } else {
      var init, last := lines[..|lines| - 1], lines[|lines| - 1];
      assert lines == init + [last];
      assert Enters(lines) == Enters(init) + [Enter(last)];
      RunAppend(st, Enters(init), [Enter(last)]);
      LinesEffect(st, init);
      var open := st.current.Some?;
      SomeLineFaultsStep(lines, open);
      if !SomeLineFaults(init, open) {
        var s := ListenerState(DocAfter(st.doc, init), ExtendOpen(st.current, init));
        RunSingle(s, Enter(last));
        StepLineEffect(s, last);
        DocAfterAppend(st.doc, init, last);
        if st.current.Some? {
          ExtendAppend(st.current.value, init, last);
        }
      }
    }
  }

  /** An entry's group: the empty group extended by its lines. */
  lemma EntryGroupIsExtendedEmptyGroup(lines: seq<Line>)
    ensures Extend(EmptyGroup, lines) == EntryGroup(lines)
  {
  }

  /** The document after one node, as the projections give it. */
  function NodeAfter(doc: Document, n: Node): Document {
    DocAfter(doc, NodeLines(n)).(groups := doc.groups + NodeGroups(n))
  }

  /** One node, walked with no group open, leaves no group open. */
  lemma NodeEffect(doc: Document, n: Node)
    ensures Run(ListenerState(doc, None), NodeEvents(n)) ==
              if NodeFaults(n) then None else Some(ListenerState(NodeAfter(doc, n), None))
  {
    var st := ListenerState(doc, None);
    match n
    case Loose(line) =>
      RunSingle(st, Enter(line));
      StepLineEffect(st, line);
      assert doc.groups + [] == doc.groups;
    case Entry(lines) =>
      var h := HasStartGroupLine(lines);
      var enter := [EnterEntry(h)];
      assert NodeEvents(n) == (enter + Enters(lines)) + [ExitEntry];
      RunAppend(st, enter + Enters(lines), [ExitEntry]);
      RunAppend(st, enter, Enters(lines));
      RunSingle(st, EnterEntry(h));
      var st1 := ListenerState(doc, if h then Some(EmptyGroup) else None);
      LinesEffect(st1, lines);
      if !SomeLineFaults(lines, h) {
        var st2 := ListenerState(DocAfter(doc, lines), ExtendOpen(st1.current, lines));
        RunSingle(st2, ExitEntry);
        if h {
          EntryGroupIsExtendedEmptyGroup(lines);
        } else {
          assert doc.groups + [] == doc.groups;
        }
      }
  }

  lemma NodesAppend(nodes: seq<Node>, n: Node)
    ensures Groups(nodes + [n]) == Groups(nodes) + NodeGroups(n)
    ensures AllLines(nodes + [n]) == AllLines(nodes) + NodeLines(n)
  {
    var all := nodes + [n];
    assert all[..|all| - 1] == nodes && all[|all| - 1] == n;
  }

  lemma ExpectedAppendGroups(doc: Document, nodes: seq<Node>, n: Node)
    ensures Expected(doc, nodes + [n]).groups == NodeAfter(Expected(doc, nodes), n).groups
  {
    NodesAppend(nodes, n);
  }

  lemma ExpectedAppendFields(doc: Document, nodes: seq<Node>, n: Node)
    ensures Expected(doc, nodes + [n]).otherFields == NodeAfter(Expected(doc, nodes), n).otherFields
  {
    NodesAppend(nodes, n);
    FlatMapAppend(DocFieldsOf, AllLines(nodes), NodeLines(n));
  }

  lemma ExpectedAppendSitemaps(doc: Document, nodes: seq<Node>, n: Node)
    ensures Expected(doc, nodes + [n]).sitemaps == NodeAfter(Expected(doc, nodes), n).sitemaps
  {
    NodesAppend(nodes, n);
    FlatMapAppend(SitemapsOf, AllLines(nodes), NodeLines(n));
  }

  lemma ExpectedAppend(doc: Document, nodes: seq<Node>, n: Node)
    ensures Expected(doc, nodes + [n]) == NodeAfter(Expected(doc, nodes), n)
  {
    ExpectedAppendGroups(doc, nodes, n);
    ExpectedAppendFields(doc, nodes, n);
    ExpectedAppendSitemaps(doc, nodes, n);
  }

  /**
   * The walk of a tree throws exactly when one of its lines faults, and
   * otherwise adds one group per entry with a start-group line, in order,
   * each holding its entry's lower-cased agents, directives and fields in
   * order and the last numeric delay of each kind, while every non-group
   * field goes to the document's fields or sitemaps in order.
   */
  lemma {:induction false} WalkTheorem(doc: Document, nodes: seq<Node>)
    ensures Run(ListenerState(doc, None), Walk(nodes)) ==
              if AnyFault(nodes) then None else Some(ListenerState(Expected(doc, nodes), None))
    decreases |nodes|
  {
    if nodes == [] {
      assert doc.groups + [] == doc.groups && doc.otherFields + [] == doc.otherFields;
      assert doc.sitemaps + [] == doc.sitemaps;
    } else {
      var init, last := nodes[..|nodes| - 1], nodes[|nodes| - 1];
      assert nodes == init + [last];
      WalkTheorem(doc, init);
      RunAppend(ListenerState(doc, None), Walk(init), NodeEvents(last));
      AnyFaultStep(nodes);
      if !AnyFault(init) {
        NodeEffect(Expected(doc, init), last);
        ExpectedAppend(doc, init, last);
      }
    }
  }

  /** RobotsTxtParser.parse on a walked tree: the syntax errors, then the projections. */
  lemma ParseOfTree(input: ParseInput, sourceName: string, nodes: seq<Node>)
    requires input.walk == Walk(nodes)
    ensures ParseResult(input, sourceName) ==
              if AnyFault(nodes) then None else Some(Expected(InitialState(input, sourceName).doc, nodes))
  {
    WalkTheorem(InitialState(input, sourceName).doc, nodes);
  }

  /** The positions of the entries that open a group. */
  function Openings(nodes: seq<Node>): set<nat> {
    set k: nat | k < |nodes| && OpensGroup(nodes[k])
  }

  lemma OpeningsStep(nodes: seq<Node>)
    requires nodes != []
    ensures Openings(nodes) ==
              Openings(nodes[..|nodes| - 1]) + if OpensGroup(nodes[|nodes| - 1]) then {|nodes| - 1} else {}
    ensures |nodes| - 1 !in Openings(nodes[..|nodes| - 1])
  {
    var init := nodes[..|nodes| - 1];
    assert forall k :: 0 <= k < |init| ==> init[k] == nodes[k];
  }

  /** Each entry with a start-group line contributes exactly one group. */
  lemma {:induction false} GroupCount(nodes: seq<Node>)
    ensures |Groups(nodes)| == |Openings(nodes)|
    decreases |nodes|
  {
    if nodes != [] {
      var init := nodes[..|nodes| - 1];
      GroupCount(init);
      OpeningsStep(nodes);
      assert |Groups(nodes)| == |Groups(init)| + |NodeGroups(nodes[|nodes| - 1])|;
    }
  }

  // ---------------------------------------------------------------------
  // Single lines

  /** A delay whose value is not a number changes nothing and throws nothing, group or no group. */
  lemma NonNumericDelayIsIgnored(st: ListenerState, name: string, value: string)
    requires IsDelayName(Lower(name))
    ensures StepLine(st, OtherMemberField(Some(name), Some(value), None)) == Some(st)
  {
  }

  /** A member line with a value outside any group throws. */
  lemma MemberLineOutsideGroupThrows(st: ListenerState, path: string)
    requires st.current.None?
    ensures StepLine(st, PathMemberField(Some(PathType(true, false)), Some(path))).None?
    ensures StepLine(st, StartGroupLine(Some(path))).None?
  {
  }

  // ---------------------------------------------------------------------
  // The error text reads back

  /** Reads "col: msg" back into its parts. */
  function SplitColumnMessage(rest: string): Option<(int, string)> {
    match FirstIndexOf(rest, ':')
    case None => None
    case Some(j) =>
      var tail := rest[j + 1..];
      if IsIntText(rest[..j]) && |tail| > 0 && tail[0] == ' ' then Some((ParseInt(rest[..j]), tail[1..])) else None
  }

  /** Reads "line:col: msg" back into its parts. */
  function SplitErrorText(s: string): Option<SyntaxErrorReport> {
    match FirstIndexOf(s, ':')
    case None => None
    case Some(i) =>
      if !IsIntText(s[..i]) then None
      else
        match SplitColumnMessage(s[i + 1..])
        case None => None
        case Some(cm) => Some(SyntaxErrorReport(ParseInt(s[..i]), cm.0, cm.1))
  }

  lemma ColumnMessageRoundTrip(col: int, msg: string)
    ensures SplitColumnMessage(IntToString(col) + ": " + msg) == Some((col, msg))
  {
    var c := IntToString(col);
    assert c + ": " + msg == c + [':'] + (" " + msg);
    FirstIndexAfter(c, ':', " " + msg);
    assert (" " + msg)[1..] == msg;
    IntRoundTrip(col);
  }

  /** The recorded text determines the error: position and message read back exactly. */
  lemma ErrorTextRoundTrip(e: SyntaxErrorReport)
    ensures SplitErrorText(ErrorText(e)) == Some(e)
  {
    var l := IntToString(e.line);
    var rest := IntToString(e.charPositionInLine) + ": " + e.msg;
    assert ErrorText(e) == l + [':'] + rest;
    FirstIndexAfter(l, ':', rest);
    ColumnMessageRoundTrip(e.charPositionInLine, e.msg);
    IntRoundTrip(e.line);
  }

  /** Distinct errors are recorded as distinct texts. */
  lemma ErrorTextInjective(e1: SyntaxErrorReport, e2: SyntaxErrorReport)
    requires ErrorText(e1) == ErrorText(e2)
    ensures e1 == e2
  {
    ErrorTextRoundTrip(e1);
    ErrorTextRoundTrip(e2);
  }
}
