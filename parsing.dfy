/**
 * RobotsTxtParser.java: the parse-tree listener that builds a RobotsTxt
 * while a walker visits the parse tree, and the error listener that records
 * syntax errors.
 *
 * The lexer and parser are generated from a grammar that is not part of
 * this model. Their output is given here as input: the syntax errors they
 * report, and the sequence of enter/exit events the walker delivers for the
 * nodes the listener overrides. A child node that error recovery may leave
 * out is an Option, and the text of a node is its getText() value.
 */
module Parsing {
  import opened Wrappers
  import opened Text
  import opened Matching

  /** The keyword tokens present in a path member's type node (ALLOW(), DISALLOW()). */
  datatype PathType = PathType(allow: bool, disallow: bool)

  /**
   * The parse-tree nodes whose enter callbacks the listener overrides.
   * `number` is what Float.parseFloat makes of the text value: None when
   * it throws NumberFormatException.
   */
  datatype Line =
    | StartGroupLine(agentValue: Option<string>)
    | PathMemberField(pathType: Option<PathType>, pathValue: Option<string>)
    | OtherMemberField(memberType: Option<string>, textValue: Option<string>, number: Option<real>)
    | UrlNonGroupField(urlType: Option<string>, urlValue: Option<string>)
    | OtherNonGroupField(otherType: Option<string>, textValue: Option<string>)

  /** What the walker delivers; an entry knows whether it has start-group line children. */
  datatype Event = EnterEntry(hasStartGroupLine: bool) | Enter(line: Line) | ExitEntry

  /** One syntaxError callback from the lexer or the parser. */
  datatype SyntaxErrorReport = SyntaxErrorReport(line: int, charPositionInLine: int, msg: string)

  /** The lexer's and parser's output: the errors they reported, then the walk of the tree. */
  datatype ParseInput = ParseInput(syntaxErrors: seq<SyntaxErrorReport>, walk: seq<Event>)

  /** The document under construction and the listener's open group (currentDirective). */
  datatype ListenerState = ListenerState(doc: Document, current: Option<Group>)

  /** The exception a callback throws when it dereferences an absent group or value. */
  const NullPointer := "java.lang.NullPointerException"

  const CacheDelayName := "cache-delay"
  const CrawlDelayName := "crawl-delay"
  const SitemapName := "sitemap"

  predicate IsDelayName(name: string) {
    name == CacheDelayName || name == CrawlDelayName
  }

  /** The "%d:%d: %s" text an error listener records for a syntax error. */
  function ErrorText(e: SyntaxErrorReport): string {
    IntToString(e.line) + ":" + IntToString(e.charPositionInLine) + ": " + e.msg
  }

  function ErrorTexts(es: seq<SyntaxErrorReport>): (r: seq<string>)
    ensures |r| == |es|
    ensures forall i :: 0 <= i < |es| ==> r[i] == ErrorText(es[i])
  {
    seq(|es|, i requires 0 <= i < |es| => ErrorText(es[i]))
  }

  lemma ErrorTextsAppend(es: seq<SyntaxErrorReport>, e: SyntaxErrorReport)
    ensures ErrorTexts(es + [e]) == ErrorTexts(es) + [ErrorText(e)]
  {
    var r := ErrorTexts(es + [e]);
    assert forall i :: 0 <= i < |es| ==> r[i] == ErrorText(es[i]);
  }

  /** The directives a path member line adds: ALLOW first, then DISALLOW. */
  function PathDirectives(t: PathType, path: string): seq<Directive> {
    (if t.allow then [NewDirective(Allow, path)] else []) +
    (if t.disallow then [NewDirective(Disallow, path)] else [])
  }

  function AddToGroup(st: ListenerState, g: Group): ListenerState {
    st.(current := Some(g))
  }

  function AddDocField(st: ListenerState, name: string, value: string): ListenerState {
    st.(doc := st.doc.(otherFields := st.doc.otherFields + [Field(name, value)]))
  }

  /**
   * A line throws a NullPointerException when it must touch the open group
   * and none is open, or when a non-group field has no value node.
   */
  predicate LineFaults(line: Line, open: bool) {
    match line
    case StartGroupLine(a) => a.Some? && !open
    case PathMemberField(t, p) => t.Some? && p.Some? && (t.value.allow || t.value.disallow) && !open
    case OtherMemberField(n, v, number) =>
      n.Some? && v.Some? && !open && (IsDelayName(Lower(n.value)) ==> number.Some?)
    case UrlNonGroupField(t, u) => t.Some? && u.None?
    case OtherNonGroupField(t, v) => t.Some? && v.None?
  }

  /**
   * One enter callback applied to the listener's state; None when the
   * callback throws a NullPointerException. A line never opens or closes a
   * group and never touches the errors or the source name.
   */
  function StepLine(st: ListenerState, line: Line): (r: Option<ListenerState>)
    ensures r.None? <==> LineFaults(line, st.current.Some?)
    ensures r.Some? ==> (r.value.current.Some? <==> st.current.Some?)
    ensures r.Some? ==> r.value.doc.errors == st.doc.errors && r.value.doc.sourceName == st.doc.sourceName
  {
    match line
    case StartGroupLine(agent) =>
      if agent.None? then Some(st)
      else if st.current.None? then None
      else
        var g := st.current.value;
        Some(AddToGroup(st, g.(userAgents := g.userAgents + [Lower(agent.value)])))
    case PathMemberField(t, p) =>
      if t.None? || p.None? || (!t.value.allow && !t.value.disallow) then Some(st)
      else if st.current.None? then None
      else
        var g := st.current.value;
        Some(AddToGroup(st, g.(directives := g.directives + PathDirectives(t.value, p.value))))
    case OtherMemberField(n, v, number) =>
      if n.None? || v.None? then Some(st)
      else
        var name := Lower(n.value);
        if IsDelayName(name) && number.None? then Some(st)
        else if st.current.None? then None
        else
          var g := st.current.value;
          if name == CacheDelayName then Some(AddToGroup(st, g.(cacheDelay := number.value)))
          else if name == CrawlDelayName then Some(AddToGroup(st, g.(crawlDelay := number.value)))
          else Some(AddToGroup(st, g.(otherFields := g.otherFields + [Field(name, v.value)])))
    case UrlNonGroupField(t, u) =>
      if t.None? then Some(st)
      else if u.None? then None
      else
        var name := Lower(t.value);
        if name == SitemapName then Some(st.(doc := st.doc.(sitemaps := st.doc.sitemaps + [u.value])))
        else Some(AddDocField(st, name, u.value))
    case OtherNonGroupField(t, v) =>
      if t.None? then Some(st)
      else if v.None? then None
      else if t.value == "" && v.value == "" then Some(st)
      else Some(AddDocField(st, Lower(t.value), v.value))
  }

  /** One event of the walk; None when its callback throws. */
  function Step(st: ListenerState, e: Event): (r: Option<ListenerState>)
    ensures !e.Enter? ==> r.Some?
    ensures e.ExitEntry? ==> r.value.current.None?
    ensures e.ExitEntry? && st.current.Some? ==> r.value.doc.groups == st.doc.groups + [st.current.value]
    ensures r.Some? ==> r.value.doc.errors == st.doc.errors && r.value.doc.sourceName == st.doc.sourceName
  {
    match e
    case EnterEntry(hasStartGroupLine) =>
      Some(if hasStartGroupLine then st.(current := Some(EmptyGroup)) else st)
    case Enter(line) => StepLine(st, line)
    case ExitEntry =>
      Some(if st.current.Some? then ListenerState(st.doc.(groups := st.doc.groups + [st.current.value]), None) else st)
  }

  /** The walk delivered in order; the first callback that throws ends it. */
  function Run(st: ListenerState, events: seq<Event>): (r: Option<ListenerState>)
    ensures r.Some? ==> r.value.doc.errors == st.doc.errors && r.value.doc.sourceName == st.doc.sourceName
    decreases |events|
  {
    if events == [] then Some(st)
    else
      match Run(st, events[..|events| - 1])
      case None => None
      case Some(s) => Step(s, events[|events| - 1])
  }

  /** The document after the error listener has seen every syntax error, before the walk. */
  function InitialState(input: ParseInput, sourceName: string): ListenerState {
    ListenerState(EmptyDocument(sourceName).(errors := ErrorTexts(input.syntaxErrors)), None)
  }

  /**
   * RobotsTxtParser.parse: the document, or None when the walk throws. A
   * document keeps its source name and every syntax error, in order.
   */
  function ParseResult(input: ParseInput, sourceName: string): (r: Option<Document>)
    ensures r.Some? ==> r.value.errors == ErrorTexts(input.syntaxErrors) && r.value.sourceName == sourceName
  {
    match Run(InitialState(input, sourceName), input.walk)
    case None => None
    case Some(s) => Some(s.doc)
  }

  /** ErrorListener: appends each reported syntax error to the document's errors. */
  class ErrorListener {
    const robotsTxt: RobotsTxt

    constructor (robotsTxt: RobotsTxt)
      ensures this.robotsTxt == robotsTxt
    {
      this.robotsTxt := robotsTxt;
    }

    method SyntaxError(line: int, charPositionInLine: int, msg: string)
      modifies robotsTxt
      ensures robotsTxt.Value() ==
                old(robotsTxt.Value()).(errors := old(robotsTxt.errors) + [ErrorText(SyntaxErrorReport(line, charPositionInLine, msg))])
    {
      robotsTxt.errors := robotsTxt.errors + [ErrorText(SyntaxErrorReport(line, charPositionInLine, msg))];
    }
  }

  /**
   * RobotsListener: the open group lives in `currentDirective` (null when
   * no group is open). Each callback returns false exactly where the source
   * throws a NullPointerException, having changed nothing.
   */
  class RobotsListener {
    var currentDirective: DirectiveGroup?
    const robotsTxt: RobotsTxt

    function State(): ListenerState
      reads this, robotsTxt, currentDirective
    {
      ListenerState(robotsTxt.Value(), if currentDirective == null then None else Some(currentDirective.Value()))
    }

    constructor (robotsTxt: RobotsTxt)
      ensures this.robotsTxt == robotsTxt && currentDirective == null
    {
      this.robotsTxt := robotsTxt;
      currentDirective := null;
    }

    method EnterStartGroupLine(agentValue: Option<string>) returns (ok: bool)
      modifies currentDirective
      ensures ok == StepLine(old(State()), StartGroupLine(agentValue)).Some?
      ensures ok ==> State() == StepLine(old(State()), StartGroupLine(agentValue)).value
    {
      if agentValue.Some? {
        if currentDirective == null {
          return false;
        }
        currentDirective.userAgents := currentDirective.userAgents + [Lower(agentValue.value)];
      }
      return true;
    }

    method EnterEntry(hasStartGroupLine: bool)
      modifies this
      ensures State() == Step(old(State()), Event.EnterEntry(hasStartGroupLine)).value
      ensures currentDirective == old(currentDirective) || fresh(currentDirective)
    {
      if hasStartGroupLine {
        currentDirective := new DirectiveGroup();
      }
    }

    method EnterUrlNonGroupField(urlType: Option<string>, urlValue: Option<string>) returns (ok: bool)
      modifies robotsTxt
      ensures ok == StepLine(old(State()), UrlNonGroupField(urlType, urlValue)).Some?
      ensures ok ==> State() == StepLine(old(State()), UrlNonGroupField(urlType, urlValue)).value
    {
      if urlType.Some? {
        var name := Lower(urlType.value);
        if urlValue.None? {
          return false;
        }
        if name == SitemapName {
          robotsTxt.sitemaps := robotsTxt.sitemaps + [urlValue.value];
        } else {
          robotsTxt.AddOtherField(name, urlValue.value);
        }
      }
      return true;
    }

    method EnterOtherNonGroupField(otherType: Option<string>, textValue: Option<string>) returns (ok: bool)
      modifies robotsTxt
      ensures ok == StepLine(old(State()), OtherNonGroupField(otherType, textValue)).Some?
      ensures ok ==> State() == StepLine(old(State()), OtherNonGroupField(otherType, textValue)).value
    {
      if otherType.Some? {
        if textValue.None? {
          return false;
        }
        if !(otherType.value == "" && textValue.value == "") {
          robotsTxt.AddOtherField(Lower(otherType.value), textValue.value);
        }
      }
      return true;
    }

    method EnterOtherMemberField(memberType: Option<string>, textValue: Option<string>, number: Option<real>)
      returns (ok: bool)
      modifies currentDirective
      ensures ok == StepLine(old(State()), OtherMemberField(memberType, textValue, number)).Some?
      ensures ok ==> State() == StepLine(old(State()), OtherMemberField(memberType, textValue, number)).value
    {
      if memberType.Some? && textValue.Some? {
        var fieldName := Lower(memberType.value);
        if fieldName == CacheDelayName {
          // Float.parseFloat runs before the group is dereferenced; its
          // NumberFormatException is caught and ignored.
          if number.Some? {
            if currentDirective == null {
              return false;
            }
            currentDirective.cacheDelay := number.value;
          }
        } else if fieldName == CrawlDelayName {
          if number.Some? {
            if currentDirective == null {
              return false;
            }
            currentDirective.crawlDelay := number.value;
          }
        } else {
          if currentDirective == null {
            return false;
          }
          currentDirective.AddOtherField(fieldName, textValue.value);
        }
      }
      return true;
    }

    method EnterPathMemberField(pathType: Option<PathType>, pathValue: Option<string>) returns (ok: bool)
      modifies currentDirective
      ensures ok == StepLine(old(State()), PathMemberField(pathType, pathValue)).Some?
      ensures ok ==> State() == StepLine(old(State()), PathMemberField(pathType, pathValue)).value
    {
      if pathType.Some? && pathValue.Some? {
        ghost var before := if currentDirective == null then [] else currentDirective.directives;
        if pathType.value.allow {
          if currentDirective == null {
            return false;
          }
          currentDirective.AddDirective(NewDirective(Allow, pathValue.value));
        }
        if pathType.value.disallow {
          if currentDirective == null {
            return false;
          }
          currentDirective.AddDirective(NewDirective(Disallow, pathValue.value));
        }
        assert currentDirective != null ==>
                 currentDirective.directives == before + PathDirectives(pathType.value, pathValue.value);
      }
      return true;
    }

    method ExitEntry()
      modifies this, robotsTxt
      ensures State() == Step(old(State()), Event.ExitEntry).value
      ensures currentDirective == null
    {
      if currentDirective != null {
        robotsTxt.directives := robotsTxt.directives + [currentDirective.Value()];
        currentDirective := null;
      }
    }

    /** The tree walker: delivers one event to its callback. */
    method Deliver(e: Event) returns (ok: bool)
      modifies this, robotsTxt, currentDirective
      ensures ok == Step(old(State()), e).Some?
      ensures ok ==> State() == Step(old(State()), e).value
      ensures currentDirective == null || currentDirective == old(currentDirective) || fresh(currentDirective)
    {
      if e.EnterEntry? {
        EnterEntry(e.hasStartGroupLine);
        ok := true;
      } else if e.ExitEntry? {
        ExitEntry();
        ok := true;
      } else {
        match e.line
        case StartGroupLine(a) => ok := EnterStartGroupLine(a);
        case PathMemberField(t, p) => ok := EnterPathMemberField(t, p);
        case OtherMemberField(n, v, number) => ok := EnterOtherMemberField(n, v, number);
        case UrlNonGroupField(t, u) => ok := EnterUrlNonGroupField(t, u);
        case OtherNonGroupField(t, v) => ok := EnterOtherNonGroupField(t, v);
      }
    }
  }

  /**
   * RobotsTxtParser.parse: every syntax error is recorded first (the parser
   * runs to completion before the walk), then the walk builds the document.
   * A callback that throws ends the parse with that exception.
   */
  method Parse(input: ParseInput, sourceName: string) returns (r: Outcome<RobotsTxt>)
    ensures r.Returned? <==> ParseResult(input, sourceName).Some?
    ensures r.Returned? ==> fresh(r.value) && r.value.Value() == ParseResult(input, sourceName).value
    ensures r.Threw? ==> r.exception == NullPointer
  {
    var robotsTxt := RecordSyntaxErrors(input.syntaxErrors, sourceName);
    var listener := new RobotsListener(robotsTxt);
    assert listener.State() == InitialState(input, sourceName);
    var ok := WalkEvents(listener, input.walk);
    if !ok {
      return Threw(NullPointer);
    }
    return Returned(robotsTxt);
  }

  /**
   * The document parse starts from: a new RobotsTxt whose error listener
   * has been told every syntax error the lexer and parser report.
   */
  method RecordSyntaxErrors(errors: seq<SyntaxErrorReport>, sourceName: string) returns (robotsTxt: RobotsTxt)
    ensures fresh(robotsTxt)
    ensures robotsTxt.Value() == EmptyDocument(sourceName).(errors := ErrorTexts(errors))
  {
    robotsTxt := new RobotsTxt(sourceName);
    var errorListener := new ErrorListener(robotsTxt);
    ReportErrors(errorListener, errors);
  }

  /**
   * The lexer and parser report their syntax errors, in order, to the error
   * listener of a document that has none yet.
   */
  method ReportErrors(errorListener: ErrorListener, errors: seq<SyntaxErrorReport>)
    requires errorListener.robotsTxt.errors == []
    modifies errorListener.robotsTxt
    ensures errorListener.robotsTxt.Value() == old(errorListener.robotsTxt.Value()).(errors := ErrorTexts(errors))
  {
    for i := 0 to |errors|
      invariant errorListener.robotsTxt.Value() == old(errorListener.robotsTxt.Value()).(errors := ErrorTexts(errors[..i]))
    {
      var e := errors[i];
      errorListener.SyntaxError(e.line, e.charPositionInLine, e.msg);
      assert errors[..i + 1] == errors[..i] + [e];
      ErrorTextsAppend(errors[..i], e);
    }
    assert errors[..|errors|] == errors;
  }

  /** ParseTreeWalker.walk: delivers the events in order until a callback throws. */
  method WalkEvents(listener: RobotsListener, walk: seq<Event>) returns (ok: bool)
    modifies listener, listener.robotsTxt, listener.currentDirective
    ensures ok == Run(old(listener.State()), walk).Some?
    ensures ok ==> listener.State() == Run(old(listener.State()), walk).value
  {
    ghost var st := listener.State();
    assert walk[..0] == [];
    for i := 0 to |walk|
      invariant listener.currentDirective == null || listener.currentDirective == old(listener.currentDirective)
                || fresh(listener.currentDirective)
      invariant Run(st, walk[..i]) == Some(listener.State())
    {
      ok := listener.Deliver(walk[i]);
      assert walk[..i + 1][..i] == walk[..i];
      if !ok {
        RunStaysThrown(st, walk, i + 1);
        return false;
      }
    }
    assert walk[..|walk|] == walk;
    return true;
  }

  /** Once a callback has thrown, the rest of the walk is never delivered. */
  lemma {:induction false} RunStaysThrown(st: ListenerState, events: seq<Event>, k: nat)
    requires k <= |events| && Run(st, events[..k]).None?
    ensures Run(st, events).None?
    decreases |events| - k
  {
    if k < |events| {
      assert events[..k + 1][..k] == events[..k];
      RunStaysThrown(st, events, k + 1);
    } else {
      assert events[..k] == events;
    }
  }
}
