/**
 * The matching engine of RobotsTxt.java: directive normalisation, path
 * scoring, user-agent scoring, group selection and reply assembly, plus the
 * DirectiveGroup and RobotsTxt objects the parse-tree listener fills in.
 *
 * The engine reads a finished document; RobotsTxt.Value() gives the
 * immutable value it evaluates.
 */
module Matching {
  import opened Wrappers
  import opened Selection

  datatype DirectiveType = Allow | Disallow

  /**
   * A normalised allow/disallow rule. `hasPattern` stands for the compiled
   * java.util.regex.Pattern being non-null; the pattern itself is a function
   * of `path` (see PatternMatches).
   */
  datatype Directive = Directive(kind: DirectiveType, path: string, hasPattern: bool)

  /** An OtherField of the reply: a name/value pair, kept in insertion order. */
  datatype Field = Field(name: string, value: string)

  /** The initial value of crawlDelay and cacheDelay (`float crawlDelay = -1`). */
  const Unset: real := -1.0

  datatype Group = Group(
    userAgents: seq<string>,
    directives: seq<Directive>,
    otherFields: seq<Field>,
    crawlDelay: real,
    cacheDelay: real)

  const EmptyGroup := Group([], [], [], Unset, Unset)

  datatype Document = Document(
    sourceName: string,
    groups: seq<Group>,
    otherFields: seq<Field>,
    sitemaps: seq<string>,
    errors: seq<string>)

  function EmptyDocument(sourceName: string): Document {
    Document(sourceName, [], [], [], [])
  }

  /** IsAllowedReply. */
  datatype Reply = Reply(
    isAllowed: bool,
    crawlDelay: real,
    cacheDelay: real,
    otherFields: seq<Field>,
    sitemaps: seq<string>)

  /** EMPTY_ALLOWED_REPLY: isAllowed set, every other field at its protobuf default. */
  const EmptyAllowedReply := Reply(true, 0.0, 0.0, [], [])

  predicate EndsWith(s: string, c: char) {
    |s| > 0 && s[|s| - 1] == c
  }

  // ---------------------------------------------------------------------
  // Directive paths

  /** The Directive constructor: drop one trailing '*', then decide whether a pattern is needed. */
  function NewDirective(kind: DirectiveType, rawPath: string): (d: Directive)
    ensures d.kind == kind
    ensures EndsWith(rawPath, '*') ==> rawPath == d.path + "*"
    ensures !EndsWith(rawPath, '*') ==> rawPath == d.path
    ensures d.hasPattern <==> '*' in d.path || EndsWith(d.path, '$')
  {
    var path := if EndsWith(rawPath, '*') then rawPath[..|rawPath| - 1] else rawPath;
    Directive(kind, path, EndsWith(path, '$') || '*' in path)
  }

  /**
   * The characters java.util.regex treats as line terminators when neither
   * DOTALL nor UNIX_LINES is set: '.' never matches them.
   */
  predicate IsLineTerminator(c: char) {
    c == '\n' || c == '\r' || c == '\U{85}' || c == '\U{2028}' || c == '\U{2029}'
  }

  /** A text that ".*" can consume: it holds no line terminator. */
  predicate OneLine(s: string) {
    forall i :: 0 <= i < |s| ==> !IsLineTerminator(s[i])
  }

  lemma OneLineStep(s: string)
    requires |s| > 0
    ensures OneLine(s) <==> !IsLineTerminator(s[0]) && OneLine(s[1..])
  {
    if !IsLineTerminator(s[0]) && OneLine(s[1..]) {
      forall i | 0 < i < |s|
        ensures !IsLineTerminator(s[i])
      {
        assert s[1..][i - 1] == s[i];
      }
    }
  }

  /** One character of a pattern against one of the text: '.' is the regex's any-character but a line terminator. */
  predicate CharFits(p: char, c: char) {
    (p == '.' && !IsLineTerminator(c)) || p == c
  }

  /**
   * A text fits a star-free pattern piece when it has the piece's length and
   * agrees with it wherever the piece does not hold '.'.
   */
  predicate Fits(lit: string, s: string) {
    |lit| == |s| && forall i :: 0 <= i < |lit| ==> CharFits(lit[i], s[i])
  }

  /** The text begins with something that fits the piece. */
  predicate FitsPrefix(lit: string, s: string) {
    |lit| <= |s| && Fits(lit, s[..|lit|])
  }

  /** A piece without '.' fits exactly the text equal to it. */
  lemma FitsWithoutDotIsEquality(lit: string, s: string)
    requires '.' !in lit
    ensures Fits(lit, s) <==> s == lit
  {
    if Fits(lit, s) {
      assert forall i :: 0 <= i < |lit| ==> lit[i] != '.';
    }
  }

  /** Every piece fits itself. */
  lemma FitsSelf(lit: string)
    ensures Fits(lit, lit)
  {
  }

  /** A non-empty piece fits a text exactly when its first character and its tail fit. */
  lemma FitsStep(lit: string, s: string)
    requires |lit| > 0
    ensures Fits(lit, s) <==> |s| > 0 && CharFits(lit[0], s[0]) && Fits(lit[1..], s[1..])
  {
    if |s| > 0 && CharFits(lit[0], s[0]) && Fits(lit[1..], s[1..]) {
      assert |lit| == |s|;
      forall i | 0 <= i < |lit|
        ensures CharFits(lit[i], s[i])
      {
        if i > 0 {
          assert lit[1..][i - 1] == lit[i] && s[1..][i - 1] == s[i];
        }
      }
    }
  }

  /**
   * Whole-string match of a pattern in which '*' stands for any sequence
   * without a line terminator, '.' for any one character but a line
   * terminator, and every other character for itself: the regex
   * "^" + pattern with every '*' replaced by ".*", compiled without flags
   * and matched with Matcher.matches().
   */
  function Glob(pattern: string, s: string): bool
    decreases |pattern| + |s|
  {
    if |pattern| == 0 then |s| == 0
    else if pattern[0] == '*' then
      Glob(pattern[1..], s) || (|s| > 0 && !IsLineTerminator(s[0]) && Glob(pattern, s[1..]))
    else
      |s| > 0 && CharFits(pattern[0], s[0]) && Glob(pattern[1..], s[1..])
  }

  /** A star-free pattern matches exactly the texts that fit it. */
  lemma {:induction false} GlobStarFree(pattern: string, s: string)
    requires '*' !in pattern
    ensures Glob(pattern, s) <==> Fits(pattern, s)
  {
    if |pattern| > 0 {
      FitsStep(pattern, s);
      if |s| > 0 {
        GlobStarFree(pattern[1..], s[1..]);
      }
    }
  }

  /**
   * The compiled pattern of a directive path: a final '$' anchors the end,
   * otherwise ".*$" is appended, which is a trailing '*'.
   */
  function PatternMatches(path: string, target: string): (r: bool)
    ensures EndsWith(path, '$') && '*' !in path[..|path| - 1] && '.' !in path[..|path| - 1] ==>
              (r <==> target == path[..|path| - 1])
    ensures !EndsWith(path, '$') && '*' !in path && '.' !in path ==> (r ==> path <= target)
  {
    if EndsWith(path, '$') then
      assert '*' !in path[..|path| - 1] && '.' !in path[..|path| - 1] ==>
        (Glob(path[..|path| - 1], target) <==> target == path[..|path| - 1]) by {
        if '*' !in path[..|path| - 1] && '.' !in path[..|path| - 1] {
          GlobStarFree(path[..|path| - 1], target);
          FitsWithoutDotIsEquality(path[..|path| - 1], target);
        }
      }
      Glob(path[..|path| - 1], target)
    else
      assert '*' !in path && '.' !in path ==> (Glob(path + "*", target) ==> path <= target) by {
        if '*' !in path && '.' !in path && Glob(path + "*", target) {
          GlobLiteralThenStar(path, target);
          FitsWithoutDotIsEquality(path, target[..|path|]);
        }
      }
      Glob(path + "*", target)
  }

  /**
   * A star-free path compiles to a pattern that matches exactly the texts
   * that fit it, when it ends in '$'; otherwise exactly the texts that
   * begin with a fit of it and hold no line terminator after that.
   */
  lemma PatternMatchesStarFree(path: string, target: string)
    requires '*' !in path
    ensures EndsWith(path, '$') ==> (PatternMatches(path, target) <==> Fits(path[..|path| - 1], target))
    ensures !EndsWith(path, '$') ==>
              (PatternMatches(path, target) <==> FitsPrefix(path, target) && OneLine(target[|path|..]))
  {
    if EndsWith(path, '$') {
      assert forall c :: c in path[..|path| - 1] ==> c in path;
      GlobStarFree(path[..|path| - 1], target);
    } else {
      GlobLiteralThenStar(path, target);
    }
  }

  /**
   * A star-free piece followed by '*' matches exactly the texts that begin
   * with a fit of the piece and hold no line terminator after it.
   */
  lemma {:induction false} GlobLiteralThenStar(lit: string, s: string)
    requires '*' !in lit
    ensures Glob(lit + "*", s) <==> FitsPrefix(lit, s) && OneLine(s[|lit|..])
  {
    if |lit| == 0 {
      assert lit + "*" == "*";
      assert s[|lit|..] == s;
      GlobStarMatchesOneLine(s);
    } else {
      assert (lit + "*")[1..] == lit[1..] + "*";
      if |s| > 0 {
        GlobLiteralThenStar(lit[1..], s[1..]);
        if |lit| <= |s| {
          assert s[..|lit|][1..] == s[1..][..|lit| - 1];
          assert s[1..][|lit| - 1..] == s[|lit|..];
          FitsStep(lit, s[..|lit|]);
        }
      }
    }
  }

  /** "*" matches exactly the texts without a line terminator. */
  lemma {:induction false} GlobStarMatchesOneLine(s: string)
    ensures Glob("*", s) <==> OneLine(s)
  {
    if |s| > 0 {
      GlobStarMatchesOneLine(s[1..]);
      OneLineStep(s);
    }
  }

  /** Directive.comparePath: the matched length, or -1 for no match. */
  function ComparePath(d: Directive, target: string): (r: int)
    ensures r == -1 || r == |d.path|
    ensures d.path == "/" ==> r == 1
    ensures d.path != "/" && !d.hasPattern ==> (r >= 0 <==> d.path <= target)
    ensures d.path != "/" && d.hasPattern ==> (r >= 0 <==> PatternMatches(d.path, target))
  {
    if d.path == "/" then 1
    else if d.hasPattern then (if PatternMatches(d.path, target) then |d.path| else -1)
    else if d.path <= target then |d.path|
    else -1
  }

  // ---------------------------------------------------------------------
  // User agents

  /** Length of the longest common prefix of a and b. */
  function CommonPrefix(a: string, b: string): (n: nat)
    ensures n <= |a| && n <= |b|
    ensures a[..n] == b[..n]
    ensures n < |a| && n < |b| ==> a[n] != b[n]
  {
    if |a| == 0 || |b| == 0 || a[0] != b[0] then 0
    else
      var n := 1 + CommonPrefix(a[1..], b[1..]);
      assert a[..n] == a[..1] + a[1..][..n - 1];
      assert b[..n] == b[..1] + b[1..][..n - 1];
      n
  }

  lemma CommonPrefixIs(a: string, b: string, k: nat)
    requires k <= |a| && k <= |b|
    requires a[..k] == b[..k]
    requires k < |a| && k < |b| ==> a[k] != b[k]
    ensures CommonPrefix(a, b) == k
  {
  }

  /**
   * The score compareUA gives a group token against a parsed user agent:
   * "*" scores 0, a token longer than the agent -1, a token that is a
   * prefix of the agent its length, and a token whose first mismatch is at
   * index i scores i - 1.
   */
  function UaScore(token: string, agent: string): (r: int)
    ensures token == "*" ==> r == 0
    ensures token != "*" ==> -1 <= r <= |token|
    ensures token != "*" && |agent| < |token| ==> r == -1
  {
    if token == "*" then 0
    else if |agent| < |token| then -1
    else
      var n := CommonPrefix(token, agent);
      if n == |token| then |token| else n - 1
  }

  /** DirectiveGroup.compareUA, with the index loop of the source. */
  method CompareUA(ua: string, parsedUserAgent: string) returns (matchedLength: int)
    ensures matchedLength == UaScore(ua, parsedUserAgent)
  {
    if ua == "*" {
      return 0;
    }
    if |parsedUserAgent| < |ua| {
      return -1;
    }
    var i := 0;
    while i < |ua|
      invariant 0 <= i <= |ua|
      invariant ua[..i] == parsedUserAgent[..i]
    {
      if ua[i] != parsedUserAgent[i] {
        CommonPrefixIs(ua, parsedUserAgent, i);
        i := i - 1;
        break;
      }
      i := i + 1;
    }
    if i == |ua| {
      CommonPrefixIs(ua, parsedUserAgent, i);
    }
    return i;
  }

  function TokenScores(userAgents: seq<string>, agent: string): (s: seq<int>)
    ensures |s| == |userAgents|
    ensures forall i :: 0 <= i < |s| ==> s[i] == UaScore(userAgents[i], agent)
  {
    seq(|userAgents|, i requires 0 <= i < |userAgents| => UaScore(userAgents[i], agent))
  }

  /**
   * DirectiveGroup.matchUserAgent: the best score over the group's tokens,
   * or None when no token scores 0 or more.
   */
  function MatchUserAgent(g: Group, agent: string): (r: Option<nat>)
    ensures r.None? <==> forall i :: 0 <= i < |g.userAgents| ==> UaScore(g.userAgents[i], agent) < 0
    ensures r.Some? ==> exists i :: 0 <= i < |g.userAgents| && UaScore(g.userAgents[i], agent) == r.value
    ensures r.Some? ==> forall i :: 0 <= i < |g.userAgents| ==> UaScore(g.userAgents[i], agent) <= r.value
  {
    var scores := TokenScores(g.userAgents, agent);
    match FirstMax(scores)
    case None => None
    case Some(k) => Some(scores[k])
  }

  /** A group's score as the group stream sees it: -1 for an empty Optional. */
  function Rank(m: Option<nat>): int {
    match m
    case None => -1
    case Some(n) => n
  }

  function GroupScores(groups: seq<Group>, agent: string): (s: seq<int>)
    ensures |s| == |groups|
    ensures forall i :: 0 <= i < |s| ==> s[i] == Rank(MatchUserAgent(groups[i], agent))
  {
    seq(|groups|, i requires 0 <= i < |groups| => Rank(MatchUserAgent(groups[i], agent)))
  }

  /**
   * RobotsTxt.findMatchingDirectives: the index of the first group whose
   * best token score is the greatest in the document.
   */
  function FindMatchingDirectives(groups: seq<Group>, agent: string): (r: Option<nat>)
    ensures r.None? <==> forall i :: 0 <= i < |groups| ==> MatchUserAgent(groups[i], agent).None?
    ensures r.Some? ==> r.value < |groups| && MatchUserAgent(groups[r.value], agent).Some?
    ensures r.Some? ==> forall j :: 0 <= j < |groups| && MatchUserAgent(groups[j], agent).Some? ==>
                          MatchUserAgent(groups[j], agent).value <= MatchUserAgent(groups[r.value], agent).value
    ensures r.Some? ==> forall j :: 0 <= j < r.value ==>
                          Rank(MatchUserAgent(groups[j], agent)) < MatchUserAgent(groups[r.value], agent).value
  {
    var scores := GroupScores(groups, agent);
    var r := FirstMax(scores);
    if r.None? then
      assert forall i :: 0 <= i < |groups| ==> MatchUserAgent(groups[i], agent).None? by {
        forall i | 0 <= i < |groups| ensures MatchUserAgent(groups[i], agent).None? {
          assert scores[i] < 0;
        }
      }
      r
    else
      r
  }

  function PathScores(directives: seq<Directive>, path: string): (s: seq<int>)
    ensures |s| == |directives|
    ensures forall i :: 0 <= i < |s| ==> s[i] == ComparePath(directives[i], path)
  {
    seq(|directives|, i requires 0 <= i < |directives| => ComparePath(directives[i], path))
  }

  /**
   * DirectiveGroup.isAllowed: the first directive with the greatest
   * non-negative score decides; with none, the path is allowed.
   */
  function GroupIsAllowed(g: Group, path: string): (allowed: bool)
    ensures allowed <==> forall k :: IsFirstMax(PathScores(g.directives, path), k) ==> g.directives[k].kind == Allow
    ensures (forall i :: 0 <= i < |g.directives| ==> ComparePath(g.directives[i], path) < 0) ==> allowed
  {
    var scores := PathScores(g.directives, path);
    match FirstMax(scores)
    case None => true
    case Some(k) =>
      assert forall j :: IsFirstMax(scores, j) ==> j == k by {
        forall j | IsFirstMax(scores, j) ensures j == k { FirstMaxUnique(scores, j, k); }
      }
      g.directives[k].kind == Allow
  }

  /**
   * RobotsTxt.isAllowed for an already parsed user agent: the reply of the
   * selected group, or EMPTY_ALLOWED_REPLY when no group matches.
   */
  function IsAllowed(doc: Document, parsedUserAgent: string, path: string): (r: Reply)
    ensures FindMatchingDirectives(doc.groups, parsedUserAgent).None? ==> r == EmptyAllowedReply
    ensures FindMatchingDirectives(doc.groups, parsedUserAgent).Some? ==>
      var g := doc.groups[FindMatchingDirectives(doc.groups, parsedUserAgent).value];
      && r.isAllowed == GroupIsAllowed(g, path)
      && r.crawlDelay == g.crawlDelay && r.cacheDelay == g.cacheDelay
      && r.otherFields == doc.otherFields + g.otherFields
      && r.sitemaps == doc.sitemaps
  {
    match FindMatchingDirectives(doc.groups, parsedUserAgent)
    case None => EmptyAllowedReply
    case Some(k) =>
      var g := doc.groups[k];
      Reply(GroupIsAllowed(g, path), g.crawlDelay, g.cacheDelay, doc.otherFields + g.otherFields, doc.sitemaps)
  }

  // ---------------------------------------------------------------------
  // The mutable objects the parse-tree listener fills in

  class DirectiveGroup {
    var userAgents: seq<string>
    var directives: seq<Directive>
    var otherFields: seq<Field>
    var crawlDelay: real
    var cacheDelay: real

    function Value(): Group
      reads this
    {
      Group(userAgents, directives, otherFields, crawlDelay, cacheDelay)
    }

    constructor ()
      ensures Value() == EmptyGroup
    {
      userAgents, directives, otherFields := [], [], [];
      crawlDelay, cacheDelay := Unset, Unset;
    }

    /** Appends a directive; the source also sets the directive's back-reference to this group. */
    method AddDirective(directive: Directive)
      modifies this
      ensures Value() == old(Value()).(directives := old(directives) + [directive])
    {
      directives := directives + [directive];
    }

    method AddOtherField(name: string, value: string)
      modifies this
      ensures Value() == old(Value()).(otherFields := old(otherFields) + [Field(name, value)])
    {
      otherFields := otherFields + [Field(name, value)];
    }
  }

  class RobotsTxt {
    const sourceName: string
    var directives: seq<Group>
    var otherFields: seq<Field>
    var sitemaps: seq<string>
    var errors: seq<string>

    function Value(): Document
      reads this
    {
      Document(sourceName, directives, otherFields, sitemaps, errors)
    }

    constructor (sourceName: string)
      ensures Value() == EmptyDocument(sourceName)
    {
      this.sourceName := sourceName;
      directives, otherFields, sitemaps, errors := [], [], [], [];
    }

    method AddOtherField(name: string, value: string)
      modifies this
      ensures Value() == old(Value()).(otherFields := old(otherFields) + [Field(name, value)])
    {
      otherFields := otherFields + [Field(name, value)];
    }
  }
}
