/**
 * Properties of the matching engine of RobotsTxt.java, including the
 * behaviours its unit tests pin down.
 */
module MatchingProperties {
  import opened Wrappers
  import opened Selection
  import opened Matching

  // ---------------------------------------------------------------------
  // User-agent scoring (compareUA)

  /** A token that is a prefix of the agent scores exactly its length, and only such a token does. */
  lemma PrefixTokenScoresItsLength(token: string, agent: string)
    requires token != "*"
    ensures UaScore(token, agent) == |token| <==> token <= agent
  {
    if token <= agent {
      CommonPrefixIs(token, agent, |token|);
    }
  }

  /** A mismatch at index i gives score i - 1; so a mismatch at index 0 means no match. */
  lemma MismatchScoresIndexMinusOne(token: string, agent: string, i: nat)
    requires token != "*" && |token| <= |agent|
    requires i < |token| && token[..i] == agent[..i] && token[i] != agent[i]
    ensures UaScore(token, agent) == i - 1
  {
    CommonPrefixIs(token, agent, i);
  }

  /**
   * The source's scoring is not a prefix test: a token that shares only its
   * first character with the agent still matches, with the score of "*".
   */
  lemma PartialPrefixMatches()
    ensures UaScore("bingbot", "baiduspider") == 0
  {
    MismatchScoresIndexMinusOne("bingbot", "baiduspider", 1);
  }

  /** A group listing "*" matches every agent, with a score of at least 0. */
  lemma WildcardGroupMatches(g: Group, agent: string)
    requires "*" in g.userAgents
    ensures MatchUserAgent(g, agent).Some?
  {
    var i :| 0 <= i < |g.userAgents| && g.userAgents[i] == "*";
    assert UaScore(g.userAgents[i], agent) == 0;
  }

  /** Agents shorter than a token never match it (RobotsTxtTest lines 37-43). */
  lemma ShortAgentExamples()
    ensures UaScore("googlebot-news", "googlebot") == -1
    ensures UaScore("googlebot-news", "foo") == -1
    ensures UaScore("googlebot", "foo") == -1
  {
  }

  /** Prefix tokens score their own length (RobotsTxtTest lines 37-43). */
  lemma PrefixTokenExamples()
    ensures UaScore("googlebot-news", "googlebot-news") == 14
    ensures UaScore("googlebot", "googlebot-news") == 9
  {
    PrefixTokenScoresItsLength("googlebot-news", "googlebot-news");
    PrefixTokenScoresItsLength("googlebot", "googlebot-news");
  }

  /** "googlebot" is a prefix of "googlebot-images" and scores 9. */
  lemma PrefixOfImagesAgent()
    ensures UaScore("googlebot", "googlebot-images") == 9
  {
    PrefixTokenScoresItsLength("googlebot", "googlebot-images");
  }

  /**
   * "googlebot-news" first differs from "googlebot-images" at index 10, so it
   * scores 9, the same as the shorter token "googlebot".
   */
  lemma MismatchAtIndexTen()
    ensures UaScore("googlebot-news", "googlebot-images") == 9
  {
    var t, a := "googlebot-news", "googlebot-images";
    assert t[..10] == "googlebot-" == a[..10];
    assert t[10] == 'n' && a[10] == 'i';
    MismatchScoresIndexMinusOne(t, a, 10);
  }

  /** A token with a non-negative score no other token exceeds gives the group's score. */
  lemma MatchUserAgentIsBestToken(g: Group, agent: string, i: nat)
    requires i < |g.userAgents| && UaScore(g.userAgents[i], agent) >= 0
    requires forall j :: 0 <= j < |g.userAgents| ==> UaScore(g.userAgents[j], agent) <= UaScore(g.userAgents[i], agent)
    ensures MatchUserAgent(g, agent) == Some(UaScore(g.userAgents[i], agent) as nat)
  {
    var scores := TokenScores(g.userAgents, agent);
    var r := FirstMax(scores);
    assert r.Some? by { assert !NoneMatch(scores) by { assert scores[i] >= 0; } }
    assert scores[r.value] == scores[i];
  }

  /** A group of two tokens scores the better of the two when either matches. */
  lemma TwoTokenGroupScore(g: Group, agent: string)
    requires |g.userAgents| == 2
    requires UaScore(g.userAgents[0], agent) >= 0 || UaScore(g.userAgents[1], agent) >= 0
    ensures MatchUserAgent(g, agent) ==
              var s0, s1 := UaScore(g.userAgents[0], agent), UaScore(g.userAgents[1], agent);
              Some(if s0 >= s1 then s0 as nat else s1 as nat)
  {
    if UaScore(g.userAgents[0], agent) >= UaScore(g.userAgents[1], agent) {
      MatchUserAgentIsBestToken(g, agent, 0);
    } else {
      MatchUserAgentIsBestToken(g, agent, 1);
    }
  }

  /** A group with a single token scores exactly that token's score. */
  lemma SingleTokenGroupScore(g: Group, agent: string)
    requires |g.userAgents| == 1 && UaScore(g.userAgents[0], agent) >= 0
    ensures MatchUserAgent(g, agent) == Some(UaScore(g.userAgents[0], agent) as nat)
  {
    MatchUserAgentIsBestToken(g, agent, 0);
  }

  /** The group of RobotsTxtTest lines 33-35 scores 14 for "googlebot-news". */
  lemma GroupScoresNewsAgent()
    ensures MatchUserAgent(Group(["googlebot-news", "googlebot"], [], [], Unset, Unset), "googlebot-news") == Some(14)
  {
    var g := Group(["googlebot-news", "googlebot"], [], [], Unset, Unset);
    assert UaScore(g.userAgents[0], "googlebot-news") == 14 && UaScore(g.userAgents[1], "googlebot-news") == 9 by {
      PrefixTokenExamples();
    }
    TwoTokenGroupScore(g, "googlebot-news");
  }

  /** The same group scores 9 for "googlebot-images". */
  lemma GroupScoresImagesAgent()
    ensures MatchUserAgent(Group(["googlebot-news", "googlebot"], [], [], Unset, Unset), "googlebot-images") == Some(9)
  {
    var g := Group(["googlebot-news", "googlebot"], [], [], Unset, Unset);
    assert UaScore(g.userAgents[0], "googlebot-images") == 9 by {
      MismatchAtIndexTen();
    }
    assert UaScore(g.userAgents[1], "googlebot-images") == 9 by {
      PrefixOfImagesAgent();
    }
    TwoTokenGroupScore(g, "googlebot-images");
  }

  /** The same group does not match "foo"; adding "*" makes it match with score 0. */
  lemma GroupScoresUnknownAgent()
    ensures MatchUserAgent(Group(["googlebot-news", "googlebot"], [], [], Unset, Unset), "foo") == None
    ensures MatchUserAgent(Group(["googlebot-news", "googlebot", "*"], [], [], Unset, Unset), "foo") == Some(0)
  {
    ShortAgentExamples();
    var h := Group(["googlebot-news", "googlebot", "*"], [], [], Unset, Unset);
    assert UaScore(h.userAgents[2], "foo") == 0;
    MatchUserAgentIsBestToken(h, "foo", 2);
  }

  // ---------------------------------------------------------------------
  // Group selection (findMatchingDirectives) and the reply

  /** A document without groups allows everything. */
  lemma NoGroupsAllowsEverything(doc: Document, agent: string, path: string)
    requires doc.groups == []
    ensures IsAllowed(doc, agent, path) == EmptyAllowedReply
    ensures IsAllowed(doc, agent, path).isAllowed
  {
  }

  /**
   * When some group lists "*", a group is always selected: the reply carries
   * the document's sitemaps and its fields come first.
   */
  lemma WildcardDocumentSelectsAGroup(doc: Document, agent: string, path: string, w: nat)
    requires w < |doc.groups| && "*" in doc.groups[w].userAgents
    ensures FindMatchingDirectives(doc.groups, agent).Some?
    ensures IsAllowed(doc, agent, path).sitemaps == doc.sitemaps
    ensures doc.otherFields <= IsAllowed(doc, agent, path).otherFields
  {
    WildcardGroupMatches(doc.groups[w], agent);
  }

  /**
   * A literal token that is a prefix of the agent beats "*": the selected
   * group scores at least the token's length.
   */
  lemma LongerPrefixBeatsWildcard(doc: Document, agent: string, i: nat, t: nat)
    requires i < |doc.groups| && t < |doc.groups[i].userAgents|
    requires doc.groups[i].userAgents[t] != "*" && doc.groups[i].userAgents[t] <= agent
    ensures FindMatchingDirectives(doc.groups, agent).Some?
    ensures MatchUserAgent(doc.groups[FindMatchingDirectives(doc.groups, agent).value], agent).value
              >= |doc.groups[i].userAgents[t]|
  {
    PrefixTokenScoresItsLength(doc.groups[i].userAgents[t], agent);
    assert MatchUserAgent(doc.groups[i], agent).Some?;
  }

  /**
   * A matching group that no group outranks, and that every earlier group
   * ranks strictly below, is the one selected.
   */
  lemma SelectedGroupIs(groups: seq<Group>, agent: string, k: nat)
    requires k < |groups| && MatchUserAgent(groups[k], agent).Some?
    requires forall j :: 0 <= j < |groups| ==> Rank(MatchUserAgent(groups[j], agent)) <= Rank(MatchUserAgent(groups[k], agent))
    requires forall j :: 0 <= j < k ==> Rank(MatchUserAgent(groups[j], agent)) < Rank(MatchUserAgent(groups[k], agent))
    ensures FindMatchingDirectives(groups, agent) == Some(k)
  {
    var scores := GroupScores(groups, agent);
    assert IsFirstMax(scores, k);
    var r := FirstMax(scores);
    assert r.Some? by { assert !NoneMatch(scores) by { assert scores[k] >= 0; } }
    FirstMaxUnique(scores, r.value, k);
  }

  /**
   * Of two matching groups the second is selected only when it scores
   * strictly higher; on a tie the first is kept.
   */
  lemma TwoGroupSelection(groups: seq<Group>, agent: string)
    requires |groups| == 2
    requires MatchUserAgent(groups[0], agent).Some? && MatchUserAgent(groups[1], agent).Some?
    ensures FindMatchingDirectives(groups, agent) ==
              if MatchUserAgent(groups[1], agent).value > MatchUserAgent(groups[0], agent).value
              then Some(1) else Some(0)
  {
    var m0, m1 := MatchUserAgent(groups[0], agent), MatchUserAgent(groups[1], agent);
    var r := FindMatchingDirectives(groups, agent);
    assert r.Some? by { assert m0.Some?; }
    if r.value == 0 {
      assert m1.value <= m0.value;
    } else {
      assert Rank(m0) < m1.value;
    }
  }

  /** "googlebot-news" is chosen over "googlebot" for that agent though declared second. */
  lemma MoreSpecificGroupWins()
    ensures FindMatchingDirectives(
              [Group(["googlebot"], [], [], Unset, Unset), Group(["googlebot-news"], [], [], Unset, Unset)],
              "googlebot-news") == Some(1)
  {
    var groups := [Group(["googlebot"], [], [], Unset, Unset), Group(["googlebot-news"], [], [], Unset, Unset)];
    assert MatchUserAgent(groups[0], "googlebot-news") == Some(9) by {
      PrefixTokenExamples();
      SingleTokenGroupScore(groups[0], "googlebot-news");
    }
    assert MatchUserAgent(groups[1], "googlebot-news") == Some(14) by {
      PrefixTokenExamples();
      SingleTokenGroupScore(groups[1], "googlebot-news");
    }
    TwoGroupSelection(groups, "googlebot-news");
  }

  /**
   * Ties go to the first declared group: a "bingbot" group declared before
   * a "*" group scores 0 for "baiduspider", as "*" does, and is selected.
   */
  lemma TieGoesToFirstGroup()
    ensures FindMatchingDirectives(
              [Group(["bingbot"], [], [], Unset, Unset), Group(["*"], [], [], Unset, Unset)],
              "baiduspider") == Some(0)
  {
    var groups := [Group(["bingbot"], [], [], Unset, Unset), Group(["*"], [], [], Unset, Unset)];
    assert MatchUserAgent(groups[0], "baiduspider") == Some(0) by {
      PartialPrefixMatches();
      SingleTokenGroupScore(groups[0], "baiduspider");
    }
    assert MatchUserAgent(groups[1], "baiduspider") == Some(0) by {
      SingleTokenGroupScore(groups[1], "baiduspider");
    }
    TwoGroupSelection(groups, "baiduspider");
  }

  // ---------------------------------------------------------------------
  // Directive normalisation and path scoring

  /** "/fish*" and "/fish" are the same directive: only one trailing '*' is removed. */
  lemma TrailingStarIsRedundant(kind: DirectiveType, p: string)
    requires !EndsWith(p, '*')
    ensures NewDirective(kind, p + "*") == NewDirective(kind, p)
  {
    assert (p + "*")[..|p|] == p;
  }

  /** The root path, written with or without a trailing star, matches every path with score 1. */
  lemma RootMatchesEverything(kind: DirectiveType, target: string)
    ensures ComparePath(NewDirective(kind, "/"), target) == 1
    ensures ComparePath(NewDirective(kind, "/*"), target) == 1
  {
    TrailingStarIsRedundant(kind, "/");
  }

  /**
   * '*' followed by a star-free piece matches exactly the texts that end
   * with a fit of the piece and hold no line terminator before it.
   */
  lemma {:induction false} GlobStarThenLiteral(lit: string, s: string)
    requires '*' !in lit
    ensures Glob("*" + lit, s) <==>
              (|lit| <= |s| && Fits(lit, s[|s| - |lit|..]) && OneLine(s[..|s| - |lit|]))
  {
    var p := "*" + lit;
    assert p[0] == '*' && p[1..] == lit;
    assert Glob(p, s) == (Glob(lit, s) || (|s| > 0 && !IsLineTerminator(s[0]) && Glob(p, s[1..])));
    GlobStarFree(lit, s);
    if |s| > 0 {
      GlobStarThenLiteral(lit, s[1..]);
      if |lit| <= |s| - 1 {
        assert s[1..][|s| - 1 - |lit|..] == s[|s| - |lit|..];
        assert s[..|s| - |lit|][1..] == s[1..][..|s| - 1 - |lit|];
        OneLineStep(s[..|s| - |lit|]);
      }
      if |lit| == |s| {
        assert s[|s| - |lit|..] == s;
      }
    } else if |lit| == 0 {
      assert s[|s| - |lit|..] == s;
    }
  }

  /** A literal prefix is consumed by a pattern that starts with it. */
  lemma {:induction false} GlobLiteralPrefix(lit: string, p: string, s: string)
    requires '*' !in lit
    ensures Glob(lit + p, lit + s) <==> Glob(p, s)
  {
    if |lit| == 0 {
      assert lit + p == p && lit + s == s;
    } else {
      assert (lit + p)[0] == lit[0] == (lit + s)[0] && lit[0] != '*';
      assert (lit + p)[1..] == lit[1..] + p;
      assert (lit + s)[1..] == lit[1..] + s;
      GlobLiteralPrefix(lit[1..], p, s);
    }
  }

  /** A path with neither '*' nor a final '$' is a plain prefix rule scored by its length. */
  lemma LiteralDirectiveIsPrefixRule(kind: DirectiveType, raw: string, target: string)
    requires '*' !in raw && !EndsWith(raw, '$')
    ensures ComparePath(NewDirective(kind, raw), target) ==
              if raw == "/" then 1 else if raw <= target then |raw| else -1
  {
  }

  /**
   * A star-free piece followed by '$' matches only the paths that fit it
   * whole (the path itself when it holds no '.'), scored by its length
   * including '$'.
   */
  lemma AnchoredDirectiveIsExactRule(kind: DirectiveType, lit: string, target: string)
    requires '*' !in lit
    ensures ComparePath(NewDirective(kind, lit + "$"), target) == if Fits(lit, target) then |lit| + 1 else -1
  {
    AnchoredDirectiveScore(kind, lit, target);
    GlobStarFree(lit, target);
  }

  /** A directive ending in '$' scores its length, '$' included, exactly on the texts its body matches whole. */
  lemma AnchoredDirectiveScore(kind: DirectiveType, body: string, target: string)
    ensures ComparePath(NewDirective(kind, body + "$"), target) == if Glob(body, target) then |body| + 1 else -1
  {
    var d := NewDirective(kind, body + "$");
    assert d.path == body + "$";
    assert d.path[..|d.path| - 1] == body;
    assert d.path != "/";
  }

  /** Literal paths are case-sensitive prefixes (RobotsTxtTest lines 88-116). */
  lemma LiteralPathExamples()
    ensures ComparePath(NewDirective(Allow, "/fish"), "/fish.html") == 5
    ensures ComparePath(NewDirective(Allow, "/fish*"), "/fish.html") == 5
    ensures ComparePath(NewDirective(Allow, "/fish/"), "/fish") == -1
  {
    TrailingStarIsRedundant(Allow, "/fish");
    LiteralDirectiveIsPrefixRule(Allow, "/fish", "/fish.html");
    LiteralDirectiveIsPrefixRule(Allow, "/fish/", "/fish");
  }

  /** "/fish" does not match "/Fish.asp": matching is case-sensitive. */
  lemma CaseSensitivePathExample()
    ensures ComparePath(NewDirective(Allow, "/fish"), "/Fish.asp") == -1
  {
    var t := "/Fish.asp";
    assert t[1] == 'F' && "/fish"[1] == 'f';
    assert !("/fish" <= t);
    LiteralDirectiveIsPrefixRule(Allow, "/fish", t);
  }

  /** "/fish*" does not match "/catfish": the rule is anchored at the start. */
  lemma StartAnchoredPathExample()
    ensures ComparePath(NewDirective(Allow, "/fish*"), "/catfish") == -1
  {
    TrailingStarIsRedundant(Allow, "/fish");
    LiteralDirectiveIsPrefixRule(Allow, "/fish", "/catfish");
  }

  /**
   * A directive of '/', '*', a star-free lit and '$' matches exactly the
   * paths "/" + rest where rest ends with a fit of lit and holds no line
   * terminator before it; it scores its length, '*' and '$' included. A
   * path that does not start with '/' never matches.
   */
  lemma LeadingStarAnchoredRule(kind: DirectiveType, lit: string, rest: string, target: string)
    requires '*' !in lit
    ensures ComparePath(NewDirective(kind, "/*" + lit + "$"), "/" + rest) ==
              if |lit| <= |rest| && Fits(lit, rest[|rest| - |lit|..]) && OneLine(rest[..|rest| - |lit|])
              then |lit| + 3 else -1
    ensures (|target| == 0 || target[0] != '/') ==> ComparePath(NewDirective(kind, "/*" + lit + "$"), target) == -1
  {
    assert "/*" + lit + "$" == ("/" + ("*" + lit)) + "$";
    AnchoredDirectiveScore(kind, "/" + ("*" + lit), "/" + rest);
    AnchoredDirectiveScore(kind, "/" + ("*" + lit), target);
    GlobLiteralPrefix("/", "*" + lit, rest);
    GlobStarThenLiteral(lit, rest);
    if |target| == 0 || target[0] != '/' {
      assert !FitsPrefix("/", target) by {
        if |target| > 0 {
          assert !CharFits('/', target[0]);
        }
      }
      GlobNeedsLiteralPrefix("/", "*" + lit, target);
    }
  }

  /** The directive "/" '*' ".php" '$' in particular: a path "/" + rest matches iff rest ends in a fit of ".php" with no line terminator before it. */
  lemma PhpAnchoredRule(kind: DirectiveType, rest: string)
    ensures ComparePath(NewDirective(kind, "/*.php$"), "/" + rest) ==
              if 4 <= |rest| && Fits(".php", rest[|rest| - 4..]) && OneLine(rest[..|rest| - 4]) then 7 else -1
  {
    LeadingStarAnchoredRule(kind, ".php", rest, "");
    assert "/*" + ".php" + "$" == "/*.php$";
  }

  /** A leading-star pattern ending in '$' scores its length with '$' (RobotsTxtTest lines 127-133). */
  lemma AnchoredPatternMatches()
    ensures ComparePath(NewDirective(Allow, "/*.php$"), "/filename.php") == 7
  {
    var rest := "filename.php";
    PhpAnchoredRule(Allow, rest);
    assert "/" + rest == "/filename.php";
    assert rest[|rest| - 4..] == ".php" && rest[..|rest| - 4] == "filename";
    FitsSelf(".php");
  }

  /** The same anchored pattern rejects a longer path: '$' anchors the end. */
  lemma AnchoredPatternRejectsSuffix()
    ensures ComparePath(NewDirective(Allow, "/*.php$"), "/filename.php5") == -1
  {
    var rest := "filename.php5";
    PhpAnchoredRule(Allow, rest);
    assert "/" + rest == "/filename.php5";
    assert rest[|rest| - |".php"|..] == "php5";
    assert !CharFits(".php"[1], "php5"[1]);
  }

  /** In a pattern '.' is the regex's any-character: the anchored ".php" pattern also matches "/xphp". */
  lemma DotMatchesAnyCharacter()
    ensures ComparePath(NewDirective(Disallow, "/*.php$"), "/xphp") == 7
  {
    var rest := "xphp";
    PhpAnchoredRule(Disallow, rest);
    assert "/" + rest == "/xphp";
    assert rest[|rest| - 4..] == "xphp" && rest[..|rest| - 4] == "";
    assert Fits(".php", "xphp");
  }

  /** '.' does not match a line terminator: the anchored ".php" pattern misses "/\nphp". */
  lemma DotStopsAtLineTerminator()
    ensures ComparePath(NewDirective(Disallow, "/*.php$"), "/\nphp") == -1
  {
    var rest := "\nphp";
    PhpAnchoredRule(Disallow, rest);
    assert "/" + rest == "/\nphp";
    assert rest[|rest| - 4..] == "\nphp";
    assert !CharFits(".php"[0], "\nphp"[0]);
  }

  /** '*' does not cross a line terminator: "/a*b" misses "/axb\nc", as the appended ".*" stops at '\n'. */
  lemma StarStopsAtLineTerminator()
    ensures ComparePath(NewDirective(Disallow, "/a*b"), "/axb\nc") == -1
  {
    var d := NewDirective(Disallow, "/a*b");
    assert d.path + "*" == "/a" + "*b*";
    assert "/axb\nc" == "/a" + "xb\nc";
    GlobLiteralPrefix("/a", "*b*", "xb\nc");
    assert "*b*"[1..] == "b*" && "b*" == "b" + "*";
    GlobLiteralThenStar("b", "xb\nc");
    GlobLiteralThenStar("b", "b\nc");
    GlobLiteralThenStar("b", "\nc");
    assert "xb\nc"[1..] == "b\nc" && "b\nc"[1..] == "\nc";
    assert !OneLine("b\nc"[1..]);
    assert !Glob("*b*", "\nc");
    assert !Glob("*b*", "b\nc");
  }

  /** A pattern "*lit*" matches every subject that contains lit. */
  lemma GlobContains(lit: string, before: string, after: string)
    requires '*' !in lit && OneLine(before) && OneLine(after)
    ensures Glob("*" + lit + "*", before + lit + after)
  {
    GlobStarMatchesOneLine(after);
    GlobLiteralPrefix(lit, "*", after);
    GlobStarSkips(lit + "*", before, lit + after);
    assert "*" + lit + "*" == "*" + (lit + "*");
    assert before + lit + after == before + (lit + after);
  }

  /** Without '$', the pattern matches any path containing ".php" (RobotsTxtTest lines 118-125). */
  lemma UnanchoredPatternMatchesInside()
    ensures ComparePath(NewDirective(Allow, "/*.php"), "/folder/any.php.file.html") == 6
  {
    var d := NewDirective(Allow, "/*.php");
    var target := "/folder/any.php.file.html";
    assert d.path == "/*.php";
    assert target == "/" + ("folder/any" + ".php" + ".file.html");
    assert d.path + "*" == "/" + ("*" + ".php" + "*");
    assert OneLine("folder/any") && OneLine(".file.html");
    GlobContains(".php", "folder/any", ".file.html");
    GlobLiteralPrefix("/", "*" + ".php" + "*", "folder/any" + ".php" + ".file.html");
  }

  /** A leading '*' may skip any prefix of the subject that holds no line terminator. */
  lemma {:induction false} GlobStarSkips(p: string, skipped: string, s: string)
    requires Glob(p, s) && OneLine(skipped)
    ensures Glob("*" + p, skipped + s)
  {
    assert ("*" + p)[0] == '*' && ("*" + p)[1..] == p;
    if |skipped| == 0 {
      assert skipped + s == s;
    } else {
      OneLineStep(skipped);
      GlobStarSkips(p, skipped[1..], s);
      assert (skipped + s)[1..] == skipped[1..] + s;
    }
  }

  /**
   * A leading '*' matches exactly when the rest of the pattern matches some
   * suffix of the subject and what it skips holds no line terminator.
   */
  lemma {:induction false} GlobLeadingStar(rest: string, t: string)
    ensures Glob("*" + rest, t) <==> exists k :: 0 <= k <= |t| && OneLine(t[..k]) && Glob(rest, t[k..])
  {
    var p := "*" + rest;
    assert p[0] == '*' && p[1..] == rest;
    assert t[0..] == t && t[..0] == [];
    if |t| > 0 {
      assert Glob(p, t) == (Glob(rest, t) || (!IsLineTerminator(t[0]) && Glob(p, t[1..])));
      GlobLeadingStar(rest, t[1..]);
      if Glob(p, t) && !Glob(rest, t) {
        var j :| 0 <= j <= |t[1..]| && OneLine(t[1..][..j]) && Glob(rest, t[1..][j..]);
        assert t[..j + 1][1..] == t[1..][..j] && t[1..][j..] == t[j + 1..];
        OneLineStep(t[..j + 1]);
        assert OneLine(t[..j + 1]) && Glob(rest, t[j + 1..]);
      }
      if exists k :: 0 <= k <= |t| && OneLine(t[..k]) && Glob(rest, t[k..]) {
        var k :| 0 <= k <= |t| && OneLine(t[..k]) && Glob(rest, t[k..]);
        if k > 0 {
          assert t[..k][1..] == t[1..][..k - 1] && t[1..][k - 1..] == t[k..];
          OneLineStep(t[..k]);
          assert OneLine(t[1..][..k - 1]) && Glob(rest, t[1..][k - 1..]);
        }
      }
    }
  }

  /** A pattern that starts with a literal never matches a subject that does not start with it. */
  lemma {:induction false} GlobNeedsLiteralPrefix(lit: string, p: string, s: string)
    requires '*' !in lit && !FitsPrefix(lit, s)
    ensures !Glob(lit + p, s)
  {
    assert |lit| > 0;
    assert (lit + p)[0] == lit[0] && lit[0] != '*';
    if |s| > 0 && CharFits(lit[0], s[0]) {
      assert (lit + p)[1..] == lit[1..] + p;
      assert !FitsPrefix(lit[1..], s[1..]);
      GlobNeedsLiteralPrefix(lit[1..], p, s[1..]);
    }
  }

  /** A star-free piece that fits the start of the subject is consumed by a pattern that starts with it. */
  lemma {:induction false} GlobConsumesFit(lit: string, p: string, s: string)
    requires '*' !in lit && FitsPrefix(lit, s)
    ensures Glob(lit + p, s) <==> Glob(p, s[|lit|..])
  {
    if |lit| == 0 {
      assert lit + p == p && s[|lit|..] == s;
    } else {
      assert (lit + p)[0] == lit[0] && lit[0] != '*';
      assert (lit + p)[1..] == lit[1..] + p;
      assert s[..|lit|][1..] == s[1..][..|lit| - 1];
      FitsStep(lit, s[..|lit|]);
      assert s[1..][|lit| - 1..] == s[|lit|..];
      GlobConsumesFit(lit[1..], p, s[1..]);
    }
  }

  /**
   * Splitting a pattern at its first '*': the piece before it must fit the
   * start of the subject, and the rest of the pattern must match the
   * subject from some position after that. Applied once per '*', this
   * decides every pattern as its star-free pieces in order with any text
   * between them.
   */
  lemma GlobFirstStarSplit(lit: string, rest: string, s: string)
    requires '*' !in lit
    ensures Glob(lit + "*" + rest, s) <==>
              FitsPrefix(lit, s) && exists k :: |lit| <= k <= |s| && OneLine(s[|lit|..k]) && Glob(rest, s[k..])
  {
    assert lit + "*" + rest == lit + ("*" + rest);
    if FitsPrefix(lit, s) {
      var t := s[|lit|..];
      GlobConsumesFit(lit, "*" + rest, s);
      GlobLeadingStar(rest, t);
      forall j | 0 <= j <= |t|
        ensures t[j..] == s[|lit| + j..] && t[..j] == s[|lit|..|lit| + j]
      {
      }
      if exists j :: 0 <= j <= |t| && OneLine(t[..j]) && Glob(rest, t[j..]) {
        var j :| 0 <= j <= |t| && OneLine(t[..j]) && Glob(rest, t[j..]);
        assert OneLine(s[|lit|..|lit| + j]) && Glob(rest, s[|lit| + j..]);
      }
      if exists k :: |lit| <= k <= |s| && OneLine(s[|lit|..k]) && Glob(rest, s[k..]) {
        var k :| |lit| <= k <= |s| && OneLine(s[|lit|..k]) && Glob(rest, s[k..]);
        assert OneLine(t[..k - |lit|]) && Glob(rest, t[k - |lit|..]);
      }
    } else {
      GlobNeedsLiteralPrefix(lit, "*" + rest, s);
    }
  }

  // ---------------------------------------------------------------------
  // Directive selection inside a group

  /** The path is refused exactly when the first longest-matching directive is a Disallow. */
  lemma RefusedIffFirstLongestIsDisallow(g: Group, path: string)
    ensures !GroupIsAllowed(g, path) <==>
              exists k :: IsFirstMax(PathScores(g.directives, path), k) && g.directives[k].kind == Disallow
  {
  }

  /** "allow: /p" then "disallow: /": "/page" is allowed (2 beats 1), "/other" is not. */
  lemma LongerAllowBeatsRootDisallow()
    ensures GroupIsAllowed(Group(["*"], [NewDirective(Allow, "/p"), NewDirective(Disallow, "/")], [], Unset, Unset), "/page")
    ensures !GroupIsAllowed(Group(["*"], [NewDirective(Allow, "/p"), NewDirective(Disallow, "/")], [], Unset, Unset), "/other")
  {
    var ds := [NewDirective(Allow, "/p"), NewDirective(Disallow, "/")];
    assert PathScores(ds, "/page") == [2, 1];
    assert PathScores(ds, "/other") == [-1, 1];
    assert IsFirstMax([-1, 1], 1);
  }
}
