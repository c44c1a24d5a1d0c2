# robots.txt evaluator — a verified model

This project models the core of the Veidemann robots.txt evaluator, a gRPC service that tells a web crawler whether it may fetch a URI. The model has four parts.

- **Matching** (`RobotsTxt.java`, modules `Matching` and `Selection`). A parsed robots.txt is a document of groups. Each group has user-agent tokens, Allow/Disallow directives, delays and other fields. The document also has sitemaps, other fields and syntax errors.
  - Choosing a group: each token of each group is scored against the parsed user agent. The first group with the best score wins.
  - Deciding a path: each of that group's directives is scored against the path. The first directive with the longest match decides.
  - The reply carries the decision, the delays, the sitemaps and the other fields.
- **Parsing** (`RobotsTxtParser.java`, module `Parsing`). The ANTLR listener builds the document from the events of a parse-tree walk. The error listener records every syntax error.
- **Caching** (`RobotsCache.java`, module `Caching`). A cache of documents keyed by origin (protocol, host, port) and job execution.
  - On a miss, the loader fetches `protocol://host:port/robots.txt`.
  - A successful response is parsed. Anything else stores the shared empty sentinel document.
  - An entry lives for its ttl in milliseconds from its load time.
- **Service** (`RobotsService.java`, module `Service`). Resolves the ttl (0 means 300 seconds) and switches on the robots policy:
  - obey the cached document;
  - ignore robots;
  - use the request's custom robots.txt;
  - use the custom robots.txt only when the site has none.

The engine is pure functions over datatype values. The objects the source updates in place are classes with a `Value()` snapshot:
- the `DirectiveGroup` and `RobotsTxt` builders;
- the listeners;
- the cache and the service.

Each listener callback and the parse driver are methods proved against the functions `StepLine`, `Step`, `Run` and `ParseResult`. `WalkTheorem` then states what any well-formed walk builds.

Behaviour of the code worth knowing:
- **User-agent score.** `compareUA` is not a plain prefix test. A token longer than the agent scores -1. A prefix token scores its length. A first mismatch at index i scores i-1, so the token still "matches" when i ≥ 1.
- **Path score.** A directive's score is the length of its path after one trailing `*` is stripped.
- **Unmatched reply.** When no group matches, the reply is the constant empty reply: allowed, delays 0.0, no sitemaps and no other fields. The document's sitemaps are not copied into it.
- **Parse can throw.** A member line before any group opens, or a URL or other non-group field with a type but no value, dereferences null in the listener. The whole parse then throws.
  - The cache loader catches this and stores the empty sentinel.
  - The service answers such a custom robots.txt with an error response.
  - A non-numeric delay never throws: `Float.parseFloat` fails before the null group is dereferenced, and that failure is caught.
- **Expiry.** The expiry is `loadTime + 1000 * ttlSeconds` milliseconds.

## Model

| member | source | states |
|---|---|---|
| Selection.FirstMax | veidemann-robotsevaluator-service/src/main/java/no/nb/nna/veidemann/robotsparser/RobotsTxt.java:70-77 | None exactly when no score is ≥ 0; otherwise the index of a maximal non-negative score with every earlier score strictly smaller (Stream.max keeps the first of equals) |
| Selection.FirstMaxUnique | veidemann-robotsevaluator-service/src/main/java/no/nb/nna/veidemann/robotsparser/RobotsTxt.java:70-77 | the first-maximum index is unique |
| Matching.NewDirective | veidemann-robotsevaluator-service/src/main/java/no/nb/nna/veidemann/robotsparser/RobotsTxt.java:207-223 | keeps the directive type; strips exactly one trailing '*'; the directive has a pattern exactly when its path has a '*' or ends with '$' |
| Matching.GlobStarFree | veidemann-robotsevaluator-service/src/main/java/no/nb/nna/veidemann/robotsparser/RobotsTxt.java:214-219 | the regex built from a path without "*" (compiled without flags, so "." is any character but a line terminator, anchored at both ends by `matches()`) matches exactly the texts that fit it character by character |
| Matching.PatternMatches | veidemann-robotsevaluator-service/src/main/java/no/nb/nna/veidemann/robotsparser/RobotsTxt.java:214-219 | a path ending in "$" with no "*" or "." before it matches exactly the text equal to it without the "$"; an unanchored path with no "*" or "." matches only texts it prefixes |
| Matching.PatternMatchesStarFree | veidemann-robotsevaluator-service/src/main/java/no/nb/nna/veidemann/robotsparser/RobotsTxt.java:214-219 | a path without "*" ending in "$" matches exactly the texts that fit it without the "$"; an unanchored one matches exactly the texts that begin with a fit of it and hold no line terminator after that fit, because the appended ".*" does not cross one |
| Matching.OneLineStep | veidemann-robotsevaluator-service/src/main/java/no/nb/nna/veidemann/robotsparser/RobotsTxt.java:219 | a text holds no line terminator exactly when its first character is none and its tail holds none |
| Matching.GlobLiteralThenStar | veidemann-robotsevaluator-service/src/main/java/no/nb/nna/veidemann/robotsparser/RobotsTxt.java:214-219 | a star-free piece followed by "*" matches exactly the texts that begin with a fit of the piece and hold no line terminator after it |
| Matching.GlobStarMatchesOneLine | veidemann-robotsevaluator-service/src/main/java/no/nb/nna/veidemann/robotsparser/RobotsTxt.java:214-219 | "*" alone (the regex ".*") matches exactly the texts without a line terminator |
| Matching.FitsWithoutDotIsEquality | veidemann-robotsevaluator-service/src/main/java/no/nb/nna/veidemann/robotsparser/RobotsTxt.java:214-219 | a piece without "." fits exactly the text equal to it |
| Matching.FitsStep | veidemann-robotsevaluator-service/src/main/java/no/nb/nna/veidemann/robotsparser/RobotsTxt.java:214-219 | a non-empty piece fits a text exactly when its first character and its tail fit |
| Matching.ComparePath | veidemann-robotsevaluator-service/src/main/java/no/nb/nna/veidemann/robotsparser/RobotsTxt.java:225-240 | the score is -1 or the directive's path length; "/" scores 1 on every path; a literal path scores ≥ 0 exactly when it is a prefix of the target, a pattern exactly when the glob matches from the start |
| Matching.UaScore | veidemann-robotsevaluator-service/src/main/java/no/nb/nna/veidemann/robotsparser/RobotsTxt.java:126-143 | "*" scores 0; any other token scores between -1 and its length; a token longer than the agent scores -1 |
| Matching.CompareUA | veidemann-robotsevaluator-service/src/main/java/no/nb/nna/veidemann/robotsparser/RobotsTxt.java:126-143 | the loop's result equals the token score: "*" scores 0, a token longer than the agent -1, otherwise the first mismatch index minus one, or the token length |
| Matching.MatchUserAgent | veidemann-robotsevaluator-service/src/main/java/no/nb/nna/veidemann/robotsparser/RobotsTxt.java:112-117 | None exactly when every token of the group scores below 0; otherwise a token attains the score and none exceeds it |
| Matching.FindMatchingDirectives | veidemann-robotsevaluator-service/src/main/java/no/nb/nna/veidemann/robotsparser/RobotsTxt.java:70-77 | None exactly when no group matches; otherwise the chosen group matches with a maximal score and every earlier group ranks strictly lower |
| Matching.GroupIsAllowed | veidemann-robotsevaluator-service/src/main/java/no/nb/nna/veidemann/robotsparser/RobotsTxt.java:145-156 | a path is allowed exactly when every first-longest matching directive is an Allow; with no matching directive it is allowed |
| Matching.IsAllowed | veidemann-robotsevaluator-service/src/main/java/no/nb/nna/veidemann/robotsparser/RobotsTxt.java:55-68 | with no matching group the reply is the empty allowed reply; otherwise it is the chosen group's decision with its delays, the document's sitemaps, and the document's and group's other fields |
| Matching.DirectiveGroup.AddDirective | veidemann-robotsevaluator-service/src/main/java/no/nb/nna/veidemann/robotsparser/RobotsTxt.java:96-99 | appends the directive and changes nothing else in the group |
| Matching.DirectiveGroup.AddOtherField | veidemann-robotsevaluator-service/src/main/java/no/nb/nna/veidemann/robotsparser/RobotsTxt.java:101-103 | appends the field and changes nothing else in the group |
| Matching.DirectiveGroup.constructor | veidemann-robotsevaluator-service/src/main/java/no/nb/nna/veidemann/robotsparser/RobotsTxt.java:86-94 | a new group has no user agents, directives or other fields, and both delays unset (-1) |
| Matching.RobotsTxt.constructor | veidemann-robotsevaluator-service/src/main/java/no/nb/nna/veidemann/robotsparser/RobotsTxt.java:47-49 | a new document is empty and carries its source name |
| Matching.RobotsTxt.AddOtherField | veidemann-robotsevaluator-service/src/main/java/no/nb/nna/veidemann/robotsparser/RobotsTxt.java:51-53 | appends a document-level field and changes nothing else |
| MatchingProperties.PrefixTokenScoresItsLength | veidemann-robotsevaluator-service/src/main/java/no/nb/nna/veidemann/robotsparser/RobotsTxt.java:126-143 | a non-wildcard token scores its own length exactly when it is a prefix of the agent |
| MatchingProperties.MismatchScoresIndexMinusOne | veidemann-robotsevaluator-service/src/main/java/no/nb/nna/veidemann/robotsparser/RobotsTxt.java:134-142 | a first mismatch at index i scores i-1 |
| MatchingProperties.PartialPrefixMatches | veidemann-robotsevaluator-service/src/main/java/no/nb/nna/veidemann/robotsparser/RobotsTxt.java:134-142 | "bingbot" against "baiduspider" scores 0, so a one-letter common start already matches |
| MatchingProperties.WildcardGroupMatches | veidemann-robotsevaluator-service/src/main/java/no/nb/nna/veidemann/robotsparser/RobotsTxt.java:127-129 | a group with the token "*" matches every agent |
| MatchingProperties.ShortAgentExamples | veidemann-robotsevaluator-service/src/test/java/no/nb/nna/veidemann/robotsparser/RobotsTxtTest.java:37-43 | tokens longer than the agent score -1 |
| MatchingProperties.PrefixTokenExamples | veidemann-robotsevaluator-service/src/test/java/no/nb/nna/veidemann/robotsparser/RobotsTxtTest.java:37-43 | "googlebot-news" scores 14 and "googlebot" scores 9 against "googlebot-news" |
| MatchingProperties.PrefixOfImagesAgent | veidemann-robotsevaluator-service/src/test/java/no/nb/nna/veidemann/robotsparser/RobotsTxtTest.java:37-43 | "googlebot" scores 9 against "googlebot-images" |
| MatchingProperties.MismatchAtIndexTen | veidemann-robotsevaluator-service/src/test/java/no/nb/nna/veidemann/robotsparser/RobotsTxtTest.java:37-43 | "googlebot-news" against "googlebot-images" mismatches at index 10 and scores 9 |
| MatchingProperties.MatchUserAgentIsBestToken | veidemann-robotsevaluator-service/src/main/java/no/nb/nna/veidemann/robotsparser/RobotsTxt.java:112-117 | a token whose score is non-negative and maximal gives the group's score |
| MatchingProperties.TwoTokenGroupScore | veidemann-robotsevaluator-service/src/main/java/no/nb/nna/veidemann/robotsparser/RobotsTxt.java:112-117 | a two-token group scores the larger non-negative token score |
| MatchingProperties.SingleTokenGroupScore | veidemann-robotsevaluator-service/src/main/java/no/nb/nna/veidemann/robotsparser/RobotsTxt.java:112-117 | a one-token group scores its token's score |
| MatchingProperties.GroupScoresNewsAgent | veidemann-robotsevaluator-service/src/test/java/no/nb/nna/veidemann/robotsparser/RobotsTxtTest.java:37-43 | the group [googlebot-news, googlebot] scores 14 for googlebot-news |
| MatchingProperties.GroupScoresImagesAgent | veidemann-robotsevaluator-service/src/test/java/no/nb/nna/veidemann/robotsparser/RobotsTxtTest.java:37-43 | the same group scores 9 for googlebot-images |
| MatchingProperties.GroupScoresUnknownAgent | veidemann-robotsevaluator-service/src/test/java/no/nb/nna/veidemann/robotsparser/RobotsTxtTest.java:37-43 | the group does not match "foo" until "*" is added, then scores 0 |
| MatchingProperties.NoGroupsAllowsEverything | veidemann-robotsevaluator-service/src/main/java/no/nb/nna/veidemann/robotsparser/RobotsTxt.java:55-68 | a document without groups gives the empty allowed reply for every agent and path |
| MatchingProperties.WildcardDocumentSelectsAGroup | veidemann-robotsevaluator-service/src/main/java/no/nb/nna/veidemann/robotsparser/RobotsTxt.java:55-68 | with a "*" group some group is selected, and the reply carries the document's sitemaps and other fields |
| MatchingProperties.LongerPrefixBeatsWildcard | veidemann-robotsevaluator-service/src/main/java/no/nb/nna/veidemann/robotsparser/RobotsTxt.java:70-77 | when a non-wildcard token is a prefix of the agent, the selected group scores at least that token's length |
| MatchingProperties.SelectedGroupIs | veidemann-robotsevaluator-service/src/main/java/no/nb/nna/veidemann/robotsparser/RobotsTxt.java:70-77 | a matching group with maximal rank and every earlier group strictly lower is the one selected |
| MatchingProperties.TwoGroupSelection | veidemann-robotsevaluator-service/src/main/java/no/nb/nna/veidemann/robotsparser/RobotsTxt.java:70-77 | between two matching groups the first is chosen unless the second scores strictly more |
| MatchingProperties.MoreSpecificGroupWins | veidemann-robotsevaluator-service/src/test/java/no/nb/nna/veidemann/robotsparser/RobotsTxtTest.java:145-180 | a googlebot-news group is preferred over a googlebot group for googlebot-news |
| MatchingProperties.TieGoesToFirstGroup | veidemann-robotsevaluator-service/src/main/java/no/nb/nna/veidemann/robotsparser/RobotsTxt.java:70-77 | of two equally scoring groups the first one is used |
| MatchingProperties.TrailingStarIsRedundant | veidemann-robotsevaluator-service/src/main/java/no/nb/nna/veidemann/robotsparser/RobotsTxt.java:207-223 | "p*" and "p" give the same directive |
| MatchingProperties.RootMatchesEverything | veidemann-robotsevaluator-service/src/test/java/no/nb/nna/veidemann/robotsparser/RobotsTxtTest.java:80-86 | "/" and "/*" score 1 on every path |
| MatchingProperties.GlobStarThenLiteral | veidemann-robotsevaluator-service/src/main/java/no/nb/nna/veidemann/robotsparser/RobotsTxt.java:213-220 | "*" followed by a star-free piece matches exactly the texts that end with a fit of the piece and hold no line terminator before it |
| MatchingProperties.GlobLiteralPrefix | veidemann-robotsevaluator-service/src/main/java/no/nb/nna/veidemann/robotsparser/RobotsTxt.java:213-220 | a common literal prefix can be dropped from pattern and string |
| MatchingProperties.LiteralDirectiveIsPrefixRule | veidemann-robotsevaluator-service/src/main/java/no/nb/nna/veidemann/robotsparser/RobotsTxt.java:225-240 | a directive without '*' or '$' scores its length exactly on the paths it prefixes, else -1; except "/", which scores 1 on every path, including ones it does not prefix |
| MatchingProperties.AnchoredDirectiveIsExactRule | veidemann-robotsevaluator-service/src/main/java/no/nb/nna/veidemann/robotsparser/RobotsTxt.java:225-240 | "lit$" with lit star-free scores |lit|+1 on exactly the paths that fit lit (the path lit itself when lit holds no "."), else -1 |
| MatchingProperties.AnchoredDirectiveScore | veidemann-robotsevaluator-service/src/main/java/no/nb/nna/veidemann/robotsparser/RobotsTxt.java:225-240 | a directive "body$" scores |body|+1 exactly when the regex of body matches the whole path, else -1 |
| MatchingProperties.LeadingStarAnchoredRule | veidemann-robotsevaluator-service/src/main/java/no/nb/nna/veidemann/robotsparser/RobotsTxt.java:213-240 | "/*lit$" with lit star-free scores |lit|+3 on exactly the paths "/" + rest where rest ends with a fit of lit and holds no line terminator before it; a path not starting with "/" scores -1 |
| MatchingProperties.PhpAnchoredRule | veidemann-robotsevaluator-service/src/test/java/no/nb/nna/veidemann/robotsparser/RobotsTxtTest.java:127-133 | "/*.php$" scores 7 on "/" + rest exactly when rest ends with a fit of ".php" and holds no line terminator before it, else -1 |
| MatchingProperties.LiteralPathExamples | veidemann-robotsevaluator-service/src/test/java/no/nb/nna/veidemann/robotsparser/RobotsTxtTest.java:88-116 | "/fish" and "/fish*" score 5 on "/fish.html"; "/fish/" does not match "/fish" |
| MatchingProperties.CaseSensitivePathExample | veidemann-robotsevaluator-service/src/test/java/no/nb/nna/veidemann/robotsparser/RobotsTxtTest.java:88-97 | "/fish" does not match "/Fish.asp" |
| MatchingProperties.StartAnchoredPathExample | veidemann-robotsevaluator-service/src/test/java/no/nb/nna/veidemann/robotsparser/RobotsTxtTest.java:99-108 | "/fish*" does not match "/catfish" |
| MatchingProperties.AnchoredPatternMatches | veidemann-robotsevaluator-service/src/test/java/no/nb/nna/veidemann/robotsparser/RobotsTxtTest.java:127-133 | "/*.php$" scores 7 on "/filename.php" |
| MatchingProperties.AnchoredPatternRejectsSuffix | veidemann-robotsevaluator-service/src/test/java/no/nb/nna/veidemann/robotsparser/RobotsTxtTest.java:127-133 | "/*.php$" does not match "/filename.php5" |
| MatchingProperties.DotMatchesAnyCharacter | veidemann-robotsevaluator-service/src/main/java/no/nb/nna/veidemann/robotsparser/RobotsTxt.java:214-219 | the anchored ".php" pattern also scores 7 on "/xphp", because "." in a pattern is the regex's any character |
| MatchingProperties.DotStopsAtLineTerminator | veidemann-robotsevaluator-service/src/main/java/no/nb/nna/veidemann/robotsparser/RobotsTxt.java:219 | the anchored ".php" pattern does not match `"/\nphp"`: "." does not match a line terminator without DOTALL |
| MatchingProperties.StarStopsAtLineTerminator | veidemann-robotsevaluator-service/src/main/java/no/nb/nna/veidemann/robotsparser/RobotsTxt.java:219 | "/a*b" does not match `"/axb\nc"`: the appended ".*" stops at the line terminator, so the match of "b" cannot reach past it |
| MatchingProperties.GlobContains | veidemann-robotsevaluator-service/src/main/java/no/nb/nna/veidemann/robotsparser/RobotsTxt.java:213-220 | "*lit*" matches any string containing lit with no line terminator around it |
| MatchingProperties.UnanchoredPatternMatchesInside | veidemann-robotsevaluator-service/src/test/java/no/nb/nna/veidemann/robotsparser/RobotsTxtTest.java:118-125 | "/*.php" scores 6 on "/folder/any.php.file.html" |
| MatchingProperties.GlobStarSkips | veidemann-robotsevaluator-service/src/main/java/no/nb/nna/veidemann/robotsparser/RobotsTxt.java:213-220 | a leading "*" may skip any prefix without a line terminator |
| MatchingProperties.GlobLeadingStar | veidemann-robotsevaluator-service/src/main/java/no/nb/nna/veidemann/robotsparser/RobotsTxt.java:213-220 | "*rest" matches a text exactly when rest matches some suffix of it and the skipped prefix holds no line terminator |
| MatchingProperties.GlobNeedsLiteralPrefix | veidemann-robotsevaluator-service/src/main/java/no/nb/nna/veidemann/robotsparser/RobotsTxt.java:213-220 | a pattern that starts with a star-free piece never matches a text that does not begin with a fit of it |
| MatchingProperties.GlobConsumesFit | veidemann-robotsevaluator-service/src/main/java/no/nb/nna/veidemann/robotsparser/RobotsTxt.java:214-219 | a star-free piece that fits the start of the text is consumed: the rest of the pattern must match the rest of the text |
| MatchingProperties.GlobFirstStarSplit | veidemann-robotsevaluator-service/src/main/java/no/nb/nna/veidemann/robotsparser/RobotsTxt.java:213-220 | "lit*rest" matches exactly when the text begins with a fit of lit and rest matches the text from some position at or after the end of that fit, with no line terminator in between; applied once per "*", this decides a pattern with any number of "*" as its star-free pieces in order with any one-line text between them |
| MatchingProperties.RefusedIffFirstLongestIsDisallow | veidemann-robotsevaluator-service/src/main/java/no/nb/nna/veidemann/robotsparser/RobotsTxt.java:145-156 | a path is refused exactly when a first-longest matching directive is a Disallow |
| MatchingProperties.LongerAllowBeatsRootDisallow | veidemann-robotsevaluator-service/src/test/java/no/nb/nna/veidemann/robotsparser/RobotsTxtTest.java:50-73 | with "Allow: /p" and "Disallow: /", "/page" is allowed and "/other" is refused |
| Text.Lower | veidemann-robotsevaluator-service/src/main/java/no/nb/nna/veidemann/robotsparser/RobotsTxtParser.java:105-109 | same length; each upper-case ASCII letter is lowered, every other character kept; no upper-case letter remains |
| Text.LowerIdempotent | veidemann-robotsevaluator-service/src/main/java/no/nb/nna/veidemann/robotsparser/RobotsTxtParser.java:105-109 | lower-casing twice equals lower-casing once |
| Text.IntRoundTrip | veidemann-robotsevaluator-service/src/main/java/no/nb/nna/veidemann/robotsparser/RobotsTxtParser.java:88-91 | the decimal text of an int parses back to it |
| Parsing.ErrorTexts | veidemann-robotsevaluator-service/src/main/java/no/nb/nna/veidemann/robotsparser/RobotsTxtParser.java:88-91 | one text per reported error, in order |
| Parsing.ErrorTextsAppend | veidemann-robotsevaluator-service/src/main/java/no/nb/nna/veidemann/robotsparser/RobotsTxtParser.java:88-91 | reporting one more error appends exactly its text to the texts of the earlier ones |
| Parsing.ErrorListener.SyntaxError | veidemann-robotsevaluator-service/src/main/java/no/nb/nna/veidemann/robotsparser/RobotsTxtParser.java:88-91 | appends the error's "line:column: message" text to the document's errors and changes nothing else |
| Parsing.RobotsListener.constructor | veidemann-robotsevaluator-service/src/main/java/no/nb/nna/veidemann/robotsparser/RobotsTxtParser.java:100-102 | the listener writes into the given document and has no open group |
| Parsing.StepLine | veidemann-robotsevaluator-service/src/main/java/no/nb/nna/veidemann/robotsparser/RobotsTxtParser.java:119-169 | a line throws exactly when it faults for the listener's open group (a member line with no group open, or a URL or other non-group field with a type but no value); otherwise the open group stays open or closed, and the errors and source name are unchanged |
| Parsing.Step | veidemann-robotsevaluator-service/src/main/java/no/nb/nna/veidemann/robotsparser/RobotsTxtParser.java:104-177 | only entering a line can throw; leaving an entry closes the group and appends the open one to the document; no event changes the errors or the source name |
| Parsing.RobotsListener.EnterStartGroupLine | veidemann-robotsevaluator-service/src/main/java/no/nb/nna/veidemann/robotsparser/RobotsTxtParser.java:105-109 | returns normally exactly when the model step succeeds (a user-agent line needs an open group) and then leaves the state that step gives |
| Parsing.RobotsListener.EnterEntry | veidemann-robotsevaluator-service/src/main/java/no/nb/nna/veidemann/robotsparser/RobotsTxtParser.java:112-116 | an entry with a start-group line opens a fresh empty group; otherwise nothing changes |
| Parsing.RobotsListener.EnterUrlNonGroupField | veidemann-robotsevaluator-service/src/main/java/no/nb/nna/veidemann/robotsparser/RobotsTxtParser.java:119-128 | a sitemap line adds a sitemap and any other URL field an other field; a missing value throws |
| Parsing.RobotsListener.EnterOtherNonGroupField | veidemann-robotsevaluator-service/src/main/java/no/nb/nna/veidemann/robotsparser/RobotsTxtParser.java:131-135 | adds a lower-cased document field unless type and value are both empty; a missing value throws |
| Parsing.RobotsListener.EnterOtherMemberField | veidemann-robotsevaluator-service/src/main/java/no/nb/nna/veidemann/robotsparser/RobotsTxtParser.java:138-157 | cache-delay and crawl-delay set the group's delay when numeric and are ignored otherwise; other fields are added to the group; a group write without an open group throws |
| Parsing.RobotsListener.EnterPathMemberField | veidemann-robotsevaluator-service/src/main/java/no/nb/nna/veidemann/robotsparser/RobotsTxtParser.java:160-169 | adds an Allow and/or Disallow directive for the path to the open group; without an open group it throws |
| Parsing.RobotsListener.ExitEntry | veidemann-robotsevaluator-service/src/main/java/no/nb/nna/veidemann/robotsparser/RobotsTxtParser.java:172-177 | the open group, if any, is appended to the document and the listener has no open group |
| Parsing.RobotsListener.Deliver | veidemann-robotsevaluator-service/src/main/java/no/nb/nna/veidemann/robotsparser/RobotsTxtParser.java:104-177 | delivering an event succeeds exactly when its model step does, and leaves that step's state |
| Parsing.Parse | veidemann-robotsevaluator-service/src/main/java/no/nb/nna/veidemann/robotsparser/RobotsTxtParser.java:57-78 | returns exactly when the model run of the walk succeeds, with a fresh document equal to the model's; otherwise throws a NullPointerException |
| Parsing.RecordSyntaxErrors | veidemann-robotsevaluator-service/src/main/java/no/nb/nna/veidemann/robotsparser/RobotsTxtParser.java:57-70 | a fresh document named by the source holds, in order, the text of every syntax error reported, and nothing else |
| Parsing.ReportErrors | veidemann-robotsevaluator-service/src/main/java/no/nb/nna/veidemann/robotsparser/RobotsTxtParser.java:88-91 | reporting the errors in order appends their texts, in order, to a document with none yet, and changes nothing else |
| Parsing.WalkEvents | veidemann-robotsevaluator-service/src/main/java/no/nb/nna/veidemann/robotsparser/RobotsTxtParser.java:71-72 | the walk completes exactly when the listener semantics Run does; the listener then holds Run's final state |
| Parsing.Run | veidemann-robotsevaluator-service/src/main/java/no/nb/nna/veidemann/robotsparser/RobotsTxtParser.java:71-72 | a completed walk keeps the errors and source name it started with |
| Parsing.ParseResult | veidemann-robotsevaluator-service/src/main/java/no/nb/nna/veidemann/robotsparser/RobotsTxtParser.java:57-78 | a parse that completes carries every reported syntax error, in order, and the source name it was given |
| Parsing.RunStaysThrown | veidemann-robotsevaluator-service/src/main/java/no/nb/nna/veidemann/robotsparser/RobotsTxtParser.java:70-72 | once a callback throws, the rest of the walk cannot make the parse succeed |
| ParsingProperties.WalkTheorem | veidemann-robotsevaluator-service/src/main/java/no/nb/nna/veidemann/robotsparser/RobotsTxtParser.java:104-177 | the walk of any tree of entries fails exactly when some line faults; otherwise it yields the document that appends every opened group, field and sitemap in order |
| ParsingProperties.ParseOfTree | veidemann-robotsevaluator-service/src/main/java/no/nb/nna/veidemann/robotsparser/RobotsTxtParser.java:57-78 | the parse of a tree's walk is the expected document with the syntax errors, or fails exactly on a fault |
| ParsingProperties.GroupCount | veidemann-robotsevaluator-service/src/main/java/no/nb/nna/veidemann/robotsparser/RobotsTxtParser.java:112-116 | the document has one group per entry that starts with a user-agent line |
| ParsingProperties.LinesEffect | veidemann-robotsevaluator-service/src/main/java/no/nb/nna/veidemann/robotsparser/RobotsTxtParser.java:119-169 | the member lines of an entry extend its group (agents, directives, fields, last numeric delays) or fault |
| ParsingProperties.NonNumericDelayIsIgnored | veidemann-robotsevaluator-service/src/main/java/no/nb/nna/veidemann/robotsparser/RobotsTxtParser.java:138-149 | a non-numeric delay changes nothing, inside or outside a group |
| ParsingProperties.MemberLineOutsideGroupThrows | veidemann-robotsevaluator-service/src/main/java/no/nb/nna/veidemann/robotsparser/RobotsTxtParser.java:105-109 | a path or user-agent line without an open group throws |
| ParsingProperties.ErrorTextRoundTrip | veidemann-robotsevaluator-service/src/main/java/no/nb/nna/veidemann/robotsparser/RobotsTxtParser.java:88-91 | an error text splits back into its line, column and message |
| ParsingProperties.ErrorTextInjective | veidemann-robotsevaluator-service/src/main/java/no/nb/nna/veidemann/robotsparser/RobotsTxtParser.java:88-91 | different syntax errors give different texts |
| Caching.NewCacheKey | veidemann-robotsevaluator-service/src/main/java/no/nb/nna/veidemann/robotsservice/RobotsCache.java:125-133 | a missing port (-1) becomes the scheme's default port; every other field is copied |
| Caching.KeyEquals | veidemann-robotsevaluator-service/src/main/java/no/nb/nna/veidemann/robotsservice/RobotsCache.java:162-186 | two keys are equal exactly when protocol, domain, port and job execution agree; execution and collection ids do not count |
| Caching.RobotsUrl | veidemann-robotsevaluator-service/src/main/java/no/nb/nna/veidemann/robotsservice/RobotsCache.java:76 | the loader's URL is protocol://domain:port/robots.txt: for a protocol without ":" it reads back to exactly the key's protocol, domain and port |
| Caching.AuthorityRoundTrip | veidemann-robotsevaluator-service/src/main/java/no/nb/nna/veidemann/robotsservice/RobotsCache.java:76 | protocol://host:port splits back into its protocol, host and port |
| Caching.HostPortRoundTrip | veidemann-robotsevaluator-service/src/main/java/no/nb/nna/veidemann/robotsservice/RobotsCache.java:76 | host:port splits back at its last ":" into host and port |
| Caching.Wrap32 | veidemann-robotsevaluator-service/src/main/java/no/nb/nna/veidemann/robotsservice/RobotsCache.java:152-159 | the result is a 32-bit int congruent to the input modulo 2^32, and equal to it when it already fits |
| Caching.StringHash | veidemann-robotsevaluator-service/src/main/java/no/nb/nna/veidemann/robotsservice/RobotsCache.java:152-159 | String.hashCode is a 32-bit int |
| Caching.HashCode | veidemann-robotsevaluator-service/src/main/java/no/nb/nna/veidemann/robotsservice/RobotsCache.java:152-159 | CacheKey.hashCode is a 32-bit int |
| Caching.ExpiryFor | veidemann-robotsevaluator-service/src/main/java/no/nb/nna/veidemann/robotsservice/RobotsCache.java:65-74 | a missing value expires now; a loaded one at load time plus 1000 times the ttl in seconds |
| Caching.LoadedDocument | veidemann-robotsevaluator-service/src/main/java/no/nb/nna/veidemann/robotsservice/RobotsCache.java:75-96 | a success response gives exactly the parse of its body named by the robots.txt URL; a document comes only from a success response and carries that URL as its source name |
| Caching.RobotsCache.constructor | veidemann-robotsevaluator-service/src/main/java/no/nb/nna/veidemann/robotsservice/RobotsCache.java:58-98 | a new cache is empty and has its own empty sentinel |
| Caching.RobotsCache.Load | veidemann-robotsevaluator-service/src/main/java/no/nb/nna/veidemann/robotsservice/RobotsCache.java:75-96 | a success response that parses gives a fresh document equal to the parsed one; anything else gives the sentinel |
| Caching.RobotsCache.Get | veidemann-robotsevaluator-service/src/main/java/no/nb/nna/veidemann/robotsservice/RobotsCache.java:100-102 | a live entry is returned and nothing changes; a miss fetches once, stores the loaded document with its expiry and returns it; the result is the sentinel exactly when nothing was loaded |
| Caching.RepeatGet | veidemann-robotsevaluator-service/src/main/java/no/nb/nna/veidemann/robotsservice/RobotsCache.java:100-102 | a second get with an equal key within the ttl returns the same document without a second fetch |
| CachingProperties.EqualKeysHashEqually | veidemann-robotsevaluator-service/src/main/java/no/nb/nna/veidemann/robotsservice/RobotsCache.java:152-186 | equal keys have equal hash codes |
| CachingProperties.KeyIgnoresRequestDetails | veidemann-robotsevaluator-service/src/main/java/no/nb/nna/veidemann/robotsservice/RobotsCache.java:161-186 | ttl, execution id and collection id do not separate keys |
| CachingProperties.JobExecutionsAreSeparate | veidemann-robotsevaluator-service/src/main/java/no/nb/nna/veidemann/robotsservice/RobotsCache.java:161-186 | different job executions never share an entry |
| CachingProperties.DefaultPortIsExplicitPort | veidemann-robotsevaluator-service/src/main/java/no/nb/nna/veidemann/robotsservice/RobotsCache.java:128 | a URI without a port and one naming the default port share an entry |
| CachingProperties.LoadedEntryLiveWindow | veidemann-robotsevaluator-service/src/main/java/no/nb/nna/veidemann/robotsservice/RobotsCache.java:65-74 | a loaded entry is live exactly before load time plus the ttl |
| CachingProperties.NonPositiveTtlNeverServes | veidemann-robotsevaluator-service/src/main/java/no/nb/nna/veidemann/robotsservice/RobotsCache.java:65-74 | with ttl ≤ 0 a loaded entry is never served |
| CachingProperties.UnsuccessfulFetchIsSentinel | veidemann-robotsevaluator-service/src/main/java/no/nb/nna/veidemann/robotsservice/RobotsCache.java:84-95 | a failed fetch or non-success status stores the sentinel |
| Service.EffectiveTtl | veidemann-robotsevaluator-service/src/main/java/no/nb/nna/veidemann/robotsservice/RobotsService.java:59-62 | a zero validity becomes 300 seconds; any other value is kept |
| Service.Evaluate | veidemann-robotsevaluator-service/src/main/java/no/nb/nna/veidemann/robotsservice/RobotsService.java:65-94 | OBEY_ROBOTS (and classic) answers the loaded document's decision, or the empty allowed reply for the missing-robots sentinel; IGNORE_ROBOTS and an unrecognized policy answer the empty allowed reply; CUSTOM_ROBOTS (and classic) answers from the parse of the custom text; CUSTOM_IF_MISSING (and classic) answers from the custom text for the sentinel and like OBEY_ROBOTS for a loaded document; an error always carries the NullPointerException of a throwing parse |
| Service.RobotsService.IsAllowed | veidemann-robotsevaluator-service/src/main/java/no/nb/nna/veidemann/robotsservice/RobotsService.java:50-103 | a URI that does not parse gives its error and leaves the cache alone; otherwise the response is the policy's answer for what the cache held; the non-cache policies leave the cache unchanged; under a cache policy a live entry leaves entries and fetch log unchanged, and a miss appends the key to the fetch log and stores, under the key's identity, the loaded document (the sentinel exactly when the fetch gave no document) with the loader's expiry |
| Service.RobotsService.Custom | veidemann-robotsevaluator-service/src/main/java/no/nb/nna/veidemann/robotsservice/RobotsService.java:74-78 | the reply of the parsed custom robots.txt, or the parse's error |
| ServiceProperties.ClassicVariantsAgree | veidemann-robotsevaluator-service/src/main/java/no/nb/nna/veidemann/robotsservice/RobotsService.java:65-88 | each classic policy answers as its plain counterpart |
| ServiceProperties.CustomIgnoresCache | veidemann-robotsevaluator-service/src/main/java/no/nb/nna/veidemann/robotsservice/RobotsService.java:74-78 | the custom policy does not depend on the cache |
| ServiceProperties.CustomIfMissingChoosesBySentinel | veidemann-robotsevaluator-service/src/main/java/no/nb/nna/veidemann/robotsservice/RobotsService.java:79-88 | custom-if-missing uses the custom text exactly when the cache gives the sentinel |
| ServiceProperties.EmptyFetchedRobotsIsNotMissing | veidemann-robotsevaluator-service/src/main/java/no/nb/nna/veidemann/robotsservice/RobotsService.java:82-87 | an empty but fetched robots.txt is not replaced by the custom one |
| ServiceProperties.ErrorOnlyFromCustomParse | veidemann-robotsevaluator-service/src/main/java/no/nb/nna/veidemann/robotsservice/RobotsService.java:65-102 | given what the cache returns, a response is an error exactly when the policy reads the custom text and its parse throws |

## Left out

- The ANTLR lexer and grammar: the model takes the walk's events and the reported syntax errors as its input.
- UserAgentParser: the service gets it as a function parameter. The same applies to `java.net.URL` parsing, whose failure is an exception outcome.
- The HTTP client: OkHttp, TLS trust, proxy and request headers. The fetch outcome is a parameter. The ghost `fetches` log only records that a fetch happened.
- cache2k's concurrency, single-flight loading and capacity eviction: the cache is a single-threaded map.
- Clocks: the current time is a parameter.
- Floating point: delays are `real`, and `Float.parseFloat` is the parse input's optional number.
- Java regular expressions: only '*' (any text without a line terminator), '.' (any one character but a line terminator: \n, \r, U+0085, U+2028, U+2029) and a final '$' are special in a pattern. Other metacharacters (such as '?', '+', '(' and '[') are literal, and so is a '$' before the end. A `PatternSyntaxException` from an unusual path is not modelled.
- Text.Lower: lowers ASCII letters only, not Unicode.
- Caching.StringHash: hashes chars, not UTF-16 code units.
- Matching.UaScore: counts chars, not UTF-16 code units, so an agent or token outside the Basic Multilingual Plane scores differently from `String.length()` and `charAt`.
- Matching.ComparePath: the score is the path length in chars, not UTF-16 code units.
- Caching.ExpiryFor: does not model `long` overflow of the expiry.
- The directive's back-reference to its group.
- Aliasing of the group the listener appends: the document stores a snapshot, and no later write is observable in the source.
- The expiry policy's null-value branch: the loader never returns null, so only that branch's result `Now` is modelled.
- `Objects.requireNonNull` checks, logging, gRPC status wrapping and the response observer.
- The text of the NullPointerException message: the model only records that a NullPointerException was thrown.
- Caching.RobotsCache.Load: does not model the exception the loader can throw before its try (RobotsCache.java:76-83), when OkHttp rejects the URL (a scheme other than http or https) or a header value. In the source that exception escapes `cache.get`, and under the cache policies the service answers with an error.
