/** Properties of the policy dispatch. */
module ServiceProperties {
  import opened Wrappers
  import opened Matching
  import opened Parsing
  import opened Caching
  import opened Service

  /** The "classic" variant of each policy answers exactly as the plain one does. */
  lemma ClassicVariantsAgree(customRobots: ParseInput, agent: string, path: string, seen: CachedDocument)
    ensures Evaluate(ObeyRobotsClassic, customRobots, agent, path, seen) == Evaluate(ObeyRobots, customRobots, agent, path, seen)
    ensures Evaluate(CustomRobotsClassic, customRobots, agent, path, seen) == Evaluate(CustomRobots, customRobots, agent, path, seen)
    ensures Evaluate(CustomIfMissingClassic, customRobots, agent, path, seen) == Evaluate(CustomIfMissing, customRobots, agent, path, seen)
  {
  }

  /** CUSTOM_ROBOTS never looks at what the cache holds. */
  lemma CustomIgnoresCache(customRobots: ParseInput, agent: string, path: string, seen1: CachedDocument, seen2: CachedDocument)
    ensures Evaluate(CustomRobots, customRobots, agent, path, seen1) == Evaluate(CustomRobots, customRobots, agent, path, seen2)
  {
  }

  /** CUSTOM_IF_MISSING: the custom text when the cache holds the sentinel, the site's own document otherwise. */
  lemma CustomIfMissingChoosesBySentinel(customRobots: ParseInput, agent: string, path: string, seen: CachedDocument)
    ensures seen.Sentinel? ==>
      Evaluate(CustomIfMissing, customRobots, agent, path, seen) == Evaluate(CustomRobots, customRobots, agent, path, seen)
    ensures seen.Loaded? ==>
      Evaluate(CustomIfMissing, customRobots, agent, path, seen) == Evaluate(ObeyRobots, customRobots, agent, path, seen)
  {
  }

  /**
   * A fetched robots.txt without groups is not missing: CUSTOM_IF_MISSING
   * then allows everything, whatever the custom text says.
   */
  lemma EmptyFetchedRobotsIsNotMissing(customRobots: ParseInput, agent: string, path: string, sourceName: string)
    ensures Evaluate(CustomIfMissing, customRobots, agent, path, Loaded(EmptyDocument(sourceName))) == Next(EmptyAllowedReply)
  {
    assert FindMatchingDirectives(EmptyDocument(sourceName).groups, agent).None? by {
      assert GroupScores([], agent) == [];
    }
  }

  /**
   * Given what the cache returns, the only error a request with a parseable
   * URI can get is the custom text's parse throwing, under a policy that
   * parses it. (An exception escaping the cache itself is not modelled.)
   */
  lemma ErrorOnlyFromCustomParse(policy: RobotsPolicy, customRobots: ParseInput, agent: string, path: string, seen: CachedDocument)
    ensures Evaluate(policy, customRobots, agent, path, seen).Error? <==>
      && ParseResult(customRobots, CustomSourceName).None?
      && (policy.CustomRobots? || policy.CustomRobotsClassic?
          || ((policy.CustomIfMissing? || policy.CustomIfMissingClassic?) && seen.Sentinel?))
  {
  }
}
