/**
 * The build and search parameter objects and the positional strings they are
 * rendered to for the engine (`IndexBuildParams`, `IndexSearchParams`).
 */
module Params {
  import opened Wrappers
  import opened Text

  /** The metric name the engine understands: "l2" stays "l2", everything else
      (including "inner_product" and unknown names) becomes "mips". */
  function MetricName(metric: string): (r: string)
    ensures r == "l2" || r == "mips"
    ensures r == "l2" <==> metric == "l2"
  {
    if metric == "l2" then "l2" else "mips"
  }

  /**
   * `IndexBuildParams` after construction. `B` and `M` are the memory budgets in
   * gigabytes, kept as their already-rendered decimal text; `pqDiskType` is the
   * `store_compressed` flag.
   */
  datatype BuildParams = BuildParams(metric: string, R: int, L: int, B: Token, M: Token, T: int, pqDiskType: bool)

  /** `IndexBuildParams.__init__`, with the same defaults. */
  function NewBuildParams(metric: string := "inner_product", graphDegree: int := 100,
                          searchListSize: int := 150, maxMemSearch: Token := "0.3",
                          maxMemBuild: Token := "0.5", numThreads: int := 32,
                          storeCompressed: bool := false): (p: BuildParams)
    ensures p.metric == MetricName(metric)
    ensures p.R == graphDegree && p.L == searchListSize && p.T == numThreads
    ensures p.B == maxMemSearch && p.M == maxMemBuild && p.pqDiskType == storeCompressed
  {
    BuildParams(MetricName(metric), graphDegree, searchListSize, maxMemSearch, maxMemBuild, numThreads, storeCompressed)
  }

  /** The fields of the build string, in the engine's positional order. */
  function BuildFields(p: BuildParams): seq<string>
  {
    [IntToString(p.R), IntToString(p.L), p.B, p.M, IntToString(p.T)]
  }

  /** `IndexBuildParams.__str__`: "R L B M T"; neither the metric nor the
      compression flag is rendered. */
  function BuildParamsString(p: BuildParams): string
  {
    Join(BuildFields(p))
  }

  /** `IndexSearchParams` (its constructor only stores its arguments). */
  datatype SearchParams = SearchParams(numNodesToCache: int, numThreads: int, beamWidth: int, L: int)

  const DefaultSearchParams := SearchParams(200000, 10, 4, 20)

  function SearchFields(p: SearchParams): seq<string>
  {
    [IntToString(p.numNodesToCache), IntToString(p.numThreads), IntToString(p.beamWidth), IntToString(p.L)]
  }

  /** `IndexSearchParams.__str__`: "cache threads beam L". */
  function SearchParamsString(p: SearchParams): string
  {
    Join(SearchFields(p))
  }

  /** The engine, reading the build string field by field, recovers R, L and T
      exactly and receives B and M as written; there are exactly five fields. */
  lemma BuildStringReadBack(p: BuildParams)
    ensures Split(BuildParamsString(p)) == [IntToString(p.R), IntToString(p.L), p.B, p.M, IntToString(p.T)]
    ensures ParseInt(Split(BuildParamsString(p))[0]) == Some(p.R)
    ensures ParseInt(Split(BuildParamsString(p))[1]) == Some(p.L)
    ensures Split(BuildParamsString(p))[2] == p.B && Split(BuildParamsString(p))[3] == p.M
    ensures ParseInt(Split(BuildParamsString(p))[4]) == Some(p.T)
  {
    SplitJoin(BuildFields(p));
    IntRoundTrip(p.R);
    IntRoundTrip(p.L);
    IntRoundTrip(p.T);
  }

  /** The engine, reading the search string, recovers all four fields, in order. */
  lemma SearchStringReadBack(p: SearchParams)
    ensures Split(SearchParamsString(p)) ==
      [IntToString(p.numNodesToCache), IntToString(p.numThreads), IntToString(p.beamWidth), IntToString(p.L)]
    ensures ParseInt(Split(SearchParamsString(p))[0]) == Some(p.numNodesToCache)
    ensures ParseInt(Split(SearchParamsString(p))[1]) == Some(p.numThreads)
    ensures ParseInt(Split(SearchParamsString(p))[2]) == Some(p.beamWidth)
    ensures ParseInt(Split(SearchParamsString(p))[3]) == Some(p.L)
  {
    SplitJoin(SearchFields(p));
    IntRoundTrip(p.numNodesToCache);
    IntRoundTrip(p.numThreads);
    IntRoundTrip(p.beamWidth);
    IntRoundTrip(p.L);
  }

  /** The build string is a function of R, L, B, M and T alone: two parameter
      objects that agree on those render identically, whatever their metric and
      compression flag; objects that differ in any of the five render differently. */
  lemma BuildStringDeterminedByFiveFields(p: BuildParams, q: BuildParams)
    ensures BuildParamsString(p) == BuildParamsString(q) <==>
      (p.R, p.L, p.B, p.M, p.T) == (q.R, q.L, q.B, q.M, q.T)
  {
    if BuildParamsString(p) == BuildParamsString(q) {
      BuildStringReadBack(p);
      BuildStringReadBack(q);
    }
  }

  /** The search string determines the search parameters. */
  lemma SearchStringInjective(p: SearchParams, q: SearchParams)
    ensures SearchParamsString(p) == SearchParamsString(q) <==> p == q
  {
    if SearchParamsString(p) == SearchParamsString(q) {
      SearchStringReadBack(p);
      SearchStringReadBack(q);
    }
  }

  /** The decimal renderings the default parameters need. */
  lemma DefaultRenderings()
    ensures IntToString(100) == "100" && IntToString(150) == "150" && IntToString(32) == "32"
  {
    assert NatToString(10) == NatToString(1) + [DigitChar(0)] == "10";
    assert NatToString(100) == NatToString(10) + [DigitChar(0)] == "100";
    assert NatToString(15) == NatToString(1) + [DigitChar(5)] == "15";
    assert NatToString(150) == NatToString(15) + [DigitChar(0)] == "150";
    assert NatToString(32) == NatToString(3) + [DigitChar(2)] == "32";
  }

  /** With the default numbers the build string is "100 150 0.3 0.5 32", whatever the metric. */
  lemma DefaultBuildString(metric: string)
    ensures BuildParamsString(NewBuildParams(metric := metric)) == "100 150 0.3 0.5 32"
  {
    DefaultRenderings();
    assert BuildFields(NewBuildParams(metric := metric)) == ["100", "150", "0.3", "0.5", "32"];
    JoinFive("100", "150", "0.3", "0.5", "32");
    DefaultBuildText();
  }

  lemma DefaultBuildText()
    ensures "100" + " " + "150" + " " + "0.3" + " " + "0.5" + " " + "32" == "100 150 0.3 0.5 32"
  {
  }

  /** The documented example build (defaults, metric "l2") hands the engine
      "100 150 0.3 0.5 32" and "l2"; with no metric given it is "mips". */
  lemma DefaultBuildExample()
    ensures BuildParamsString(NewBuildParams(metric := "l2")) == "100 150 0.3 0.5 32"
    ensures NewBuildParams(metric := "l2").metric == "l2"
    ensures NewBuildParams().metric == "mips"
  {
    DefaultBuildString("l2");
  }
}
