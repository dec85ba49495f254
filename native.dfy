/**
 * The native engine as the library sees it: two entry points whose effects are
 * unknown. An `Engine` value is any pair of behaviours, one per entry point,
 * each a function from the call's arguments and the filesystem to a status code
 * and the files it writes; every property proved for the library holds for all
 * such engines. The engine may create or overwrite files, never delete them.
 */
module Native {
  import opened Text
  import opened Params
  import opened Files

  /** The arguments of the engine's `build_index` entry point. */
  datatype BuildCall = BuildCall(vecFile: Path, indexPath: Path, metric: string, params: string)

  /** The arguments of the engine's `search_index` entry point. */
  datatype SearchCall = SearchCall(indexPath: Path, metric: string, queryFile: Path,
                                   resultPrefix: Path, params: string, k: nat)

  /** What one engine call did: its status code and the files it wrote. */
  datatype Run = Run(status: int, written: FileMap)

  datatype Engine = Engine(build: (BuildCall, FileMap) -> Run, search: (SearchCall, FileMap) -> Run)

  /** The filesystem after a run: written files replace or join the old ones. */
  function Apply(files: FileMap, run: Run): (r: FileMap)
    ensures r.Keys == files.Keys + run.written.Keys
    ensures forall p :: p in r ==> r[p] == if p in run.written then run.written[p] else files[p]
  {
    files + run.written
  }

  datatype Metric = L2 | InnerProduct

  /** How the engine reads the metric string: "mips" is inner product, anything else L2. */
  function EngineMetric(s: string): (m: Metric)
    ensures m == InnerProduct <==> s == "mips"
  {
    if s == "mips" then InnerProduct else L2
  }

  /** A build parameter object's metric reaches the engine as the metric asked
      for: "l2" as L2 and every other name as inner product. */
  lemma BuildMetricReachesEngine(metric: string)
    ensures EngineMetric(NewBuildParams(metric).metric) == if metric == "l2" then L2 else InnerProduct
  {
  }

  /** Result file of a search with list size `L`: `prefix + "_" + L + suffix`,
      the name the engine saves under. */
  function ResultPath(prefix: Path, L: int, suffix: string): Path
  {
    prefix + "_" + IntToString(L) + suffix
  }

  function IdsPath(prefix: Path, L: int): Path { ResultPath(prefix, L, "_idx_uint32.bin") }

  function DistsPath(prefix: Path, L: int): Path { ResultPath(prefix, L, "_dists_float.bin") }

  /** The ids file and the distances file never share a name, and each name
      determines the list size it was derived from. */
  lemma ResultPathsDistinct(prefix: Path, L: int, L': int)
    ensures IdsPath(prefix, L) != DistsPath(prefix, L')
    ensures IdsPath(prefix, L) == IdsPath(prefix, L') <==> L == L'
    ensures DistsPath(prefix, L) == DistsPath(prefix, L') <==> L == L'
  {
    SuffixDeterminesL(prefix, L, L', "_idx_uint32.bin");
    SuffixDeterminesL(prefix, L, L', "_dists_float.bin");
    EndsDiffer(prefix + "_" + IntToString(L), "_idx_uint32.bin",
               prefix + "_" + IntToString(L'), "_dists_float.bin", 15);
  }

  /** Two strings differ when their endings differ at the same distance from the end. */
  lemma EndsDiffer(x: string, sx: string, y: string, sy: string, k: nat)
    requires 0 < k <= |sx| && k <= |sy|
    requires sx[|sx| - k] != sy[|sy| - k]
    ensures x + sx != y + sy
  {
    var a, b := x + sx, y + sy;
    assert a[|a| - k] == sx[|sx| - k];
    assert b[|b| - k] == sy[|sy| - k];
  }

  lemma SuffixDeterminesL(prefix: Path, L: int, L': int, suffix: string)
    ensures ResultPath(prefix, L, suffix) == ResultPath(prefix, L', suffix) <==> L == L'
  {
    var x, y := IntToString(L), IntToString(L');
    var a, b := ResultPath(prefix, L, suffix), ResultPath(prefix, L', suffix);
    if a == b {
      assert |x| == |y|;
      assert x == a[|prefix| + 1..|prefix| + 1 + |x|];
      assert y == b[|prefix| + 1..|prefix| + 1 + |y|];
      IntToStringInjective(L, L');
    }
  }
}
