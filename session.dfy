/**
 * The index session (`DiskANN`): it writes vectors and queries to temporary
 * files, calls the engine, and reads the engine's result files back.
 *
 * The state-changing operations are methods of the class `DiskANN` over a
 * `FileSystem` object; each is tied by its postcondition to a function of the
 * old state (`LoadSpec`, `BuildSpec`, `SearchSpec`), and the file lifecycle is
 * proved about those functions.
 */
module Session {
  import opened Wrappers
  import opened Text
  import opened Codec
  import opened Params
  import opened Files
  import opened Native

  /** The fixed prefix under which the engine is told to write search results. */
  const QueryPrefix: Path := "/tmp/query_res"

  /** `[(a, b) for a, b in zip(xs, ys)]`: pairs in order, as long as the shorter input. */
  function Zip<A, B>(xs: seq<A>, ys: seq<B>): (r: seq<(A, B)>)
    ensures |r| == if |xs| < |ys| then |xs| else |ys|
    ensures forall i :: 0 <= i < |r| ==> r[i] == (xs[i], ys[i])
  {
    if xs == [] || ys == [] then [] else [(xs[0], ys[0])] + Zip(xs[1..], ys[1..])
  }

  // ---------------------------------------------------------------------------
  // The state transitions, as functions of the filesystem before the call

  /** `load_query_results(path, k)`: the result, and the files afterwards. */
  function LoadSpec(files: FileMap, path: Path, k: nat): (Result<seq<Word>, Error>, FileMap)
  {
    if path !in files then (Failure(FileNotFound(path)), files)
    else match Decode(files[path], k)
      case None => (Failure(StructError(path)), files)
      case Some(v) => (Success(v), files - {path})
  }

  /** The arguments `build_disk_index` hands to the engine. */
  function BuildCallOf(vecFile: Path, indexPath: Path, p: BuildParams): BuildCall
  {
    BuildCall(vecFile, indexPath, p.metric, BuildParamsString(p))
  }

  /** What the engine does when `build_disk_index` calls it. */
  function BuildRun(files: FileMap, engine: Engine, indexPath: Path, vecs: Matrix,
                    params: Option<BuildParams>, tmp: Path): Run
  {
    engine.build(BuildCallOf(tmp, indexPath, params.GetOr(NewBuildParams())), files[tmp := EncodeMatrix(vecs)])
  }

  /** `build_disk_index`: the engine's status, and the files afterwards. */
  function BuildSpec(files: FileMap, engine: Engine, indexPath: Path, vecs: Matrix,
                     params: Option<BuildParams>, tmp: Path): (int, FileMap)
  {
    var run := BuildRun(files, engine, indexPath, vecs, params, tmp);
    (run.status, Apply(files[tmp := EncodeMatrix(vecs)], run))
  }

  /** The arguments `search_disk_index` hands to the engine. */
  function SearchCallOf(indexPath: Path, metric: string, queryFile: Path, p: SearchParams, k: nat): SearchCall
  {
    SearchCall(indexPath, metric, queryFile, QueryPrefix, SearchParamsString(p), k)
  }

  /** What the engine does when `search_disk_index` calls it with index path `indexPath`. */
  function SearchRun(files: FileMap, engine: Engine, indexPath: Path, metric: string,
                     query: Matrix, k: nat, params: Option<SearchParams>, tmp: Path): Run
  {
    var saved := files[tmp := EncodeMatrix(query)];
    engine.search(SearchCallOf(indexPath, metric, tmp, params.GetOr(DefaultSearchParams), k), saved)
  }

  /** `search_disk_index`: the pairs returned (or the error raised), and the files afterwards. */
  function SearchSpec(files: FileMap, engine: Engine, indexPath: Option<Path>, metric: string,
                      query: Matrix, k: nat, params: Option<SearchParams>, tmp: Path)
    : (Result<seq<(Word, Word)>, Error>, FileMap)
  {
    var saved := files[tmp := EncodeMatrix(query)];
    var p := params.GetOr(DefaultSearchParams);
    if indexPath.None? then (Failure(NoIndexPath), saved)
    else
      CollectResults(Apply(saved, SearchRun(files, engine, indexPath.value, metric, query, k, params, tmp)), p.L, k, tmp)
  }

  /** The part of `search_disk_index` after the engine has run on `searched`: load
      the ids, then the distances, then remove the query file `tmp`. */
  function CollectResults(searched: FileMap, L: int, k: nat, tmp: Path): (Result<seq<(Word, Word)>, Error>, FileMap)
  {
    var ids := LoadSpec(searched, IdsPath(QueryPrefix, L), k);
    if ids.0.Failure? then (Failure(ids.0.error), ids.1)
    else
      var dists := LoadSpec(ids.1, DistsPath(QueryPrefix, L), k);
      if dists.0.Failure? then (Failure(dists.0.error), dists.1)
      else if tmp !in dists.1 then (Failure(FileNotFound(tmp)), dists.1)
      else (Success(Zip(ids.0.value, dists.0.value)), dists.1 - {tmp})
  }

  // ---------------------------------------------------------------------------
  // The session object

  class DiskANN {
    const libPath: Path
    /** `self.handle`: the loaded engine library. */
    const engine: Engine
    /** `self.sizeof_uint`: bytes per element of a result file. */
    const sizeofUint: nat := 4
    /** `self.index_path`, absent until given to the constructor or set by a build. */
    var indexPath: Option<Path>
    var metric: string

    constructor (libPath: Path, engine: Engine, indexPath: Option<Path> := None, metric: string := "mips")
      ensures this.libPath == libPath && this.engine == engine
      ensures this.indexPath == indexPath && this.metric == metric
    {
      this.libPath := libPath;
      this.engine := engine;
      this.indexPath := indexPath;
      this.metric := metric;
    }

    /** `save_bin_file`: writes `vecs` to the fresh temporary file `tmp`, row by row,
        and returns its name. */
    method SaveBinFile(fs: FileSystem, vecs: Matrix, tmp: Path) returns (name: Path)
      requires tmp !in fs.files
      modifies fs
      ensures name == tmp
      ensures fs.files == old(fs.files)[tmp := EncodeMatrix(vecs)]
      ensures fs.dirs == old(fs.dirs)
    {
      var header := EncodeHeader(|vecs.rows|, vecs.cols);
      fs.files := fs.files[tmp := header];
      var written := header;
      for i := 0 to |vecs.rows|
        invariant written == header + Flatten(RowMajor(vecs.rows[..i]))
        modifies {}
      {
        EncodeRowsStep(header, vecs.rows, i);
        written := written + Flatten(vecs.rows[i]);
      }
      fs.files := fs.files[tmp := written];
      assert vecs.rows[..|vecs.rows|] == vecs.rows;
      name := tmp;
    }

    /** `load_query_results`: reads the file's rows and removes the file once
        every row has been read. */
    method LoadQueryResults(fs: FileSystem, path: Path, k: nat) returns (r: Result<seq<Word>, Error>)
      modifies fs
      ensures (r, fs.files) == LoadSpec(old(fs.files), path, k)
      ensures fs.dirs == old(fs.dirs)
    {
      if path !in fs.files {
        return Failure(FileNotFound(path));
      }
      var rows := ReadRows(fs.files[path], k);
      if rows.None? {
        return Failure(StructError(path));
      }
      fs.files := fs.files - {path};
      r := Success(rows.value);
    }

    /** The reading part of `load_query_results`: the header's `num_entries`, then
        that many rows of `k` elements; a read cut short is a `struct.error`. */
    method ReadRows(data: seq<Byte>, k: nat) returns (r: Option<seq<Word>>)
      ensures r == Decode(data, k)
    {
      if |data| < 8 {
        return None;
      }
      var numEntries := ReadInt32(data, 0);
      var dims := ReadInt32(data, 4);
      var width := k * sizeofUint;
      assert width == 4 * k;
      var res: seq<Word> := [];
      var pos := 8;
      var i := 0;
      while i < numEntries
        invariant 0 <= i <= DeclaredRows(data)
        invariant pos == 8 + PayloadSize(i, k) <= |data|
        invariant res == Unflatten(data[8..pos])
      {
        var chunk := data[pos..if pos + width <= |data| then pos + width else |data|];
        if |chunk| != width {
          ShortRowFails(data, k, i);
          return None;
        }
        ReadRowStep(data, k, i, pos);
        res := res + Unflatten(chunk);
        pos := pos + width;
        i := i + 1;
      }
      ReadAllRows(data, k, i);
      r := Some(res);
    }

    /** `build_disk_index`: creates the index's parent directory, writes the
        vectors to `tmp`, records the index path and metric in the session, and
        calls the engine, returning its status. */
    method BuildDiskIndex(fs: FileSystem, indexPath: Path, vecs: Matrix,
                          params: Option<BuildParams>, tmp: Path) returns (status: int)
      requires tmp !in fs.files
      modifies this, fs
      ensures this.indexPath == Some(indexPath)
      ensures this.metric == params.GetOr(NewBuildParams()).metric
      ensures (status, fs.files) == BuildSpec(old(fs.files), engine, indexPath, vecs, params, tmp)
      ensures fs.dirs == old(fs.dirs) + {Parent(indexPath)}
    {
      fs.dirs := fs.dirs + {Parent(indexPath)};
      var vecBinPath := SaveBinFile(fs, vecs, tmp);
      this.indexPath := Some(indexPath);
      var p := if params.None? then NewBuildParams() else params.value;
      this.metric := p.metric;
      var run := engine.build(BuildCall(vecBinPath, indexPath, p.metric, BuildParamsString(p)), fs.files);
      fs.files := Apply(fs.files, run);
      status := run.status;
    }

    /** `search_disk_index`: writes the queries to `tmp`, calls the engine, decodes
        the two result files named after `L`, removes the query file and returns
        the (id, distance) pairs. */
    method SearchDiskIndex(fs: FileSystem, query: Matrix, k: nat, params: Option<SearchParams>, tmp: Path)
      returns (r: Result<seq<(Word, Word)>, Error>)
      requires tmp !in fs.files
      modifies fs
      ensures (r, fs.files) == SearchSpec(old(fs.files), engine, indexPath, metric, query, k, params, tmp)
      ensures fs.dirs == old(fs.dirs)
    {
      var queryFilePath := SaveBinFile(fs, query, tmp);
      var resPrefix := QueryPrefix;
      var p := if params.None? then DefaultSearchParams else params.value;
      if indexPath.None? {
        return Failure(NoIndexPath);
      }
      var run := engine.search(SearchCall(indexPath.value, metric, queryFilePath, resPrefix, SearchParamsString(p), k), fs.files);
      fs.files := Apply(fs.files, run);
      var idsPath := IdsPath(resPrefix, p.L);
      var distsPath := DistsPath(resPrefix, p.L);
      var resIds := LoadQueryResults(fs, idsPath, k);
      if resIds.Failure? {
        return Failure(resIds.error);
      }
      var dists := LoadQueryResults(fs, distsPath, k);
      if dists.Failure? {
        return Failure(dists.error);
      }
      if queryFilePath !in fs.files {
        return Failure(FileNotFound(queryFilePath));
      }
      fs.files := fs.files - {queryFilePath};
      r := Success(Zip(resIds.value, dists.value));
    }
  }

  // ---------------------------------------------------------------------------
  // Properties of the session

  /** Decoding is destructive, and only on success: a successful read removes the
      file, so reading the same path again fails with not-found; a failed read
      (missing or short file) leaves the files as they were. */
  lemma LoadConsumesOnlyOnSuccess(files: FileMap, path: Path, k: nat, k': nat)
    ensures LoadSpec(files, path, k).0.Success? <==> path in files && Decode(files[path], k).Some?
    ensures LoadSpec(files, path, k).0.Success? ==>
      LoadSpec(files, path, k).1 == files - {path} &&
      LoadSpec(LoadSpec(files, path, k).1, path, k').0 == Failure(FileNotFound(path))
    ensures LoadSpec(files, path, k).0.Failure? ==> LoadSpec(files, path, k).1 == files
  {
  }

  /** A result file whose header declares zero or fewer rows reads as an empty
      list, and the file is removed as after any successful read. */
  lemma LoadNonPositiveRows(files: FileMap, path: Path, k: nat)
    requires path in files && 8 <= |files[path]| && ReadInt32(files[path], 0) <= 0
    ensures LoadSpec(files, path, k) == (Success([]), files - {path})
  {
    NonPositiveRows(files[path], k);
  }

  /** A build leaves its temporary vector file behind: the file exists afterwards
      and, unless the engine overwrote it, still holds the encoded vectors. Files
      the engine did not write are untouched. */
  lemma BuildLeavesVectorFile(files: FileMap, engine: Engine, indexPath: Path, vecs: Matrix,
                              params: Option<BuildParams>, tmp: Path)
    ensures tmp in BuildSpec(files, engine, indexPath, vecs, params, tmp).1
    ensures tmp !in BuildRun(files, engine, indexPath, vecs, params, tmp).written ==>
      BuildSpec(files, engine, indexPath, vecs, params, tmp).1[tmp] == EncodeMatrix(vecs)
    ensures forall q :: q in files && q != tmp && q !in BuildRun(files, engine, indexPath, vecs, params, tmp).written ==>
      q in BuildSpec(files, engine, indexPath, vecs, params, tmp).1 &&
      BuildSpec(files, engine, indexPath, vecs, params, tmp).1[q] == files[q]
  {
  }

  /** Without parameters a build asks the engine for metric "mips" and the
      parameter string "100 150 0.3 0.5 32". */
  lemma BuildWithDefaults(vecFile: Path, indexPath: Path)
    ensures BuildCallOf(vecFile, indexPath, NewBuildParams()) == BuildCall(vecFile, indexPath, "mips", "100 150 0.3 0.5 32")
  {
    DefaultBuildString("inner_product");
  }

  /** The temporary query file is removed exactly when the search succeeds: every
      failure (no index path, a missing or short result file) leaks it. This holds
      whenever its name differs from the two result names. */
  lemma SearchQueryFileLifecycle(files: FileMap, engine: Engine, indexPath: Option<Path>, metric: string,
                                 query: Matrix, k: nat, params: Option<SearchParams>, tmp: Path)
    requires tmp != IdsPath(QueryPrefix, params.GetOr(DefaultSearchParams).L)
    requires tmp != DistsPath(QueryPrefix, params.GetOr(DefaultSearchParams).L)
    ensures SearchSpec(files, engine, indexPath, metric, query, k, params, tmp).0.Success? <==>
      tmp !in SearchSpec(files, engine, indexPath, metric, query, k, params, tmp).1
  {
    if indexPath.Some? {
      var saved := files[tmp := EncodeMatrix(query)];
      var searched := Apply(saved, SearchRun(files, engine, indexPath.value, metric, query, k, params, tmp));
      CollectLifecycle(searched, params.GetOr(DefaultSearchParams).L, k, tmp);
    }
  }

  /** Collecting the results removes the query file exactly when it succeeds. */
  lemma CollectLifecycle(searched: FileMap, L: int, k: nat, tmp: Path)
    requires tmp in searched && tmp != IdsPath(QueryPrefix, L) && tmp != DistsPath(QueryPrefix, L)
    ensures CollectResults(searched, L, k, tmp).0.Success? <==> tmp !in CollectResults(searched, L, k, tmp).1
  {
    var ids := LoadSpec(searched, IdsPath(QueryPrefix, L), k);
    assert tmp in ids.1;
    if ids.0.Success? {
      var dists := LoadSpec(ids.1, DistsPath(QueryPrefix, L), k);
      assert tmp in dists.1;
    }
  }

  /** A successful search consumes both result files and the query file and
      changes nothing else the engine left behind. */
  lemma SearchConsumesResultFiles(files: FileMap, engine: Engine, indexPath: Path, metric: string,
                                  query: Matrix, k: nat, params: Option<SearchParams>, tmp: Path)
    requires SearchSpec(files, engine, Some(indexPath), metric, query, k, params, tmp).0.Success?
    ensures SearchSpec(files, engine, Some(indexPath), metric, query, k, params, tmp).1 ==
      Apply(files[tmp := EncodeMatrix(query)], SearchRun(files, engine, indexPath, metric, query, k, params, tmp))
        - {IdsPath(QueryPrefix, params.GetOr(DefaultSearchParams).L),
           DistsPath(QueryPrefix, params.GetOr(DefaultSearchParams).L), tmp}
  {
    var L := params.GetOr(DefaultSearchParams).L;
    var searched := Apply(files[tmp := EncodeMatrix(query)], SearchRun(files, engine, indexPath, metric, query, k, params, tmp));
    CollectConsumes(searched, L, k, tmp);
  }

  /** Collecting the results successfully removes exactly the two result files and
      the query file. */
  lemma CollectConsumes(searched: FileMap, L: int, k: nat, tmp: Path)
    requires CollectResults(searched, L, k, tmp).0.Success?
    ensures CollectResults(searched, L, k, tmp).1 == searched - {IdsPath(QueryPrefix, L), DistsPath(QueryPrefix, L), tmp}
  {
    ResultPathsDistinct(QueryPrefix, L, L);
  }

  /** The engine wrote `ids` and `dists` under the two names derived from `L`. */
  ghost predicate WroteResults(run: Run, L: int, ids: Matrix, dists: Matrix)
  {
    IdsPath(QueryPrefix, L) in run.written && run.written[IdsPath(QueryPrefix, L)] == EncodeMatrix(ids) &&
    DistsPath(QueryPrefix, L) in run.written && run.written[DistsPath(QueryPrefix, L)] == EncodeMatrix(dists)
  }

  /** End to end: when the engine writes an n-by-k id matrix and an n-by-k distance
      matrix under the expected names, the search returns their row-major
      flattenings zipped into n*k (id, distance) pairs, in the engine's order. */
  lemma SearchReturnsEngineResults(files: FileMap, engine: Engine, indexPath: Path, metric: string,
                                   query: Matrix, k: nat, params: Option<SearchParams>, tmp: Path,
                                   ids: Matrix, dists: Matrix)
    requires WroteResults(SearchRun(files, engine, indexPath, metric, query, k, params, tmp),
                          params.GetOr(DefaultSearchParams).L, ids, dists)
    requires ids.WellShaped() && ids.HeaderFits() && ids.cols == k
    requires dists.WellShaped() && dists.HeaderFits() && dists.cols == k
    requires |ids.rows| == |dists.rows|
    requires tmp != IdsPath(QueryPrefix, params.GetOr(DefaultSearchParams).L)
    requires tmp != DistsPath(QueryPrefix, params.GetOr(DefaultSearchParams).L)
    ensures SearchSpec(files, engine, Some(indexPath), metric, query, k, params, tmp).0
         == Success(Zip(RowMajor(ids.rows), RowMajor(dists.rows)))
    ensures |SearchSpec(files, engine, Some(indexPath), metric, query, k, params, tmp).0.value| == |ids.rows| * k
  {
    var L := params.GetOr(DefaultSearchParams).L;
    var idsPath, distsPath := IdsPath(QueryPrefix, L), DistsPath(QueryPrefix, L);
    ResultPathsDistinct(QueryPrefix, L, L);
    var saved := files[tmp := EncodeMatrix(query)];
    var searched := Apply(saved, SearchRun(files, engine, indexPath, metric, query, k, params, tmp));
    LoadSaved(searched, idsPath, ids);
    LoadSaved(searched - {idsPath}, distsPath, dists);
    CollectSucceeds(searched, L, k, tmp, RowMajor(ids.rows), RowMajor(dists.rows));
    RowMajorLength(ids);
    RowMajorLength(dists);
  }

  /** When both result files load, the search returns their elements zipped. */
  lemma CollectSucceeds(searched: FileMap, L: int, k: nat, tmp: Path, ids: seq<Word>, dists: seq<Word>)
    requires LoadSpec(searched, IdsPath(QueryPrefix, L), k) == (Success(ids), searched - {IdsPath(QueryPrefix, L)})
    requires LoadSpec(searched - {IdsPath(QueryPrefix, L)}, DistsPath(QueryPrefix, L), k).0 == Success(dists)
    requires tmp in searched && tmp != IdsPath(QueryPrefix, L) && tmp != DistsPath(QueryPrefix, L)
    ensures CollectResults(searched, L, k, tmp).0 == Success(Zip(ids, dists))
  {
  }

  /** Loading a file that holds an encoded matrix returns its row-major elements
      and removes the file. */
  lemma LoadSaved(files: FileMap, path: Path, m: Matrix)
    requires path in files && files[path] == EncodeMatrix(m)
    requires m.WellShaped() && m.HeaderFits()
    ensures LoadSpec(files, path, m.cols) == (Success(RowMajor(m.rows)), files - {path})
  {
    RoundTrip(m);
  }

  /** In the zipped, row-major result of n-by-k id and distance matrices, pair
      i*k + j is (id, distance) of neighbour j of query i: rows stay in query
      order and each row keeps the engine's rank order. */
  lemma ZipRowMajorAt(ids: Matrix, dists: Matrix, k: nat, i: nat, j: nat)
    requires ids.WellShaped() && dists.WellShaped() && ids.cols == k && dists.cols == k
    requires |ids.rows| == |dists.rows| && i < |ids.rows| && j < k
    ensures i * k + j < |Zip(RowMajor(ids.rows), RowMajor(dists.rows))|
    ensures Zip(RowMajor(ids.rows), RowMajor(dists.rows))[i * k + j] == (ids.rows[i][j], dists.rows[i][j])
  {
    RowMajorAt(ids, i, j);
    RowMajorAt(dists, i, j);
    ZipAt(RowMajor(ids.rows), RowMajor(dists.rows), i * k + j);
  }

  lemma ZipAt<A, B>(xs: seq<A>, ys: seq<B>, q: nat)
    requires q < |xs| && q < |ys|
    ensures q < |Zip(xs, ys)| && Zip(xs, ys)[q] == (xs[q], ys[q])
  {
  }

  /** A search on a session that has no index path fails, leaving the query file behind. */
  lemma SearchWithoutIndexPath(files: FileMap, engine: Engine, metric: string,
                               query: Matrix, k: nat, params: Option<SearchParams>, tmp: Path)
    ensures SearchSpec(files, engine, None, metric, query, k, params, tmp)
         == (Failure(NoIndexPath), files[tmp := EncodeMatrix(query)])
  {
  }
}
