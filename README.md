# DiskANN Python exchange layer, modelled in Dafny

This project models `lib/pylib/diskann.py`, the layer that sits between Python
callers and the native DiskANN engine. It has three parts.

- **Binary matrix codec.** `save_bin_file` writes an 8-byte header (rows, then
  columns, each a signed 32-bit integer) followed by the rows, concatenated, at
  four bytes per element. `load_query_results` reads that header and then
  `num_entries` rows of `k` elements, returns them as one flat list, and deletes
  the file. Elements are opaque 4-byte words (`Codec.Word`), because the codec
  only moves bytes. The platform's native byte order is fixed to little-endian.
- **Parameter encoders.** `IndexBuildParams` maps the metric name and renders
  `"R L B M T"`. `IndexSearchParams` renders `"cache threads beam L"`. Both
  encoders are total functions, so they are deterministic by construction.
- **Index session.** The class `DiskANN` holds the index path and the metric.
  `build_disk_index` and `search_disk_index` write temporary files, call the
  engine, and read the engine's result files back.

The filesystem is a `FileSystem` object. It holds a map from paths to byte
strings and a set of directories. The engine is a value of type `Native.Engine`.
It gives, for each entry point, an arbitrary function from the call's arguments
and the current files to a status code and the files the engine writes. Every
property below therefore holds for every possible engine.

The methods that change state (`SaveBinFile`, `LoadQueryResults`,
`BuildDiskIndex`, `SearchDiskIndex`) each have a postcondition that equates the
result and the new files with a function of the old state (`EncodeMatrix`,
`LoadSpec`, `BuildSpec`, `SearchSpec`). The read loop of `load_query_results` is
the method `ReadRows`, proved equal to the reference decoder `Codec.Decode`. The
part of a search after the engine call is `CollectResults`, and the file
lifecycle is proved about it for every set of files the engine may leave.

Where the library's documented contract and its code differ, the model follows
the code:

- A row or column count of 2^31 or more is not rejected. numpy's `astype("int32")`
  wraps it modulo 2^32 (`Codec.Wrap32`, `Codec.HeaderHoldsWrappedShape`). The
  round-trip lemmas assume both counts are below 2^31.
- A short file fails with `struct.error` (`Files.StructError`). There is no
  dedicated truncation error.
- A negative `num_entries` in a result header makes `range` empty. The read then
  succeeds with an empty list and still removes the file
  (`Session.LoadNonPositiveRows`).
- The `dims` header field is read and then ignored. Bytes after the last declared
  row are never read.
- `search_disk_index` ignores the engine's status code. Only a missing or short
  result file surfaces, as an error from the decode.
- If `index_path` was never set, the search raises only after the query file has
  been written, so that file leaks (`Session.SearchWithoutIndexPath`).
- The `DiskANN` constructor stores its `metric` argument unmapped. The engine
  treats any string other than `"mips"` as L2 (`Native.EngineMetric`).

## Model

| member | source | states |
|---|---|---|
| `Codec.Wrap32` | lib/pylib/diskann.py:141-143 | the header value is the count modulo 2^32, in the signed 32-bit range, and equals the count when that fits |
| `Codec.Int32RoundTrip` | lib/pylib/diskann.py:152-153 | reading the four little-endian bytes written for a 32-bit integer gives the integer back |
| `Codec.Int32BytesOfRead` | lib/pylib/diskann.py:152-153 | writing back the integer read from four bytes reproduces those bytes, so the int32 encoding is a bijection |
| `Codec.Flatten` | lib/pylib/diskann.py:144-145 | a row of elements takes exactly four bytes per element, with no padding |
| `Codec.Unflatten` | lib/pylib/diskann.py:156 | unpacking a byte string whose length is a multiple of four yields one element per four bytes |
| `Codec.UnflattenFlatten` | lib/pylib/diskann.py:145 | elements written as bytes and unpacked again are unchanged |
| `Codec.FlattenUnflatten` | lib/pylib/diskann.py:156 | bytes unpacked into elements and written again are unchanged |
| `Codec.FlattenAt` | lib/pylib/diskann.py:145 | element q of a row occupies bytes 4q to 4q+4 |
| `Codec.RowMajorLength` | lib/pylib/diskann.py:144-145 | the rows of an n-by-d matrix, concatenated, hold n*d elements |
| `Codec.RowMajorAt` | lib/pylib/diskann.py:144-145 | element (i, j) sits at position i*d + j of the concatenated rows |
| `Codec.HeaderHoldsWrappedShape` | lib/pylib/diskann.py:141-143 | for any matrix, the header's two fields read back as the row and column counts wrapped to 32 bits |
| `Codec.EncodeLayout` | lib/pylib/diskann.py:140-147 | the written file is int32(n), then int32(d), then the rows in order, 8 + 4*n*d bytes in all, when n, d < 2^31 |
| `Codec.EncodedElement` | lib/pylib/diskann.py:144-145 | element (i, j) of the matrix is the four bytes at offset 8 + 4*(i*d + j) |
| `Codec.DecodeFailsIffShort` | lib/pylib/diskann.py:151-156 | reading fails exactly when the file is under 8 bytes or shorter than 8 + 4*num_entries*k (a negative count reads no rows) |
| `Codec.DecodeLength` | lib/pylib/diskann.py:152-156 | every successful read returns exactly max(num_entries, 0)*k elements, so none for a zero or negative count or for k = 0 |
| `Codec.NonPositiveRows` | lib/pylib/diskann.py:152-156 | a header whose num_entries is zero or negative reads as the empty list, whatever bytes follow |
| `Codec.DecodeRows` | lib/pylib/diskann.py:154-156 | for each declared row i and column j, element i*k + j of a successful read is the four bytes at offset 8 + 4*(i*k + j) |
| `Codec.DecodedElement` | lib/pylib/diskann.py:154-156 | element q of a successful read is the four bytes at offset 8 + 4q, so the rows follow one another with no gaps |
| `Codec.RoundTrip` | lib/pylib/diskann.py:140-158 | reading a written matrix with k = d returns its row-major flattening element for element, including the n = 0 and d = 0 cases |
| `Codec.DecodeIgnoresDims` | lib/pylib/diskann.py:153 | two files that differ only in the dims field decode identically |
| `Codec.DecodeIgnoresTrailing` | lib/pylib/diskann.py:154-156 | appending bytes after the last declared row does not change a successful read |
| `Text.NatToString` | lib/pylib/diskann.py:118-121 | an integer's decimal rendering is a non-empty string of digits, with more than one digit exactly when the value is 10 or more, and no leading zero |
| `Text.NatRoundTrip` | lib/pylib/diskann.py:117-121 | reading back the digits rendered for a natural number gives the number |
| `Text.IntRoundTrip` | lib/pylib/diskann.py:117-121 | reading back a rendered integer field gives the integer |
| `Text.IntToStringInjective` | lib/pylib/diskann.py:201-202 | two integers render to the same text exactly when they are equal |
| `Text.SplitJoin` | lib/pylib/diskann.py:80 | splitting a space-joined list of space-free fields gives back the fields, in order |
| `Params.MetricName` | lib/pylib/diskann.py:65-67 | the stored metric is "l2" exactly when the argument is "l2", and "mips" for every other argument |
| `Params.NewBuildParams` | lib/pylib/diskann.py:11-73 | construction maps the metric and stores R, L, B, M, T and the compression flag unchanged |
| `Params.BuildStringReadBack` | lib/pylib/diskann.py:75-80 | the build string has exactly five fields, R L B M T in that order, and R, L and T parse back to their values |
| `Params.BuildStringDeterminedByFiveFields` | lib/pylib/diskann.py:75-80 | two build objects render the same string exactly when R, L, B, M and T agree, so the metric and the compression flag are dropped |
| `Params.SearchStringReadBack` | lib/pylib/diskann.py:117-121 | the search string has exactly four fields, cache, threads, beam width and L in that order, each parsing back to its value |
| `Params.SearchStringInjective` | lib/pylib/diskann.py:117-121 | two search objects render the same string exactly when they are equal |
| `Params.DefaultBuildString` | lib/pylib/diskann.py:12-16 | with the default numbers, the build string is "100 150 0.3 0.5 32" for any metric |
| `Params.DefaultBuildExample` | lib/pylib/diskann.py:65-80 | a default build with metric "l2" yields "100 150 0.3 0.5 32" and "l2", and with no metric given the metric is "mips" |
| `Files.ParentOfChild` | lib/pylib/diskann.py:161 | the parent directory of `dir/name` is `dir`, and that of a bare name is ".", for a name that is neither empty nor "." |
| `Native.Apply` | include/test_search_index.h:130-139 | after an engine call, the files are the old ones with the engine's writes added or replaced, and nothing is removed |
| `Native.EngineMetric` | lib/pylib/disk_index.cpp:20-23 | the engine uses inner product exactly when the metric string is "mips", and L2 otherwise |
| `Native.BuildMetricReachesEngine` | lib/pylib/diskann.py:65-67 | a build object's metric reaches the engine as L2 for "l2" and as inner product for every other name |
| `Native.ResultPathsDistinct` | lib/pylib/diskann.py:201-202 | the ids and distances file names never coincide, and each name determines the L it was built from |
| `Session.Zip` | lib/pylib/diskann.py:207 | the result has the length of the shorter list, and pair i is (ids[i], dists[i]) |
| `Session.DiskANN.constructor` | lib/pylib/diskann.py:125-138 | the session stores the engine handle, the optional index path and the metric exactly as given |
| `Session.DiskANN.SaveBinFile` | lib/pylib/diskann.py:140-147 | the fresh temporary file holds the encoded matrix after the row-by-row loop, the returned name is that file, and nothing else changes |
| `Session.DiskANN.LoadQueryResults` | lib/pylib/diskann.py:149-158 | the result and the new files are those of `LoadSpec`: not-found on a missing file; a short read fails and keeps the file; otherwise the rows are returned and the file is removed |
| `Session.DiskANN.ReadRows` | lib/pylib/diskann.py:151-156 | the row-by-row read loop returns exactly what `Decode` specifies: the declared rows of k elements, or a failure when the header or a row is cut short |
| `Session.DiskANN.BuildDiskIndex` | lib/pylib/diskann.py:160-170 | the parent directory exists afterwards, the session's index path and metric (defaults when params is None) are set, and the engine gets the vector file, index path, metric and "R L B M T" string, with its status returned |
| `Session.DiskANN.SearchDiskIndex` | lib/pylib/diskann.py:190-207 | the result and the new files are those of `SearchSpec`: query written, engine called, both result files decoded, query file removed, pairs zipped |
| `Session.LoadConsumesOnlyOnSuccess` | lib/pylib/diskann.py:151-157 | a read succeeds exactly when the file exists and is long enough; success removes the file so a second read is not-found; failure leaves the files unchanged |
| `Session.LoadNonPositiveRows` | lib/pylib/diskann.py:151-158 | a result file declaring zero or fewer rows reads as the empty list, and the file is still removed |
| `Session.BuildLeavesVectorFile` | lib/pylib/diskann.py:160-170 | after a build the temporary vector file still exists and, unless the engine overwrote it, holds the encoded vectors; files the engine did not write are untouched |
| `Session.BuildWithDefaults` | lib/pylib/diskann.py:165-170 | a build without params calls the engine with metric "mips" and "100 150 0.3 0.5 32" |
| `Session.SearchQueryFileLifecycle` | lib/pylib/diskann.py:190-206 | the query file is removed exactly when the search succeeds and leaks on every failure |
| `Session.SearchConsumesResultFiles` | lib/pylib/diskann.py:201-206 | after a successful search the files are those the engine left, minus both result files and the query file |
| `Session.LoadSaved` | lib/pylib/diskann.py:140-158 | reading a file that holds a written matrix with k = d returns its row-major elements and removes the file |
| `Session.CollectSucceeds` | lib/pylib/diskann.py:201-207 | for any files the engine left, when both result files read successfully the search returns their elements zipped |
| `Session.CollectLifecycle` | lib/pylib/diskann.py:201-206 | for any files the engine left, the query file is removed exactly when collecting the results succeeds |
| `Session.CollectConsumes` | lib/pylib/diskann.py:201-206 | for any files the engine left, a successful collection removes exactly the two result files and the query file |
| `Session.SearchReturnsEngineResults` | lib/pylib/diskann.py:195-207 | when the engine writes n-by-k id and distance matrices under the `_L_` names, the search returns their flattenings zipped, n*k pairs |
| `Session.ZipRowMajorAt` | lib/pylib/diskann.py:207 | in that zipped result, pair i*k + j is the id and distance of neighbour j of query i |
| `Session.SearchWithoutIndexPath` | lib/pylib/diskann.py:190-195 | a session with no index path fails the search after writing the query file, and that file is left behind |

## Left out

- Loading the shared library with `ctypes.CDLL` and setting `argtypes` (lib/pylib/diskann.py:127-134) is left out. The engine handle is a constructor argument.
- The engine's internals (index build, beam search, product quantisation, OpenMP threads, timing) are not part of this model. The engine is an arbitrary function of its arguments and the files. It may create or overwrite files, never delete them. An engine that crashes or never returns is not modelled.
- Float32 and uint32 meaning, and numpy's `astype("float32")` conversion, are left out. Elements are opaque 4-byte words, so the `fmt_type` argument of `load_query_results` ("I" or "f") has no counterpart: both formats read four bytes per element.
- Python's rendering of the float budgets `B` and `M` is left out. They are already-rendered tokens that are non-empty and contain no space.
- The uniqueness of `tempfile.NamedTemporaryFile` names is assumed: the temporary path is a parameter that is not yet in the filesystem.
- `os.makedirs` only records the parent directory. Ancestors and failures are not modelled. `Parent` takes the text before the last '/', so pathlib's removal of trailing slashes, repeated slashes and "." components is not modelled.
- Concurrent searches racing on the fixed `/tmp/query_res` prefix are left out. Calls are sequential.
- Session.DiskANN.LoadQueryResults: takes the neighbour count as a natural number. A negative count (a struct format such as "-1I", which Python rejects) is not modelled, nor is the 32-bit `c_uint` conversion of the count for the engine.
- Paths are strings. Their `str.encode` to bytes for the native call is not modelled.
- Write errors while saving (disk full, permissions) are not modelled. `save_bin_file` always succeeds.
