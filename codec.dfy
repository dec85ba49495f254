/**
 * The binary matrix format shared by the vector files the library writes and
 * the result files the engine writes: an 8-byte header of two signed 32-bit
 * integers (rows, then columns) followed by the rows, concatenated, each
 * element four bytes. Elements are opaque 4-byte words (the codec only moves
 * bytes); "native byte order" is fixed to little-endian.
 */
module Codec {
  import opened Wrappers

  /** One 4-byte element: a float32 or a uint32, never interpreted here. */
  datatype Word = Word(b0: Byte, b1: Byte, b2: Byte, b3: Byte)

  /** A byte of a file. */
  newtype Byte = b: int | 0 <= b < 256
  const Two31: int := 0x8000_0000
  const Two32: int := 0x1_0000_0000

  /** A row-major matrix as numpy hands it over: `rows`, and the column count `cols`
      (kept separately because a matrix with no rows still has a width). */
  datatype Matrix = Matrix(rows: seq<seq<Word>>, cols: nat)
  {
    predicate WellShaped() { forall i :: 0 <= i < |rows| ==> |rows[i]| == cols }
    /** Both dimensions fit a signed 32-bit header field. */
    predicate HeaderFits() { |rows| < Two31 && cols < Two31 }
  }

  function WordBytes(w: Word): seq<Byte> { [w.b0, w.b1, w.b2, w.b3] }

  /** The bytes of a sequence of elements, in order, with no padding. */
  function Flatten(ws: seq<Word>): (r: seq<Byte>)
    ensures |r| == 4 * |ws|
  {
    if ws == [] then [] else WordBytes(ws[0]) + Flatten(ws[1..])
  }

  /** The elements held by a byte string whose length is a multiple of four. */
  function Unflatten(bs: seq<Byte>): (r: seq<Word>)
    requires |bs| % 4 == 0
    ensures 4 * |r| == |bs|
    decreases |bs|
  {
    if bs == [] then [] else [Word(bs[0], bs[1], bs[2], bs[3])] + Unflatten(bs[4..])
  }

  /** The rows of a matrix concatenated in order (row-major flattening). */
  function RowMajor(rows: seq<seq<Word>>): seq<Word>
  {
    if rows == [] then [] else rows[0] + RowMajor(rows[1..])
  }

  /** numpy's `astype("int32")` on an integer: wrap-around modulo 2^32. */
  function Wrap32(x: int): (r: int)
    ensures -Two31 <= r < Two31
    ensures (x - r) % Two32 == 0
    ensures -Two31 <= x < Two31 ==> r == x
  {
    (x + Two31) % Two32 - Two31
  }

  /** A signed 32-bit integer as four little-endian two's-complement bytes. */
  function Int32Bytes(x: int): (r: seq<Byte>)
    requires -Two31 <= x < Two31
    ensures |r| == 4
  {
    var u0 := if x < 0 then x + Two32 else x;
    var u1 := u0 / 256;
    var u2 := u1 / 256;
    [(u0 % 256) as Byte, (u1 % 256) as Byte, (u2 % 256) as Byte, (u2 / 256) as Byte]
  }

  /** `struct.unpack('i', ...)` on the four bytes at `pos`. */
  function ReadInt32(bs: seq<Byte>, pos: nat): (r: int)
    requires pos + 4 <= |bs|
    ensures -Two31 <= r < Two31
  {
    var u := bs[pos] as int + 256 * (bs[pos + 1] as int + 256 * (bs[pos + 2] as int + 256 * (bs[pos + 3] as int)));
    if u >= Two31 then u - Two32 else u
  }

  /** Writing then reading a 32-bit integer gives it back. */
  lemma Int32RoundTrip(x: int)
    requires -Two31 <= x < Two31
    ensures ReadInt32(Int32Bytes(x), 0) == x
  {
    var u0 := if x < 0 then x + Two32 else x;
    var u1 := u0 / 256;
    var u2 := u1 / 256;
    assert u0 == 256 * u1 + u0 % 256;
    assert u1 == 256 * u2 + u1 % 256;
    assert u2 == 256 * (u2 / 256) + u2 % 256;
    var bs := Int32Bytes(x);
    assert bs[0] as int == u0 % 256 && bs[1] as int == u1 % 256;
    assert bs[2] as int == u2 % 256 && bs[3] as int == u2 / 256;
  }

  /** Reading four bytes as an integer and writing it back gives the same bytes. */
  lemma Int32BytesOfRead(bs: seq<Byte>, pos: nat)
    requires pos + 4 <= |bs|
    ensures Int32Bytes(ReadInt32(bs, pos)) == bs[pos..pos + 4]
  {
    var b0, b1, b2, b3 := bs[pos] as int, bs[pos + 1] as int, bs[pos + 2] as int, bs[pos + 3] as int;
    var u := b0 + 256 * (b1 + 256 * (b2 + 256 * b3));
    assert u % 256 == b0 && u / 256 == b1 + 256 * (b2 + 256 * b3);
    assert (u / 256) % 256 == b1 && u / 256 / 256 == b2 + 256 * b3;
    assert (u / 256 / 256) % 256 == b2 && u / 256 / 256 / 256 == b3;
    var r := Int32Bytes(ReadInt32(bs, pos));
    assert r[0] == bs[pos] && r[1] == bs[pos + 1] && r[2] == bs[pos + 2] && r[3] == bs[pos + 3];
  }

  /** The 8-byte header `save_bin_file` writes for an n-by-d matrix. */
  function EncodeHeader(n: int, d: int): (r: seq<Byte>)
    ensures |r| == 8
  {
    Int32Bytes(Wrap32(n)) + Int32Bytes(Wrap32(d))
  }

  /** The whole file `save_bin_file` writes: header, then every row in order. */
  function EncodeMatrix(m: Matrix): seq<Byte>
  {
    EncodeHeader(|m.rows|, m.cols) + Flatten(RowMajor(m.rows))
  }

  /** Bytes taken by `n` rows of `k` elements. */
  function PayloadSize(n: nat, k: nat): (r: nat)
    ensures r % 4 == 0
  {
    4 * (n * k)
  }

  /** The row count a result file declares, as the read loop uses it:
      `range(num_entries)` is empty for a negative count. */
  function DeclaredRows(data: seq<Byte>): nat
    requires 8 <= |data|
  {
    var n := ReadInt32(data, 0);
    if n <= 0 then 0 else n
  }

  /**
   * What `load_query_results` returns for a file holding `data`, read with row
   * width `k`: None when `struct.unpack` fails on a short read. The second header
   * field (`dims`) is read but plays no part; bytes after the last row are ignored.
   */
  function Decode(data: seq<Byte>, k: nat): Option<seq<Word>>
  {
    if |data| < 8 then None
    else
      var size := PayloadSize(DeclaredRows(data), k);
      if |data| < 8 + size then None
      else Some(Unflatten(data[8..8 + size]))
  }

  // ---------------------------------------------------------------------------
  // Lemmas about the element layer

  lemma {:induction false} FlattenAppend(a: seq<Word>, b: seq<Word>)
    ensures Flatten(a + b) == Flatten(a) + Flatten(b)
    decreases |a|
  {
    if a != [] {
      assert (a + b)[1..] == a[1..] + b;
      FlattenAppend(a[1..], b);
    } else {
      assert a + b == b;
    }
  }

  lemma {:induction false} UnflattenAppend(a: seq<Byte>, b: seq<Byte>)
    requires |a| % 4 == 0 && |b| % 4 == 0
    ensures Unflatten(a + b) == Unflatten(a) + Unflatten(b)
    decreases |a|
  {
    if a != [] {
      assert (a + b)[4..] == a[4..] + b;
      UnflattenAppend(a[4..], b);
    } else {
      assert a + b == b;
    }
  }

  /** Elements survive the trip through bytes. */
  lemma {:induction false} UnflattenFlatten(ws: seq<Word>)
    ensures Unflatten(Flatten(ws)) == ws
    decreases |ws|
  {
    if ws != [] {
      var bs := Flatten(ws);
      assert bs[4..] == Flatten(ws[1..]);
      UnflattenFlatten(ws[1..]);
    }
  }

  /** Bytes survive the trip through elements. */
  lemma {:induction false} FlattenUnflatten(bs: seq<Byte>)
    requires |bs| % 4 == 0
    ensures Flatten(Unflatten(bs)) == bs
    decreases |bs|
  {
    if bs != [] {
      FlattenUnflatten(bs[4..]);
      assert Unflatten(bs)[1..] == Unflatten(bs[4..]);
    }
  }

  /** Element `q` occupies bytes `4q .. 4q+4`. */
  lemma {:induction false} FlattenAt(ws: seq<Word>, q: nat)
    requires q < |ws|
    ensures Flatten(ws)[4 * q..4 * q + 4] == WordBytes(ws[q])
    decreases q
  {
    if q > 0 {
      FlattenAt(ws[1..], q - 1);
      var rest := Flatten(ws[1..]);
      assert Flatten(ws)[4 * q..4 * q + 4] == rest[4 * (q - 1)..4 * (q - 1) + 4];
    }
  }

  // ---------------------------------------------------------------------------
  // Lemmas about the row-major layout

  lemma {:induction false} RowMajorAppend(rows: seq<seq<Word>>, row: seq<Word>)
    ensures RowMajor(rows + [row]) == RowMajor(rows) + row
    decreases |rows|
  {
    if rows != [] {
      assert (rows + [row])[1..] == rows[1..] + [row];
      RowMajorAppend(rows[1..], row);
    } else {
      assert RowMajor([row]) == row + RowMajor([]);
    }
  }

  /** A well-shaped n-by-d matrix flattens to n*d elements. */
  lemma {:induction false} RowMajorLength(m: Matrix)
    requires m.WellShaped()
    ensures |RowMajor(m.rows)| == |m.rows| * m.cols
    decreases |m.rows|
  {
    if m.rows != [] {
      RowMajorLength(Matrix(m.rows[1..], m.cols));
    }
  }

  /** Element (i, j) of a well-shaped matrix sits at position i*d + j. */
  lemma {:induction false} RowMajorAt(m: Matrix, i: nat, j: nat)
    requires m.WellShaped() && i < |m.rows| && j < m.cols
    ensures i * m.cols + j < |RowMajor(m.rows)|
    ensures RowMajor(m.rows)[i * m.cols + j] == m.rows[i][j]
    decreases i
  {
    RowMajorLength(m);
    var tail := Matrix(m.rows[1..], m.cols);
    RowMajorLength(tail);
    if i > 0 {
      RowMajorAt(tail, i - 1, j);
      assert i * m.cols + j == m.cols + ((i - 1) * m.cols + j);
    }
  }

  // ---------------------------------------------------------------------------
  // Properties of the file format

  /** The header always holds the row and column counts modulo 2^32. */
  lemma HeaderHoldsWrappedShape(m: Matrix)
    ensures |EncodeMatrix(m)| >= 8
    ensures ReadInt32(EncodeMatrix(m), 0) == Wrap32(|m.rows|)
    ensures ReadInt32(EncodeMatrix(m), 4) == Wrap32(m.cols)
  {
    var e := EncodeMatrix(m);
    Int32RoundTrip(Wrap32(|m.rows|));
    Int32RoundTrip(Wrap32(m.cols));
    assert e[0..4] == Int32Bytes(Wrap32(|m.rows|));
    assert e[4..8] == Int32Bytes(Wrap32(m.cols));
  }

  /** The layout of an encoded matrix: `int32(n) ++ int32(d) ++ rows in order`,
      8 + 4*n*d bytes long. */
  lemma EncodeLayout(m: Matrix)
    requires m.WellShaped() && m.HeaderFits()
    ensures |EncodeMatrix(m)| == 8 + PayloadSize(|m.rows|, m.cols)
    ensures ReadInt32(EncodeMatrix(m), 0) == |m.rows|
    ensures ReadInt32(EncodeMatrix(m), 4) == m.cols
    ensures EncodeMatrix(m)[8..] == Flatten(RowMajor(m.rows))
  {
    RowMajorLength(m);
    HeaderHoldsWrappedShape(m);
  }

  /** Byte offset of element (i, j) in a file whose rows hold d elements. */
  function Offset(i: nat, d: nat, j: nat): nat
  {
    8 + 4 * (i * d + j)
  }

  /** Element (i, j) is the four bytes at offset 8 + 4*(i*d + j). */
  lemma EncodedElement(m: Matrix, i: nat, j: nat)
    requires m.WellShaped() && i < |m.rows| && j < m.cols
    ensures Offset(i, m.cols, j) + 4 <= |EncodeMatrix(m)|
    ensures EncodeMatrix(m)[Offset(i, m.cols, j)..Offset(i, m.cols, j) + 4] == WordBytes(m.rows[i][j])
  {
    var q := i * m.cols + j;
    RowMajorAt(m, i, j);
    FlattenAt(RowMajor(m.rows), q);
    SliceAfterHeader(EncodeHeader(|m.rows|, m.cols), Flatten(RowMajor(m.rows)), q);
  }

  /** The bytes of element q of the body sit 8 bytes further on in the file. */
  lemma SliceAfterHeader(header: seq<Byte>, body: seq<Byte>, q: nat)
    requires |header| == 8 && 4 * q + 4 <= |body|
    ensures (header + body)[8 + 4 * q..8 + 4 * q + 4] == body[4 * q..4 * q + 4]
  {
  }

  /** Decoding fails exactly when the file is shorter than its header says. */
  lemma DecodeFailsIffShort(data: seq<Byte>, k: nat)
    ensures Decode(data, k).None? <==>
      (|data| < 8 || |data| < 8 + PayloadSize(DeclaredRows(data), k))
  {
  }

  /** A successful decode yields exactly `num_entries * k` elements (none when
      `num_entries` is zero or negative, or when k is zero). */
  lemma DecodeLength(data: seq<Byte>, k: nat)
    requires Decode(data, k).Some?
    ensures |Decode(data, k).value| == DeclaredRows(data) * k
  {
    var payload := data[8..8 + PayloadSize(DeclaredRows(data), k)];
    assert Decode(data, k) == Some(Unflatten(payload));
  }

  /** A header whose `num_entries` is zero or negative reads as an empty list,
      whatever follows the header: `range(num_entries)` is empty. */
  lemma NonPositiveRows(data: seq<Byte>, k: nat)
    requires 8 <= |data| && ReadInt32(data, 0) <= 0
    ensures Decode(data, k) == Some([])
  {
    assert DeclaredRows(data) == 0;
    assert PayloadSize(0, k) == 0;
    assert data[8..8] == [];
  }

  /** A successful decode yields `num_entries * k` elements, the file's rows in order:
      element i*k + j is the four bytes at offset 8 + 4*(i*k + j). */
  lemma DecodeRows(data: seq<Byte>, k: nat, i: nat, j: nat)
    requires Decode(data, k).Some?
    requires i < DeclaredRows(data) && j < k
    ensures |Decode(data, k).value| == DeclaredRows(data) * k
    ensures i * k + j < DeclaredRows(data) * k
    ensures Offset(i, k, j) + 4 <= |data|
    ensures WordBytes(Decode(data, k).value[i * k + j]) == data[Offset(i, k, j)..Offset(i, k, j) + 4]
  {
    RowIndexBound(DeclaredRows(data), k, i, j);
    DecodedElement(data, k, i * k + j);
  }

  /** Element q of a successful decode is the four bytes at offset 8 + 4q. */
  lemma DecodedElement(data: seq<Byte>, k: nat, q: nat)
    requires Decode(data, k).Some? && q < DeclaredRows(data) * k
    ensures |Decode(data, k).value| == DeclaredRows(data) * k
    ensures 8 + 4 * q + 4 <= |data|
    ensures WordBytes(Decode(data, k).value[q]) == data[8 + 4 * q..8 + 4 * q + 4]
  {
    var payload := data[8..8 + PayloadSize(DeclaredRows(data), k)];
    var v := Unflatten(payload);
    assert Decode(data, k) == Some(v);
    FlattenUnflatten(payload);
    FlattenAt(v, q);
    SliceOfSlice(data, 8, 8 + PayloadSize(DeclaredRows(data), k), 4 * q, 4 * q + 4);
  }

  lemma SliceOfSlice(s: seq<Byte>, lo: nat, hi: nat, a: nat, b: nat)
    requires lo <= hi <= |s| && a <= b <= hi - lo
    ensures s[lo..hi][a..b] == s[lo + a..lo + b]
  {
    var x, y := s[lo..hi][a..b], s[lo + a..lo + b];
    assert |x| == |y|;
    forall t | 0 <= t < |x|
      ensures x[t] == y[t]
    {
      assert x[t] == s[lo..hi][a + t] == s[lo + a + t];
    }
  }

  lemma RowIndexBound(n: nat, k: nat, i: nat, j: nat)
    requires i < n && j < k
    ensures i * k + j < n * k
  {
    MulMonotone(i + 1, n, k);
    MulSucc(i, k);
  }

  lemma {:induction false} MulMonotone(a: nat, b: nat, k: nat)
    requires a <= b
    ensures a * k <= b * k
    decreases b - a
  {
    if a < b {
      MulMonotone(a, b - 1, k);
      MulSucc(b - 1, k);
    }
  }

  // ---------------------------------------------------------------------------
  // Steps of the read and write loops

  /** Writing one more row appends that row's bytes. */
  lemma EncodeRowsStep(header: seq<Byte>, rows: seq<seq<Word>>, i: nat)
    requires i < |rows|
    ensures header + Flatten(RowMajor(rows[..i + 1])) == (header + Flatten(RowMajor(rows[..i]))) + Flatten(rows[i])
  {
    assert rows[..i + 1] == rows[..i] + [rows[i]];
    RowMajorAppend(rows[..i], rows[i]);
    FlattenAppend(RowMajor(rows[..i]), rows[i]);
  }

  /** Reading row i when it is all there extends the elements read so far by that row. */
  lemma ReadRowStep(data: seq<Byte>, k: nat, i: nat, pos: nat)
    requires pos == 8 + PayloadSize(i, k) && pos + 4 * k <= |data|
    ensures pos + 4 * k == 8 + PayloadSize(i + 1, k)
    ensures (4 * k) % 4 == 0
    ensures Unflatten(data[8..pos + 4 * k]) == Unflatten(data[8..pos]) + Unflatten(data[pos..pos + 4 * k])
  {
    MulSucc(i, k);
    RowWidthAligned(k);
    assert data[8..pos + 4 * k] == data[8..pos] + data[pos..pos + 4 * k];
    UnflattenAppend(data[8..pos], data[pos..pos + 4 * k]);
  }

  /** A row that is cut short makes the whole read fail. */
  lemma ShortRowFails(data: seq<Byte>, k: nat, i: nat)
    requires 8 <= |data| && i < DeclaredRows(data)
    requires |data| < 8 + PayloadSize(i, k) + 4 * k
    ensures Decode(data, k) == None
  {
    MulSucc(i, k);
    MulMonotone(i + 1, DeclaredRows(data), k);
  }

  /** Once every declared row has been read, decoding succeeds with what was read. */
  lemma ReadAllRows(data: seq<Byte>, k: nat, i: nat)
    requires 8 <= |data| && i == DeclaredRows(data)
    requires 8 + PayloadSize(i, k) <= |data|
    ensures Decode(data, k) == Some(Unflatten(data[8..8 + PayloadSize(i, k)]))
  {
  }

  /** A row of k elements is a whole number of elements long. */
  lemma RowWidthAligned(k: nat)
    ensures (4 * k) % 4 == 0
  {
  }

  lemma MulSucc(i: nat, k: nat)
    ensures (i + 1) * k == i * k + k
  {
  }

  /** Decoding what `save_bin_file` wrote, with row width d, gives back the matrix's
      row-major flattening element for element. */
  lemma RoundTrip(m: Matrix)
    requires m.WellShaped() && m.HeaderFits()
    ensures Decode(EncodeMatrix(m), m.cols) == Some(RowMajor(m.rows))
  {
    var e := EncodeMatrix(m);
    EncodeLayout(m);
    assert e[8..8 + PayloadSize(|m.rows|, m.cols)] == Flatten(RowMajor(m.rows));
    UnflattenFlatten(RowMajor(m.rows));
  }

  /** The `dims` field does not affect decoding. */
  lemma DecodeIgnoresDims(a: seq<Byte>, b: seq<Byte>, k: nat)
    requires |a| == |b| && 8 <= |a|
    requires a[..4] == b[..4] && a[8..] == b[8..]
    ensures Decode(a, k) == Decode(b, k)
  {
    assert forall p :: 0 <= p < 4 ==> a[p] == a[..4][p] == b[..4][p] == b[p];
    var size := PayloadSize(DeclaredRows(a), k);
    if 8 + size <= |a| {
      assert a[8..8 + size] == a[8..][..size];
      assert b[8..8 + size] == b[8..][..size];
    }
  }

  /** Bytes after the last declared row are never read. */
  lemma DecodeIgnoresTrailing(data: seq<Byte>, extra: seq<Byte>, k: nat)
    requires Decode(data, k).Some?
    ensures Decode(data + extra, k) == Decode(data, k)
  {
    var e := data + extra;
    assert e[..4] == data[..4];
    assert ReadInt32(e, 0) == ReadInt32(data, 0);
    var size := PayloadSize(DeclaredRows(data), k);
    assert e[8..8 + size] == data[8..8 + size];
  }
}
