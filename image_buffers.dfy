/** The byte buffers the host's sensors fill in place: a 640x480 ARGB32 image
    copied from the GPU texture with its rows reversed (Unity stores the
    bottom row first, the wire carries the top row first), and the depth
    image flattened row-major into bytes. Shared by CameraModule, Drone and
    ImageCaptureHelper. */
module ImageBuffers {
  import opened Wire
  import HostProtocol

  const ColorWidth: nat := 640
  const ColorHeight: nat := 480
  /** Four bytes per ARGB32 pixel. */
  const RowBytes: nat := 2560
  const ImageBytes: nat := 1228800

  lemma {:induction false} ImageConstants()
    ensures RowBytes == 4 * ColorWidth && ImageBytes == RowBytes * ColorHeight
  {
  }

  /** The image with its rows in reverse order: byte k of row r is byte k
      of row 479 - r of the source. The texture's raw data also holds its
      mip levels after the first ImageBytes bytes; only mip level 0 is
      read. */
  function ReversedRows(bytes: seq<byte>): (out: seq<byte>)
    requires |bytes| >= ImageBytes
    ensures |out| == ImageBytes
  {
    seq(ImageBytes, i requires 0 <= i < ImageBytes =>
      bytes[(ColorHeight - 1 - i / RowBytes) * RowBytes + i % RowBytes])
  }

  /** Byte `i` of an image lies at column `i % RowBytes` of row `i / RowBytes`. */
  lemma {:induction false} RowOf(i: int, r: int)
    requires 0 <= r && r * RowBytes <= i < r * RowBytes + RowBytes
    ensures i / RowBytes == r && i % RowBytes == i - r * RowBytes
  {
  }

  /** Row r of the copy is row 479 - r of the source. */
  lemma RowReversedAt(bytes: seq<byte>, r: nat, k: nat)
    requires |bytes| >= ImageBytes && r < ColorHeight && k < RowBytes
    ensures ReversedRows(bytes)[r * RowBytes + k] == bytes[(ColorHeight - 1 - r) * RowBytes + k]
  {
    RowOf(r * RowBytes + k, r);
  }

  /** Bytes past mip level 0 take no part in the copy. */
  lemma LevelZeroOnly(bytes: seq<byte>, tail: seq<byte>)
    requires |bytes| == ImageBytes
    ensures ReversedRows(bytes + tail) == ReversedRows(bytes)
  {
    var whole := bytes + tail;
    forall i | 0 <= i < ImageBytes
      ensures ReversedRows(whole)[i] == ReversedRows(bytes)[i]
    {
      var r, k := i / RowBytes, i % RowBytes;
      RowOf(i, r);
      RowReversedAt(whole, r, k);
      RowReversedAt(bytes, r, k);
    }
  }

  /** Reversing the rows twice gives mip level 0 back. */
  lemma ReversedRowsInvolution(bytes: seq<byte>)
    requires |bytes| >= ImageBytes
    ensures ReversedRows(ReversedRows(bytes)) == bytes[..ImageBytes]
  {
    var once := ReversedRows(bytes);
    forall i | 0 <= i < ImageBytes
      ensures ReversedRows(once)[i] == bytes[i]
    {
      var r, k := i / RowBytes, i % RowBytes;
      RowOf(i, r);
      RowReversedAt(once, r, k);
      RowReversedAt(bytes, ColorHeight - 1 - r, k);
    }
  }

  /** Buffer.BlockCopy: `count` bytes of `src` from `srcOffset` land in
      `dst` from `dstOffset`; every other byte of `dst` is kept. */
  method BlockCopy(src: seq<byte>, srcOffset: nat, dst: array<byte>, dstOffset: nat, count: nat)
    requires srcOffset + count <= |src| && dstOffset + count <= dst.Length
    modifies dst
    ensures forall j :: 0 <= j < dst.Length ==>
              dst[j] == if dstOffset <= j < dstOffset + count then src[srcOffset + j - dstOffset] else old(dst[j])
  {
    var k := 0;
    while k < count
      invariant 0 <= k <= count
      invariant forall j :: 0 <= j < dst.Length ==>
                  dst[j] == if dstOffset <= j < dstOffset + k then src[srcOffset + j - dstOffset] else old(dst[j])
    {
      dst[dstOffset + k] := src[srcOffset + k];
      k := k + 1;
    }
  }

  /** The row loop of UpdateColorImageRaw, UpdateDroneImageRaw and
      UpdateRawImage: row 479 - r of the texture bytes into row r. */
  method CopyRowsReversed(bytes: seq<byte>, dst: array<byte>)
    requires |bytes| >= ImageBytes && dst.Length == ImageBytes
    modifies dst
    ensures dst[..] == ReversedRows(bytes)
  {
    var r := 0;
    while r < ColorHeight
      invariant 0 <= r <= ColorHeight
      invariant forall j :: 0 <= j < r * RowBytes ==> dst[j] == ReversedRows(bytes)[j]
    {
      CopyRow(bytes, dst, r);
      r := r + 1;
    }
  }

  /** One BlockCopy of the row loop. */
  method CopyRow(bytes: seq<byte>, dst: array<byte>, r: nat)
    requires |bytes| >= ImageBytes && dst.Length == ImageBytes && r < ColorHeight
    requires forall j :: 0 <= j < r * RowBytes ==> dst[j] == ReversedRows(bytes)[j]
    modifies dst
    ensures forall j :: 0 <= j < (r + 1) * RowBytes ==> dst[j] == ReversedRows(bytes)[j]
  {
    BlockCopy(bytes, (ColorHeight - r - 1) * RowBytes, dst, r * RowBytes, RowBytes);
    forall j | r * RowBytes <= j < (r + 1) * RowBytes
      ensures dst[j] == ReversedRows(bytes)[j]
    {
      RowOf(j, r);
    }
  }

  // ---------------------------------------------------------------------
  // Depth samples

  /** The sample rule of the depth camera and the lidar: a hit farther than
      the minimum range gives ten times its distance, a closer hit the
      minimum code 0, no hit the maximum code 0. */
  function RangeCode(hit: Option<real>, minRange: real): (v: real)
    ensures hit.Some? && hit.value > minRange ==> v == hit.value * 10.0
    ensures hit.None? || hit.value <= minRange ==> v == 0.0
  {
    match hit
    case None => 0.0
    case Some(d) => if d > minRange then d * 10.0 else 0.0
  }

  /** One depth row as the bytes of its floats, `bits` giving each float's
      four bytes. */
  function EncodeRow(row: seq<real>, bits: real -> Word): (bs: seq<byte>)
    ensures |bs| == 4 * |row|
  {
    Flatten(seq(|row|, c requires 0 <= c < |row| => bits(row[c])))
  }

  /** Rows of equal width. */
  predicate Uniform(rows: seq<seq<real>>, width: nat)
  {
    forall r :: 0 <= r < |rows| ==> |rows[r]| == width
  }

  /** The depth image flattened row-major. */
  function RowMajor(rows: seq<seq<real>>, bits: real -> Word): (bs: seq<byte>)
  {
    if rows == [] then [] else RowMajor(rows[..|rows| - 1], bits) + EncodeRow(rows[|rows| - 1], bits)
  }

  lemma {:induction false} RowMajorLength(rows: seq<seq<real>>, width: nat, bits: real -> Word)
    requires Uniform(rows, width)
    ensures |RowMajor(rows, bits)| == |rows| * (4 * width)
  {
    if rows != [] {
      var n := |rows| - 1;
      assert Uniform(rows[..n], width);
      RowMajorLength(rows[..n], width, bits);
      StrideStep(n, n + 1, 4 * width);
    }
  }

  /** Row r ends where row r + 1 begins, at or before row n. */
  lemma StrideStep(r: nat, n: nat, w: nat)
    requires r < n
    ensures (r + 1) * w == r * w + w <= n * w
  {
    HostProtocol.MulMonotone(r + 1, n, w);
  }

  /** The bytes of the first k rows begin the bytes of all of them. */
  lemma {:induction false} RowMajorPrefix(rows: seq<seq<real>>, bits: real -> Word, k: nat)
    requires k <= |rows|
    ensures RowMajor(rows[..k], bits) <= RowMajor(rows, bits)
  {
    if k < |rows| {
      var n := |rows| - 1;
      RowMajorPrefix(rows[..n], bits, k);
      assert rows[..n][..k] == rows[..k];
    } else {
      assert rows[..k] == rows;
    }
  }

  /** A block that follows a prefix of a sequence sits right after it. */
  lemma BlockAfterPrefix(front: seq<byte>, block: seq<byte>, whole: seq<byte>)
    requires front + block <= whole
    ensures |front| + |block| <= |whole| && whole[|front| .. |front| + |block|] == block
  {
    assert whole[|front| .. |front| + |block|] == (front + block)[|front| ..];
  }

  /** Row r's bytes follow the bytes of the rows before it. */
  lemma RowAfterRows(rows: seq<seq<real>>, bits: real -> Word, r: nat)
    requires r < |rows|
    ensures RowMajor(rows[..r], bits) + EncodeRow(rows[r], bits) <= RowMajor(rows, bits)
  {
    var upTo := rows[..r + 1];
    assert upTo[..r] == rows[..r] && upTo[r] == rows[r];
    RowMajorPrefix(rows, bits, r + 1);
  }

  /** Row r of the depth image occupies bytes [r*W*4, (r+1)*W*4). */
  lemma RowMajorRow(rows: seq<seq<real>>, width: nat, bits: real -> Word, r: nat)
    requires Uniform(rows, width) && r < |rows|
    ensures r * (4 * width) + 4 * width <= |RowMajor(rows, bits)|
    ensures RowMajor(rows, bits)[r * (4 * width) .. r * (4 * width) + 4 * width] == EncodeRow(rows[r], bits)
  {
    RowAfterRows(rows, bits, r);
    BlockAfterPrefix(RowMajor(rows[..r], bits), EncodeRow(rows[r], bits), RowMajor(rows, bits));
    assert Uniform(rows[..r], width);
    RowMajorLength(rows[..r], width, bits);
  }
}
