/** The car's RealSense camera (Racecar/CameraModule.cs): a colour image and
    a depth image, each recomputed at most once per frame behind a validity
    flag, and the asynchronous requests that refresh a buffer on the next
    Update. The rendered texture and the raycast hits of the current frame
    are inputs; `bits` is the four-byte encoding of a float. */
module Camera {
  import opened Wire
  import opened ImageBuffers
  import HostProtocol

  /** The depth channel's minimum range, in decimetres. */
  const DepthMinRange: real := 1.05

  function DepthSample(hit: Option<real>): (v: real)
    ensures hit.Some? && hit.value > DepthMinRange ==> v == hit.value * 10.0
    ensures hit.None? || hit.value <= DepthMinRange ==> v == 0.0
  {
    RangeCode(hit, DepthMinRange)
  }

  /** DepthWidth and DepthHeight: the colour dimensions over the factor. */
  function DepthWidth(factor: nat): nat
    requires factor > 0
  {
    ColorWidth / factor
  }

  function DepthHeight(factor: nat): nat
    requires factor > 0
  {
    ColorHeight / factor
  }

  /** The depth image from the raycast hits of each pixel. */
  function DepthImageOf(hits: seq<seq<Option<real>>>): (rows: seq<seq<real>>)
    ensures |rows| == |hits|
    ensures forall r :: 0 <= r < |hits| ==> |rows[r]| == |hits[r]|
    ensures forall r, c :: 0 <= r < |hits| && 0 <= c < |hits[r]| ==> rows[r][c] == DepthSample(hits[r][c])
  {
    seq(|hits|, r requires 0 <= r < |hits| => DepthRow(hits[r]))
  }

  function DepthRow(hits: seq<Option<real>>): (row: seq<real>)
    ensures |row| == |hits| && forall c :: 0 <= c < |hits| ==> row[c] == DepthSample(hits[c])
  {
    seq(|hits|, c requires 0 <= c < |hits| => DepthSample(hits[c]))
  }

  /** The resolutions the settings table offers give these depth sizes. */
  lemma DepthSizes()
    ensures DepthWidth(32) == 20 && DepthHeight(32) == 15
    ensures DepthWidth(16) == 40 && DepthHeight(16) == 30
    ensures DepthWidth(8) == 80 && DepthHeight(8) == 60
  {
  }

  class CameraModule {
    const depthWidth: nat
    const depthHeight: nat
    const colorImageRaw: array<byte>
    /** The depth values of the current frame, one row per pixel row. */
    var depthImage: seq<seq<real>>
    const depthImageRaw: array<byte>
    var isColorImageRawValid: bool
    var isDepthImageValid: bool
    var isDepthImageRawValid: bool
    var mustUpdateColorImageRaw: bool
    var mustUpdateDepthImageRaw: bool

    /** The buffers keep the sizes Awake gave them. */
    predicate Valid()
      reads this
    {
      colorImageRaw != depthImageRaw &&
      colorImageRaw.Length == ImageBytes &&
      depthImageRaw.Length == depthHeight * (4 * depthWidth) &&
      |depthImage| == depthHeight && Uniform(depthImage, depthWidth)
    }

    /** Awake, with the divide factor of the current settings. */
    constructor (factor: nat)
      requires factor > 0
      ensures Valid()
      ensures depthWidth == DepthWidth(factor) && depthHeight == DepthHeight(factor)
      ensures colorImageRaw.Length == 4 * ColorWidth * ColorHeight
      ensures depthImageRaw.Length == 4 * depthHeight * depthWidth
      ensures !isColorImageRawValid && !isDepthImageValid && !isDepthImageRawValid
      ensures !mustUpdateColorImageRaw && !mustUpdateDepthImageRaw
      ensures fresh(colorImageRaw) && fresh(depthImageRaw)
    {
      var w := DepthWidth(factor);
      var h := DepthHeight(factor);
      depthWidth := w;
      depthHeight := h;
      depthImage := seq(h, _ => seq(w, _ => 0.0));
      depthImageRaw := new byte[h * (4 * w)];
      colorImageRaw := new byte[ImageBytes];
      isColorImageRawValid := false;
      isDepthImageValid := false;
      isDepthImageRawValid := false;
      mustUpdateColorImageRaw := false;
      mustUpdateDepthImageRaw := false;
    }

    method UpdateColorImageRaw(rendered: seq<byte>)
      requires Valid() && |rendered| >= ImageBytes
      modifies colorImageRaw, this`isColorImageRawValid
      ensures Valid() && isColorImageRawValid
      ensures colorImageRaw[..] == ReversedRows(rendered)
    {
      CopyRowsReversed(rendered, colorImageRaw);
      isColorImageRawValid := true;
    }

    /** ColorImageRaw: recomputed only when the flag is down. */
    method ColorImageRaw(rendered: seq<byte>) returns (image: array<byte>)
      requires Valid() && |rendered| >= ImageBytes
      modifies colorImageRaw, this`isColorImageRawValid
      ensures Valid() && isColorImageRawValid && image == colorImageRaw
      ensures old(isColorImageRawValid) ==> image[..] == old(image[..])
      ensures !old(isColorImageRawValid) ==> image[..] == ReversedRows(rendered)
    {
      if !isColorImageRawValid {
        UpdateColorImageRaw(rendered);
      }
      return colorImageRaw;
    }

    /** UpdateDepthImage: one raycast per pixel, row by row. */
    method UpdateDepthImage(hits: seq<seq<Option<real>>>)
      requires Valid() && |hits| == depthHeight && forall r :: 0 <= r < |hits| ==> |hits[r]| == depthWidth
      modifies this`depthImage, this`isDepthImageValid
      ensures Valid() && isDepthImageValid
      ensures depthImage == DepthImageOf(hits)
    {
      var r := 0;
      while r < depthHeight
        invariant 0 <= r <= depthHeight && Valid()
        invariant forall j :: 0 <= j < r ==> depthImage[j] == DepthRow(hits[j])
      {
        depthImage := depthImage[r := DepthRow(hits[r])];
        r := r + 1;
      }
      isDepthImageValid := true;
    }

    method DepthImage(hits: seq<seq<Option<real>>>) returns (rows: seq<seq<real>>)
      requires Valid() && |hits| == depthHeight && forall r :: 0 <= r < |hits| ==> |hits[r]| == depthWidth
      modifies this`depthImage, this`isDepthImageValid
      ensures Valid() && isDepthImageValid && rows == depthImage
      ensures old(isDepthImageValid) ==> depthImage == old(depthImage)
      ensures !old(isDepthImageValid) ==> depthImage == DepthImageOf(hits)
    {
      if !isDepthImageValid {
        UpdateDepthImage(hits);
      }
      return depthImage;
    }

    /** UpdateDepthImageRaw: each depth row copied into its slice of the
        byte buffer. */
    method UpdateDepthImageRaw(hits: seq<seq<Option<real>>>, bits: real -> Word)
      requires Valid() && |hits| == depthHeight && forall r :: 0 <= r < |hits| ==> |hits[r]| == depthWidth
      modifies depthImageRaw, this`depthImage, this`isDepthImageValid, this`isDepthImageRawValid
      ensures Valid() && isDepthImageValid && isDepthImageRawValid
      ensures old(isDepthImageValid) ==> depthImage == old(depthImage)
      ensures !old(isDepthImageValid) ==> depthImage == DepthImageOf(hits)
      ensures depthImageRaw[..] == RowMajor(depthImage, bits)
    {
      var rows := DepthImage(hits);
      FillDepthImageRaw(rows, bits);
      isDepthImageRawValid := true;
    }

    /** The row loop of UpdateDepthImageRaw. */
    method FillDepthImageRaw(rows: seq<seq<real>>, bits: real -> Word)
      requires Valid() && rows == depthImage
      modifies depthImageRaw
      ensures depthImageRaw[..] == RowMajor(rows, bits)
    {
      var r := 0;
      var offset := 0;
      while r < depthHeight
        invariant 0 <= r <= depthHeight && offset == r * (4 * depthWidth)
        invariant |RowMajor(rows[..r], bits)| == offset && depthImageRaw[..offset] == RowMajor(rows[..r], bits)
      {
        CopyDepthRow(rows, bits, r, offset);
        offset := offset + 4 * depthWidth;
        r := r + 1;
      }
      assert rows[..r] == rows;
      assert depthImageRaw[..] == depthImageRaw[..offset];
    }

    /** One BlockCopy of UpdateDepthImageRaw's loop. */
    method CopyDepthRow(rows: seq<seq<real>>, bits: real -> Word, r: nat, offset: nat)
      requires Valid() && rows == depthImage && r < depthHeight && offset == r * (4 * depthWidth)
      requires |RowMajor(rows[..r], bits)| == offset && depthImageRaw[..offset] == RowMajor(rows[..r], bits)
      modifies depthImageRaw
      ensures offset + 4 * depthWidth == (r + 1) * (4 * depthWidth) <= depthImageRaw.Length
      ensures |RowMajor(rows[..r + 1], bits)| == offset + 4 * depthWidth
      ensures depthImageRaw[..offset + 4 * depthWidth] == RowMajor(rows[..r + 1], bits)
    {
      var row := EncodeRow(rows[r], bits);
      StrideStep(r, depthHeight, 4 * depthWidth);
      BlockCopy(row, 0, depthImageRaw, offset, 4 * depthWidth);
      assert rows[..r + 1][..r] == rows[..r] && rows[..r + 1][r] == rows[r];
      assert RowMajor(rows[..r + 1], bits) == RowMajor(rows[..r], bits) + row;
      assert depthImageRaw[..offset + 4 * depthWidth] == RowMajor(rows[..r], bits) + row;
    }

    method DepthImageRaw(hits: seq<seq<Option<real>>>, bits: real -> Word) returns (raw: array<byte>)
      requires Valid() && |hits| == depthHeight && forall r :: 0 <= r < |hits| ==> |hits[r]| == depthWidth
      modifies depthImageRaw, this`depthImage, this`isDepthImageValid, this`isDepthImageRawValid
      ensures Valid() && isDepthImageRawValid && raw == depthImageRaw
      ensures old(isDepthImageRawValid) ==>
                raw[..] == old(raw[..]) && depthImage == old(depthImage) && isDepthImageValid == old(isDepthImageValid)
      ensures !old(isDepthImageRawValid) ==> isDepthImageValid && raw[..] == RowMajor(depthImage, bits)
      ensures !old(isDepthImageRawValid) && old(isDepthImageValid) ==> depthImage == old(depthImage)
      ensures !old(isDepthImageRawValid) && !old(isDepthImageValid) ==> depthImage == DepthImageOf(hits)
    {
      if !isDepthImageRawValid {
        UpdateDepthImageRaw(hits, bits);
      }
      return depthImageRaw;
    }

    /** GetColorImageRawAsync: asks for a refresh on the next Update and
        returns the buffer as it is. */
    method GetColorImageRawAsync() returns (image: array<byte>)
      modifies this`mustUpdateColorImageRaw
      ensures mustUpdateColorImageRaw && image == colorImageRaw
    {
      mustUpdateColorImageRaw := true;
      return colorImageRaw;
    }

    method GetDepthImageRawAsync() returns (raw: array<byte>)
      modifies this`mustUpdateDepthImageRaw
      ensures mustUpdateDepthImageRaw && raw == depthImageRaw
    {
      mustUpdateDepthImageRaw := true;
      return depthImageRaw;
    }

    /** Update: the requested refreshes, each request then cleared; with a
        HUD the depth visualisation reads the depth image. */
    method Update(rendered: seq<byte>, hits: seq<seq<Option<real>>>, bits: real -> Word, hasHud: bool)
      requires Valid() && |rendered| >= ImageBytes
      requires |hits| == depthHeight && forall r :: 0 <= r < |hits| ==> |hits[r]| == depthWidth
      modifies colorImageRaw, depthImageRaw, this`depthImage
      modifies this`isColorImageRawValid, this`isDepthImageValid, this`isDepthImageRawValid
      modifies this`mustUpdateColorImageRaw, this`mustUpdateDepthImageRaw
      ensures Valid() && !mustUpdateColorImageRaw && !mustUpdateDepthImageRaw
      ensures old(mustUpdateColorImageRaw) ==> isColorImageRawValid && colorImageRaw[..] == ReversedRows(rendered)
      ensures !old(mustUpdateColorImageRaw) ==> isColorImageRawValid == old(isColorImageRawValid) && colorImageRaw[..] == old(colorImageRaw[..])
      ensures old(mustUpdateDepthImageRaw) ==> isDepthImageRawValid && depthImageRaw[..] == RowMajor(depthImage, bits)
      ensures !old(mustUpdateDepthImageRaw) ==> isDepthImageRawValid == old(isDepthImageRawValid) && depthImageRaw[..] == old(depthImageRaw[..])
      ensures old(mustUpdateDepthImageRaw) || hasHud ==> isDepthImageValid
      ensures (old(mustUpdateDepthImageRaw) || hasHud) && !old(isDepthImageValid) ==> depthImage == DepthImageOf(hits)
      ensures old(isDepthImageValid) || !(old(mustUpdateDepthImageRaw) || hasHud) ==>
                depthImage == old(depthImage) && isDepthImageValid == old(isDepthImageValid)
    {
      if mustUpdateColorImageRaw {
        UpdateColorImageRaw(rendered);
        mustUpdateColorImageRaw := false;
      }
      if mustUpdateDepthImageRaw {
        UpdateDepthImageRaw(hits, bits);
        mustUpdateDepthImageRaw := false;
      }
      if hasHud {
        var _ := DepthImage(hits);
      }
    }

    /** LateUpdate: every buffer goes stale for the next frame. */
    method LateUpdate()
      modifies this`isColorImageRawValid, this`isDepthImageValid, this`isDepthImageRawValid
      ensures !isColorImageRawValid && !isDepthImageValid && !isDepthImageRawValid
    {
      isColorImageRawValid := false;
      isDepthImageValid := false;
      isDepthImageRawValid := false;
    }
  }
}
