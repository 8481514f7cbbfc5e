/** ImageCaptureHelper (Racecar/ImageCaptureHelper.cs): a colour image cache
    for an arbitrary camera. Unlike the car's camera and the drone it has no
    Update or LateUpdate of its own: no member of the class lowers the
    validity flag or acts on the refresh request, so both are left to the
    code that owns the helper. */
module ImageCapture {
  import opened Wire
  import opened ImageBuffers

  class ImageCaptureHelper {
    const rawImage: array<byte>
    var isRawImageValid: bool
    var mustUpdateRawImage: bool

    predicate Valid()
      reads this
    {
      rawImage.Length == ImageBytes
    }

    constructor ()
      ensures Valid() && fresh(rawImage)
      ensures !isRawImageValid && !mustUpdateRawImage
    {
      rawImage := new byte[4 * ColorWidth * ColorHeight];
      isRawImageValid := false;
      mustUpdateRawImage := false;
    }

    method UpdateRawImage(rendered: seq<byte>)
      requires Valid() && |rendered| >= ImageBytes
      modifies rawImage, this`isRawImageValid
      ensures isRawImageValid && rawImage[..] == ReversedRows(rendered)
    {
      CopyRowsReversed(rendered, rawImage);
      isRawImageValid := true;
    }

    /** RawImage: once valid the image is never recomputed by the helper. */
    method RawImage(rendered: seq<byte>) returns (image: array<byte>)
      requires Valid() && |rendered| >= ImageBytes
      modifies rawImage, this`isRawImageValid
      ensures isRawImageValid && image == rawImage
      ensures old(isRawImageValid) ==> image[..] == old(image[..])
      ensures !old(isRawImageValid) ==> image[..] == ReversedRows(rendered)
    {
      if !isRawImageValid {
        UpdateRawImage(rendered);
      }
      return rawImage;
    }

    /** GetRawImageAsync: raises the request, which nothing in the class
        consumes, and returns the buffer as it is. */
    method GetRawImageAsync() returns (image: array<byte>)
      modifies this`mustUpdateRawImage
      ensures mustUpdateRawImage && image == rawImage
    {
      mustUpdateRawImage := true;
      return rawImage;
    }
  }
}
