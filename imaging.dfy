/**
 * The slice of ImageSharp that the pipeline uses. Pixel decoding, resizing
 * and JPEG encoding are library code: a decoded raster is an abstract value,
 * and `Image.Load` and `Resize` with ResizeMode.Max are the functions an
 * `ImageSharp` value supplies.
 */
module Imaging {
  import opened Wrappers

  type Byte = bv8
  type Bytes = seq<Byte>

  /** Decoded pixels of one image; what they are is left to the library. */
  type Raster

  /** The library calls: `Image.Load(stream)` (which throws on an unknown format) and a max-fit resize. */
  datatype ImageSharp = ImageSharp(
    load: Bytes -> Result<Raster>,
    resize: (Raster, int, int) -> Raster)

  /** `new JpegEncoder { Quality = 85 }`, the only encoder the code saves with. */
  const JpegQuality: int := 85

  /** What `image.Save(ms, encoder)` writes into the stream: the pixels, JPEG-encoded at a quality. */
  datatype Payload = Jpeg(frame: Raster, quality: int)

  /** An ImageSharp `Image`: a mutable object holding decoded pixels. */
  class Image {
    var frame: Raster

    constructor (frame: Raster)
      ensures this.frame == frame
    {
      this.frame := frame;
    }

    /** `image.Save(ms, new JpegEncoder { Quality = 85 })`. */
    function SaveAsJpeg(): (p: Payload)
      reads this
    {
      Jpeg(frame, JpegQuality)
    }
  }

  /** `Image.Load(stream)`: a fresh image, or the library's exception message. */
  method Load(lib: ImageSharp, bytes: Bytes) returns (r: Result<Image>)
    ensures lib.load(bytes).Failure? ==> r == Failure(lib.load(bytes).error)
    ensures lib.load(bytes).Success? ==> r.Success? && fresh(r.value) && r.value.frame == lib.load(bytes).value
  {
    match lib.load(bytes)
    case Failure(e) =>
      r := Failure(e);
    case Success(frame) =>
      var image := new Image(frame);
      r := Success(image);
  }

  /**
   * `ResizeImage(image, width, height)`: `image.Clone(ctx => ctx.Resize(...))`.
   * The result is a new image; the input is read and not modified, so every
   * derivative computed from it sees the same pixels.
   */
  method ResizeImage(lib: ImageSharp, image: Image, width: int, height: int) returns (r: Image)
    ensures fresh(r)
    ensures r.frame == lib.resize(image.frame, width, height)
    ensures image.frame == old(image.frame)
  {
    r := new Image(lib.resize(image.frame, width, height));
  }
}
