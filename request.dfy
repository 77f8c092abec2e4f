/**
 * The request record the function deserialises from the HTTP body, the
 * response it writes, and the two .NET calls that turn the body into a
 * request and the Base64 text into bytes.
 */
module Requests {
  import opened Wrappers
  import opened Imaging

  /**
   * ImageProcessingRequest. A null string property is folded into "": every
   * use the code makes of these properties (IsNullOrEmpty, concatenation,
   * interpolation, Path.GetFileNameWithoutExtension) treats the two alike.
   */
  datatype Request = Request(
    imageBase64: string,
    useHashForFileName: bool,
    deDupe: bool,
    fileName: string,
    extension: string,
    originalWidth: int,
    originalHeight: int,
    sizedWidth: int,
    sizedHeight: int,
    thumbnailWidth: int,
    thumbnailHeight: int,
    blobConnectionString: string,
    blobContainer: string,
    subDirectory: string)

  /**
   * The HTTP response: 200 with a JSON body mapping each variant to its URI,
   * or an error status with a text body.
   */
  datatype Response =
    | Uris(original: string, sized: string, thumbnail: string)
    | Failed(status: int, body: string)

  /**
   * `JsonSerializer.Deserialize<ImageProcessingRequest>(body)`, which yields
   * null for the JSON literal null and throws on malformed JSON, and
   * `Convert.FromBase64String`, which throws FormatException on text that is
   * not Base64 (section 4 of RFC 4648).
   */
  datatype Runtime = Runtime(
    deserialize: string -> Result<Option<Request>>,
    fromBase64: string -> Result<Bytes>)
}
