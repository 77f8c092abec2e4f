/**
 * ProcessImage.Run of the earlier revisions: the single-file function and
 * the one that receives ImageProcessingService by injection run the same
 * steps. Validate the request, decode the Base64 payload, load the image
 * and resize it three times, all before the store is touched; then create
 * the container and upload original, sized and thumbnail in that order,
 * each overwriting the blob of the same name. Any exception becomes a 400
 * response whose body is "Error: " followed by the exception's message.
 */
module LegacyPipeline {
  import opened Wrappers
  import opened Imaging
  import opened Requests
  import opened BlobStore
  import opened LegacyService

  /** The message of the exception a missing request or an empty required field throws. */
  const InvalidInput: string := "Invalid input parameters."

  /** The response a caught exception with message `message` turns into. */
  function BadRequest(message: string): Response {
    Failed(400, "Error: " + message)
  }

  /** The three resized frames of one request. */
  datatype Variants = Variants(original: Raster, sized: Raster, thumbnail: Raster)

  /** The suffixes the three variants are named by. */
  const OriginalSuffix: string := "original"
  const SizedSuffix: string := "sized"
  const ThumbnailSuffix: string := "thumbnail"

  /**
   * Everything before the store is touched: deserialise, check the required
   * fields, decode, load and resize; or the message of the exception that
   * stopped it.
   */
  function Prepare(rt: Runtime, lib: ImageSharp, body: string): Result<(Request, Variants)> {
    match rt.deserialize(body)
    case Failure(e) => Failure(e)
    case Success(None) => Failure(InvalidInput)
    case Success(Some(input)) =>
      if input.imageBase64 == "" || input.blobContainer == "" then Failure(InvalidInput)
      else match rt.fromBase64(input.imageBase64)
        case Failure(e) => Failure(e)
        case Success(bytes) =>
          match lib.load(bytes)
          case Failure(e) => Failure(e)
          case Success(frame) =>
            Success((input, Variants(lib.resize(frame, input.originalWidth, input.originalHeight),
                                     lib.resize(frame, input.sizedWidth, input.sizedHeight),
                                     lib.resize(frame, input.thumbnailWidth, input.thumbnailHeight))))
  }

  /** The blob name of one variant of the request. */
  function Name(input: Request, suffix: string): string {
    BlobName(input.fileName, suffix, input.extension)
  }

  /** The upload of one variant: its blob name and its blob. */
  function Variant(input: Request, suffix: string, frame: Raster): (string, Blob) {
    (Name(input, suffix), LegacyBlob(frame))
  }

  /** Create the container, then upload original, sized and thumbnail in that order. */
  function Publish(input: Request, v: Variants, b: Backend, s: Store): (Response, Store) {
    match Provision(b, s)
    case Failure(e) => (BadRequest(e), s)
    case Success(s1) =>
      var up := UploadThree(b, s1,
        Variant(input, OriginalSuffix, v.original),
        Variant(input, SizedSuffix, v.sized),
        Variant(input, ThumbnailSuffix, v.thumbnail));
      match up.fault
      case Some(e) => (BadRequest(e), up.store)
      case None => (Uris(up.uris[0], up.uris[1], up.uris[2]), up.store)
  }

  /** The response and the new store of one request with body `body` against a container in state `s`. */
  function Expected(rt: Runtime, lib: ImageSharp, body: string, b: Backend, s: Store): (Response, Store) {
    match Prepare(rt, lib, body)
    case Failure(e) => (BadRequest(e), s)
    case Success((input, v)) => Publish(input, v, b, s)
  }

  /** ProcessImage.Run, step by step against a container. */
  method Run(rt: Runtime, lib: ImageSharp, body: string, container: Container) returns (response: Response)
    modifies container
    ensures (response, container.State()) == Expected(rt, lib, body, container.backend, old(container.State()))
  {
    var parsed := rt.deserialize(body);
    if parsed.Failure? {
      return BadRequest(parsed.error);
    }
    if parsed.value.None? {
      return BadRequest(InvalidInput);
    }
    var input := parsed.value.value;
    if input.imageBase64 == "" || input.blobContainer == "" {
      return BadRequest(InvalidInput);
    }
    var decoded := rt.fromBase64(input.imageBase64);
    if decoded.Failure? {
      return BadRequest(decoded.error);
    }
    var loaded := Load(lib, decoded.value);
    if loaded.Failure? {
      return BadRequest(loaded.error);
    }
    var image := loaded.value;

    var originalImage := ResizeImage(lib, image, input.originalWidth, input.originalHeight);
    var sizedImage := ResizeImage(lib, image, input.sizedWidth, input.sizedHeight);
    var thumbnailImage := ResizeImage(lib, image, input.thumbnailWidth, input.thumbnailHeight);
    assert Prepare(rt, lib, body) == Success((input, Variants(originalImage.frame, sizedImage.frame, thumbnailImage.frame)));

    response := UploadVariants(input, originalImage, sizedImage, thumbnailImage, container);
  }

  /** The tail of Run: create the container, then upload the three resized images in turn. */
  method UploadVariants(input: Request, originalImage: Image, sizedImage: Image, thumbnailImage: Image, container: Container)
    returns (response: Response)
    modifies container
    ensures (response, container.State())
         == Publish(input, Variants(originalImage.frame, sizedImage.frame, thumbnailImage.frame), container.backend, old(container.State()))
  {
    var fault := container.CreateIfNotExists();
    if fault.Some? {
      return BadRequest(fault.value);
    }

    var originalBlob := UploadToBlobAsync(container, originalImage, input.fileName, OriginalSuffix, input.extension);
    if originalBlob.Failure? {
      return BadRequest(originalBlob.error);
    }
    var sizedBlob := UploadToBlobAsync(container, sizedImage, input.fileName, SizedSuffix, input.extension);
    if sizedBlob.Failure? {
      return BadRequest(sizedBlob.error);
    }
    var thumbnailBlob := UploadToBlobAsync(container, thumbnailImage, input.fileName, ThumbnailSuffix, input.extension);
    if thumbnailBlob.Failure? {
      return BadRequest(thumbnailBlob.error);
    }

    response := Uris(originalBlob.value, sizedBlob.value, thumbnailBlob.value);
  }

  // ---------------------------------------------------------------------
  // Lemmas

  /** The three variants of one request never share a blob name. */
  lemma NamesDistinct(input: Request)
    ensures Name(input, OriginalSuffix) != Name(input, SizedSuffix)
    ensures Name(input, OriginalSuffix) != Name(input, ThumbnailSuffix)
    ensures Name(input, SizedSuffix) != Name(input, ThumbnailSuffix)
  {
    if Name(input, OriginalSuffix) == Name(input, SizedSuffix) {
      NameInjective(input.fileName, OriginalSuffix, SizedSuffix, input.extension);
    }
    if Name(input, OriginalSuffix) == Name(input, ThumbnailSuffix) {
      NameInjective(input.fileName, OriginalSuffix, ThumbnailSuffix, input.extension);
    }
    if Name(input, SizedSuffix) == Name(input, ThumbnailSuffix) {
      NameInjective(input.fileName, SizedSuffix, ThumbnailSuffix, input.extension);
    }
  }

  /**
   * A missing request or an empty ImageBase64 or BlobContainer is answered
   * with "Error: Invalid input parameters." before anything is decoded or
   * the store is touched.
   */
  lemma InvalidParameters(rt: Runtime, lib: ImageSharp, body: string, b: Backend, s: Store)
    requires rt.deserialize(body).Success?
    requires rt.deserialize(body).value.None?
          || rt.deserialize(body).value.value.imageBase64 == ""
          || rt.deserialize(body).value.value.blobContainer == ""
    ensures Expected(rt, lib, body, b, s) == (Failed(400, "Error: Invalid input parameters."), s)
  {
    assert "Error: " + InvalidInput == "Error: Invalid input parameters.";
  }

  /** Every failure is a 400 whose body is "Error: " followed by the exception's message. */
  lemma OnlyBadRequests(rt: Runtime, lib: ImageSharp, body: string, b: Backend, s: Store)
    ensures Expected(rt, lib, body, b, s).0.Failed? ==>
      && Expected(rt, lib, body, b, s).0.status == 400
      && |Expected(rt, lib, body, b, s).0.body| >= 7
      && Expected(rt, lib, body, b, s).0.body[..7] == "Error: "
  {
  }

  /**
   * A request that cannot be loaded is answered before the store is
   * touched: the container is not even created.
   */
  lemma UnreadableImage(rt: Runtime, lib: ImageSharp, body: string, b: Backend, s: Store, input: Request, bytes: Bytes)
    requires rt.deserialize(body) == Success(Some(input))
    requires input.imageBase64 != "" && input.blobContainer != ""
    requires rt.fromBase64(input.imageBase64) == Success(bytes)
    requires lib.load(bytes).Failure?
    ensures Expected(rt, lib, body, b, s) == (Failed(400, "Error: " + lib.load(bytes).error), s)
  {
  }

  /**
   * With the container available and every name writable, the response
   * carries the three blobs' URIs and the store gains exactly the three
   * JPEG variants, each resized from the one loaded frame to its own
   * requested size, whatever the store held under those names before.
   */
  lemma Delivered(rt: Runtime, lib: ImageSharp, body: string, b: Backend, s: Store,
                  input: Request, bytes: Bytes, frame: Raster)
    requires rt.deserialize(body) == Success(Some(input))
    requires input.imageBase64 != "" && input.blobContainer != ""
    requires rt.fromBase64(input.imageBase64) == Success(bytes)
    requires lib.load(bytes) == Success(frame)
    requires b.provisionFault.None?
    requires Name(input, OriginalSuffix) !in b.writeFaults
    requires Name(input, SizedSuffix) !in b.writeFaults
    requires Name(input, ThumbnailSuffix) !in b.writeFaults
    ensures Expected(rt, lib, body, b, s).0
         == Uris(Uri(b, Name(input, OriginalSuffix)), Uri(b, Name(input, SizedSuffix)), Uri(b, Name(input, ThumbnailSuffix)))
    ensures Expected(rt, lib, body, b, s).1
         == Store(s.blobs[Name(input, OriginalSuffix) := LegacyBlob(lib.resize(frame, input.originalWidth, input.originalHeight))]
                         [Name(input, SizedSuffix) := LegacyBlob(lib.resize(frame, input.sizedWidth, input.sizedHeight))]
                         [Name(input, ThumbnailSuffix) := LegacyBlob(lib.resize(frame, input.thumbnailWidth, input.thumbnailHeight))], true)
  {
  }

  /**
   * Once the container exists, publishing is the general run of uploads
   * over original, sized and thumbnail: the request fails exactly when an
   * upload raises, with that upload's message, and the store then keeps
   * every upload made before it.
   */
  lemma PublishPlan(input: Request, v: Variants, b: Backend, s: Store)
    requires b.provisionFault.None?
    ensures var up := UploadAll(b, s.(provisioned := true),
                                [Variant(input, OriginalSuffix, v.original),
                                 Variant(input, SizedSuffix, v.sized),
                                 Variant(input, ThumbnailSuffix, v.thumbnail)]);
      && Publish(input, v, b, s).1 == up.store
      && (Publish(input, v, b, s).0.Failed? <==> up.fault.Some?)
      && (up.fault.Some? ==> Publish(input, v, b, s).0 == BadRequest(up.fault.value))
  {
    UploadAllThree(b, s.(provisioned := true),
                   Variant(input, OriginalSuffix, v.original),
                   Variant(input, SizedSuffix, v.sized),
                   Variant(input, ThumbnailSuffix, v.thumbnail));
  }

  /**
   * Uploads are not rolled back: when the sized upload fails, the new
   * original stays in the store without its sized and thumbnail variants.
   */
  lemma PartialWrite(rt: Runtime, lib: ImageSharp, body: string, b: Backend, s: Store, input: Request, v: Variants)
    requires Prepare(rt, lib, body) == Success((input, v))
    requires b.provisionFault.None?
    requires Name(input, OriginalSuffix) !in b.writeFaults
    requires Name(input, SizedSuffix) in b.writeFaults
    ensures Expected(rt, lib, body, b, s)
         == (BadRequest(b.writeFaults[Name(input, SizedSuffix)]),
             Store(s.blobs[Name(input, OriginalSuffix) := LegacyBlob(v.original)], true))
  {
  }

  /** Creating the container and uploading the same variants a second time changes nothing further. */
  lemma PublishIdempotent(input: Request, v: Variants, b: Backend, s: Store)
    ensures var (r1, s1) := Publish(input, v, b, s); Publish(input, v, b, s1) == (r1, s1)
  {
    var x := Variant(input, OriginalSuffix, v.original);
    var y := Variant(input, SizedSuffix, v.sized);
    var z := Variant(input, ThumbnailSuffix, v.thumbnail);
    var (r1, s1) := Publish(input, v, b, s);
    match Provision(b, s)
    case Failure(_) =>
    case Success(p) =>
      assert Provision(b, s1) == Success(s1);
      var m := p.blobs;
      if x.0 in b.writeFaults {
      } else if y.0 in b.writeFaults {
        assert s1.blobs == m[x.0 := x.1];
        assert s1.blobs[x.0 := x.1] == s1.blobs;
      } else if z.0 in b.writeFaults {
        assert s1.blobs == m[x.0 := x.1][y.0 := y.1];
        assert s1.blobs[x.0 := x.1][y.0 := y.1] == s1.blobs;
      } else {
        assert s1.blobs == m[x.0 := x.1][y.0 := y.1][z.0 := z.1];
        assert s1.blobs[x.0 := x.1][y.0 := y.1][z.0 := z.1] == s1.blobs;
      }
  }

  /**
   * Sending the same request again, against the store the first attempt
   * left, gives the same response and leaves the store as it was: every
   * upload overwrites, and an exception recurs where it first occurred.
   */
  lemma Rerun(rt: Runtime, lib: ImageSharp, body: string, b: Backend, s: Store)
    ensures Expected(rt, lib, body, b, Expected(rt, lib, body, b, s).1) == Expected(rt, lib, body, b, s)
  {
    match Prepare(rt, lib, body)
    case Failure(_) =>
    case Success((input, v)) => PublishIdempotent(input, v, b, s);
  }

  /**
   * After a request has succeeded, sending it again, even to a service that
   * now raises different exceptions, leaves the store as the first run
   * left it; and when the second run succeeds it answers with the same
   * URIs. Every upload rewrites the blob already there.
   */
  lemma Repeat(rt: Runtime, lib: ImageSharp, body: string, b: Backend, c: Backend, s: Store)
    requires Expected(rt, lib, body, b, s).0.Uris?
    requires c.containerUri == b.containerUri
    ensures var t := Expected(rt, lib, body, b, s).1;
      && Expected(rt, lib, body, c, t).1 == t
      && (Expected(rt, lib, body, c, t).0.Uris? ==> Expected(rt, lib, body, c, t).0 == Expected(rt, lib, body, b, s).0)
  {
    assert Prepare(rt, lib, body).Success?;
    var (input, v) := Prepare(rt, lib, body).value;
    var x := Variant(input, OriginalSuffix, v.original);
    var y := Variant(input, SizedSuffix, v.sized);
    var z := Variant(input, ThumbnailSuffix, v.thumbnail);
    NamesDistinct(input);
    var p := Provision(b, s).value;
    UploadThreeShape(b, p, x, y, z);
    var t := Expected(rt, lib, body, b, s).1;
    assert t.provisioned;
    assert t.blobs == p.blobs[x.0 := x.1][y.0 := y.1][z.0 := z.1];
    if c.provisionFault.None? {
      assert Provision(c, t) == Success(t);
      if x.0 in c.writeFaults {
      } else if y.0 in c.writeFaults {
        assert t.blobs[x.0 := x.1] == t.blobs;
      } else if z.0 in c.writeFaults {
        assert t.blobs[x.0 := x.1][y.0 := y.1] == t.blobs;
      } else {
        assert t.blobs[x.0 := x.1][y.0 := y.1][z.0 := z.1] == t.blobs;
      }
    }
  }
}
