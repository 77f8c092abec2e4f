/**
 * ProcessImage.Run of the current revision: validate the request, check
 * the Base64 payload, create the container, derive three blob names from
 * one prefix, stop early when deduplication finds the original already
 * stored, and otherwise resize the decoded image three times and upload
 * thumbnail, sized and original in that order. Any exception becomes a
 * 500 response with a fixed body.
 *
 * The code builds the key prefix from `input.UploadPath`, a property the
 * request record does not declare (it declares SubDirectory); the prefix
 * is therefore a parameter of its own, used verbatim.
 */
module Pipeline {
  import opened Wrappers
  import opened DotNetPath
  import opened Imaging
  import opened Requests
  import opened BlobStore
  import opened Service

  /** The response every caught exception turns into. */
  const ServerError: Response := Failed(500, "Error processing image.")

  /** The three blob names of one request. */
  datatype Keys = Keys(original: string, sized: string, thumbnail: string)

  /** `UploadPath + FileName + "_<variant>." + Extension`, for each variant. */
  function BlobNames(uploadPath: string, input: Request): Keys {
    Keys(uploadPath + input.fileName + "_original." + input.extension,
         uploadPath + input.fileName + "_sized." + input.extension,
         uploadPath + input.fileName + "_thumbnail." + input.extension)
  }

  /**
   * The checks made before any store operation, with the message of the
   * exception each failed check throws: deserialisation, a null payload,
   * an empty ImageBase64 or BlobContainer, Base64 that does not decode.
   */
  function Validate(rt: Runtime, body: string): Result<(Request, Bytes)> {
    match rt.deserialize(body)
    case Failure(e) => Failure(e)
    case Success(None) => Failure("Input payload cannot be null.")
    case Success(Some(input)) =>
      if input.imageBase64 == "" || input.blobContainer == "" then Failure("Invalid input parameters.")
      else match rt.fromBase64(input.imageBase64)
        case Failure(_) => Failure("Invalid Base64 string.")
        case Success(bytes) => Success((input, bytes))
  }

  /** The upload of one variant: its name and its blob, a resize of the one decoded frame. */
  function Derivative(lib: ImageSharp, frame: Raster, key: string, width: int, height: int): (string, Blob) {
    (key, ServiceBlob(lib.resize(frame, width, height), key))
  }

  /** The three uploads in the order the code makes them: thumbnail, sized, original. */
  function Plan(lib: ImageSharp, frame: Raster, input: Request, keys: Keys): seq<(string, Blob)> {
    [Derivative(lib, frame, keys.thumbnail, input.thumbnailWidth, input.thumbnailHeight),
     Derivative(lib, frame, keys.sized, input.sizedWidth, input.sizedHeight),
     Derivative(lib, frame, keys.original, input.originalWidth, input.originalHeight)]
  }

  /** Decode, then resize and upload thumbnail, sized and original, each from the decoded frame. */
  function Derive(lib: ImageSharp, input: Request, bytes: Bytes, keys: Keys, b: Backend, s: Store): (Response, Store) {
    match lib.load(bytes)
    case Failure(_) => (ServerError, s)
    case Success(frame) =>
      var up := UploadThree(b, s,
        Derivative(lib, frame, keys.thumbnail, input.thumbnailWidth, input.thumbnailHeight),
        Derivative(lib, frame, keys.sized, input.sizedWidth, input.sizedHeight),
        Derivative(lib, frame, keys.original, input.originalWidth, input.originalHeight));
      if up.fault.Some? then (ServerError, up.store)
      else (Uris(up.uris[2], up.uris[1], up.uris[0]), up.store)
  }

  /** Everything after validation: container, dedupe gate, then the derivatives. */
  function Generate(lib: ImageSharp, input: Request, bytes: Bytes, uploadPath: string, b: Backend, s: Store): (Response, Store) {
    match Provision(b, s)
    case Failure(_) => (ServerError, s)
    case Success(s1) =>
      var keys := BlobNames(uploadPath, input);
      var hit := if input.deDupe then Query(b, s1, keys.original) else Success(false);
      match hit
      case Failure(_) => (ServerError, s1)
      case Success(true) =>
        var u := Uri(b, keys.original);
        (Uris(u, u, u), s1)
      case Success(false) => Derive(lib, input, bytes, keys, b, s1)
  }

  /** The response and the new store of one request with body `body` against a container in state `s`. */
  function Expected(rt: Runtime, lib: ImageSharp, body: string, uploadPath: string, b: Backend, s: Store): (Response, Store) {
    match Validate(rt, body)
    case Failure(_) => (ServerError, s)
    case Success((input, bytes)) => Generate(lib, input, bytes, uploadPath, b, s)
  }

  /** ProcessImage.Run, step by step against a container. */
  method Run(rt: Runtime, lib: ImageSharp, body: string, uploadPath: string, container: Container) returns (response: Response)
    modifies container
    ensures (response, container.State()) == Expected(rt, lib, body, uploadPath, container.backend, old(container.State()))
  {
    var parsed := rt.deserialize(body);
    if parsed.Failure? {
      return ServerError;
    }
    if parsed.value.None? {
      return ServerError;
    }
    var input := parsed.value.value;
    if input.imageBase64 == "" || input.blobContainer == "" {
      return ServerError;
    }
    var decoded := rt.fromBase64(input.imageBase64);
    if decoded.Failure? {
      return ServerError;
    }
    var imageBytes := decoded.value;
    assert Validate(rt, body) == Success((input, imageBytes));

    var fault := container.CreateIfNotExists();
    if fault.Some? {
      return ServerError;
    }

    var originalBlobName := uploadPath + input.fileName + "_original." + input.extension;
    var sizedBlobName := uploadPath + input.fileName + "_sized." + input.extension;
    var thumbnailBlobName := uploadPath + input.fileName + "_thumbnail." + input.extension;

    if input.deDupe {
      var found := container.Exists(originalBlobName);
      if found.Failure? {
        return ServerError;
      }
      if found.value {
        var uri := Uri(container.backend, originalBlobName);
        return Uris(uri, uri, uri);
      }
    }

    response := UploadDerivatives(lib, input, imageBytes, Keys(originalBlobName, sizedBlobName, thumbnailBlobName), container);
  }

  /** The tail of Run past the dedupe gate: load the image, then resize and upload each variant in turn. */
  method UploadDerivatives(lib: ImageSharp, input: Request, imageBytes: Bytes, keys: Keys, container: Container) returns (response: Response)
    modifies container
    ensures (response, container.State()) == Derive(lib, input, imageBytes, keys, container.backend, old(container.State()))
  {
    var loaded := Load(lib, imageBytes);
    if loaded.Failure? {
      return ServerError;
    }
    var image := loaded.value;

    var thumbnailBlob := UploadVariant(lib, image, keys.thumbnail, input.thumbnailWidth, input.thumbnailHeight, container);
    if thumbnailBlob.Failure? {
      return ServerError;
    }
    var sizedBlob := UploadVariant(lib, image, keys.sized, input.sizedWidth, input.sizedHeight, container);
    if sizedBlob.Failure? {
      return ServerError;
    }
    var originalBlob := UploadVariant(lib, image, keys.original, input.originalWidth, input.originalHeight, container);
    if originalBlob.Failure? {
      return ServerError;
    }

    response := Uris(originalBlob.value, sizedBlob.value, thumbnailBlob.value);
  }

  /** One step of Run: resize the decoded image and upload the copy under `key`. */
  method UploadVariant(lib: ImageSharp, image: Image, key: string, width: int, height: int, container: Container)
    returns (r: Result<string>)
    modifies container
    ensures var (name, blob) := Derivative(lib, image.frame, key, width, height);
      (r, container.State()) == Put(container.backend, old(container.State()), name, blob)
  {
    var resized := ResizeImage(lib, image, width, height);
    r := UploadToBlobAsync(container, resized, key);
  }

  // ---------------------------------------------------------------------
  // Lemmas

  /**
   * Derive is the general run of uploads over the plan: the request fails
   * exactly when an upload raises, and the store then keeps the uploads
   * made before it.
   */
  lemma DerivePlan(lib: ImageSharp, input: Request, bytes: Bytes, keys: Keys, b: Backend, s: Store, frame: Raster)
    requires lib.load(bytes) == Success(frame)
    ensures var up := UploadAll(b, s, Plan(lib, frame, input, keys));
      && Derive(lib, input, bytes, keys, b, s).1 == up.store
      && (Derive(lib, input, bytes, keys, b, s).0 == ServerError <==> up.fault.Some?)
  {
    var p := Plan(lib, frame, input, keys);
    UploadAllThree(b, s, p[0], p[1], p[2]);
    assert p == [p[0], p[1], p[2]];
  }

  /** The three names of one request differ in the character after the prefix: 'o', 's', 't'. */
  lemma KeysDistinct(uploadPath: string, input: Request)
    ensures BlobNames(uploadPath, input).original != BlobNames(uploadPath, input).sized
    ensures BlobNames(uploadPath, input).original != BlobNames(uploadPath, input).thumbnail
    ensures BlobNames(uploadPath, input).sized != BlobNames(uploadPath, input).thumbnail
  {
    var keys := BlobNames(uploadPath, input);
    var n := |uploadPath + input.fileName| + 1;
    assert keys.original[n] == 'o';
    assert keys.sized[n] == 's';
    assert keys.thumbnail[n] == 't';
  }

  /**
   * A request that fails validation (no JSON, a null payload, an empty
   * ImageBase64 or BlobContainer, text that is not Base64) is answered
   * before the store is touched: the container is not created and no name
   * is queried or written.
   */
  lemma Rejected(rt: Runtime, lib: ImageSharp, body: string, uploadPath: string, b: Backend, s: Store)
    requires Validate(rt, body).Failure?
    ensures Expected(rt, lib, body, uploadPath, b, s) == (ServerError, s)
  {
  }

  /** Every failure, whatever its cause, is answered with the same 500 response. */
  lemma OnlyServerErrors(rt: Runtime, lib: ImageSharp, body: string, uploadPath: string, b: Backend, s: Store)
    ensures Expected(rt, lib, body, uploadPath, b, s).0.Failed? ==> Expected(rt, lib, body, uploadPath, b, s).0 == ServerError
  {
  }

  /**
   * With deduplication on and the original already stored, the response
   * gives the original's URI for all three variants, the image is neither
   * loaded nor resized (the imaging library plays no part), and no blob is
   * written.
   */
  lemma DedupeHit(rt: Runtime, lib: ImageSharp, other: ImageSharp, body: string, uploadPath: string, b: Backend, s: Store,
                  input: Request, bytes: Bytes)
    requires Validate(rt, body) == Success((input, bytes))
    requires input.deDupe && b.provisionFault.None?
    requires BlobNames(uploadPath, input).original in s.blobs
    requires BlobNames(uploadPath, input).original !in b.queryFaults
    ensures var u := Uri(b, BlobNames(uploadPath, input).original);
      Expected(rt, lib, body, uploadPath, b, s) == (Uris(u, u, u), s.(provisioned := true))
    ensures Expected(rt, other, body, uploadPath, b, s) == Expected(rt, lib, body, uploadPath, b, s)
  {
  }

  /** Without deduplication the existence check is never made, so its failures cannot matter. */
  lemma NoDedupeNoQuery(rt: Runtime, lib: ImageSharp, body: string, uploadPath: string, b: Backend, s: Store,
                        input: Request, bytes: Bytes, queryFaults: map<string, string>)
    requires Validate(rt, body) == Success((input, bytes))
    requires !input.deDupe
    ensures Expected(rt, lib, body, uploadPath, b.(queryFaults := queryFaults), s) == Expected(rt, lib, body, uploadPath, b, s)
  {
    var c := b.(queryFaults := queryFaults);
    var keys := BlobNames(uploadPath, input);
    match Provision(b, s)
    case Failure(_) =>
    case Success(s1) =>
      match lib.load(bytes)
      case Failure(_) =>
      case Success(frame) =>
        var x := Derivative(lib, frame, keys.thumbnail, input.thumbnailWidth, input.thumbnailHeight);
        var y := Derivative(lib, frame, keys.sized, input.sizedWidth, input.sizedHeight);
        var z := Derivative(lib, frame, keys.original, input.originalWidth, input.originalHeight);
        UploadThreeReads(c, b, s1, x, y, z);
        assert Derive(lib, input, bytes, keys, c, s1) == Derive(lib, input, bytes, keys, b, s1);
  }

  /**
   * An image the library cannot load is found out only after the container
   * has been created (and the existence check passed): the request fails,
   * the container stays created, and no blob is written.
   */
  lemma UnreadableImage(rt: Runtime, lib: ImageSharp, body: string, uploadPath: string, b: Backend, s: Store,
                        input: Request, bytes: Bytes)
    requires Validate(rt, body) == Success((input, bytes))
    requires b.provisionFault.None?
    requires input.deDupe ==> BlobNames(uploadPath, input).original !in s.blobs
    requires input.deDupe ==> BlobNames(uploadPath, input).original !in b.queryFaults
    requires lib.load(bytes).Failure?
    ensures Expected(rt, lib, body, uploadPath, b, s) == (ServerError, s.(provisioned := true))
  {
  }

  /**
   * A request that gets past the existence check and whose uploads all
   * succeed answers with the three blobs' URIs, which are distinct, and
   * leaves the store with exactly the three variants written over it,
   * each resized from the one decoded frame and tagged with the content
   * type of its own name.
   */
  lemma Delivered(rt: Runtime, lib: ImageSharp, body: string, uploadPath: string, b: Backend, s: Store,
                  input: Request, bytes: Bytes, frame: Raster)
    requires Validate(rt, body) == Success((input, bytes))
    requires b.provisionFault.None?
    requires input.deDupe ==> BlobNames(uploadPath, input).original !in s.blobs
    requires input.deDupe ==> BlobNames(uploadPath, input).original !in b.queryFaults
    requires lib.load(bytes) == Success(frame)
    requires BlobNames(uploadPath, input).original !in b.writeFaults
    requires BlobNames(uploadPath, input).sized !in b.writeFaults
    requires BlobNames(uploadPath, input).thumbnail !in b.writeFaults
    ensures var k := BlobNames(uploadPath, input);
      Expected(rt, lib, body, uploadPath, b, s).0 == Uris(Uri(b, k.original), Uri(b, k.sized), Uri(b, k.thumbnail))
    ensures var k := BlobNames(uploadPath, input);
      Expected(rt, lib, body, uploadPath, b, s).1
        == Store(s.blobs[k.thumbnail := ServiceBlob(lib.resize(frame, input.thumbnailWidth, input.thumbnailHeight), k.thumbnail)]
                        [k.sized := ServiceBlob(lib.resize(frame, input.sizedWidth, input.sizedHeight), k.sized)]
                        [k.original := ServiceBlob(lib.resize(frame, input.originalWidth, input.originalHeight), k.original)], true)
    ensures var k := BlobNames(uploadPath, input);
      Uri(b, k.original) != Uri(b, k.sized) && Uri(b, k.original) != Uri(b, k.thumbnail) && Uri(b, k.sized) != Uri(b, k.thumbnail)
  {
    var k := BlobNames(uploadPath, input);
    KeysDistinct(uploadPath, input);
    if Uri(b, k.original) == Uri(b, k.sized) { UriInjective(b, k.original, k.sized); }
    if Uri(b, k.original) == Uri(b, k.thumbnail) { UriInjective(b, k.original, k.thumbnail); }
    if Uri(b, k.sized) == Uri(b, k.thumbnail) { UriInjective(b, k.sized, k.thumbnail); }
  }

  /**
   * With an extension free of dots and separators, all three variants carry
   * the content type of that extension, whatever its case.
   */
  lemma VariantsTagged(uploadPath: string, input: Request, frame: Raster)
    requires Plain(input.extension)
    ensures var k := BlobNames(uploadPath, input);
      && ServiceBlob(frame, k.original).contentType == Some(MediaType(ToLower(input.extension)))
      && ServiceBlob(frame, k.sized).contentType == Some(MediaType(ToLower(input.extension)))
      && ServiceBlob(frame, k.thumbnail).contentType == Some(MediaType(ToLower(input.extension)))
  {
    var p := uploadPath + input.fileName;
    var e := input.extension;
    assert p + "_original." + e == (p + "_original") + "." + e;
    assert p + "_sized." + e == (p + "_sized") + "." + e;
    assert p + "_thumbnail." + e == (p + "_thumbnail") + "." + e;
    ContentTypeOfExtension(p + "_original", e);
    ContentTypeOfExtension(p + "_sized", e);
    ContentTypeOfExtension(p + "_thumbnail", e);
  }

  /** The original is present only alongside its sized and thumbnail variants. */
  ghost predicate Complete(blobs: map<string, Blob>, keys: Keys) {
    keys.original in blobs ==> keys.sized in blobs && keys.thumbnail in blobs
  }

  /**
   * The original is uploaded last, so a request, successful or not, never
   * leaves an original without its two variants; this is what lets the
   * existence check look at the original alone.
   */
  lemma OriginalLast(rt: Runtime, lib: ImageSharp, body: string, uploadPath: string, b: Backend, s: Store,
                     input: Request, bytes: Bytes)
    requires Validate(rt, body) == Success((input, bytes))
    requires Complete(s.blobs, BlobNames(uploadPath, input))
    ensures Complete(Expected(rt, lib, body, uploadPath, b, s).1.blobs, BlobNames(uploadPath, input))
  {
    var keys := BlobNames(uploadPath, input);
    KeysDistinct(uploadPath, input);
    match Provision(b, s)
    case Failure(_) =>
    case Success(s1) =>
      var hit := if input.deDupe then Query(b, s1, keys.original) else Success(false);
      if hit == Success(false) {
        match lib.load(bytes)
        case Failure(_) =>
        case Success(frame) =>
          var x := Derivative(lib, frame, keys.thumbnail, input.thumbnailWidth, input.thumbnailHeight);
          var y := Derivative(lib, frame, keys.sized, input.sizedWidth, input.sizedHeight);
          var z := Derivative(lib, frame, keys.original, input.originalWidth, input.originalHeight);
          var up := UploadThree(b, s1, x, y, z);
          assert Expected(rt, lib, body, uploadPath, b, s).1 == up.store;
          UploadThreeShape(b, s1, x, y, z);
          if up.fault.Some? {
            UploadThreeFrame(b, s1, x, y, z, keys.original);
          }
      }
  }

  /**
   * A request that fails leaves the blob under the original's name as it
   * was, and no request changes a blob under any other name than its three.
   */
  lemma Footprint(rt: Runtime, lib: ImageSharp, body: string, uploadPath: string, b: Backend, s: Store,
                  input: Request, bytes: Bytes, key: string)
    requires Validate(rt, body) == Success((input, bytes))
    requires var k := BlobNames(uploadPath, input);
      && key != k.sized && key != k.thumbnail
      && (key != k.original || Expected(rt, lib, body, uploadPath, b, s).0.Failed?)
    ensures var t := Expected(rt, lib, body, uploadPath, b, s).1;
      (key in t.blobs <==> key in s.blobs) && (key in s.blobs ==> t.blobs[key] == s.blobs[key])
  {
    var keys := BlobNames(uploadPath, input);
    KeysDistinct(uploadPath, input);
    match Provision(b, s)
    case Failure(_) =>
    case Success(s1) =>
      var hit := if input.deDupe then Query(b, s1, keys.original) else Success(false);
      if hit == Success(false) {
        match lib.load(bytes)
        case Failure(_) =>
        case Success(frame) =>
          var x := Derivative(lib, frame, keys.thumbnail, input.thumbnailWidth, input.thumbnailHeight);
          var y := Derivative(lib, frame, keys.sized, input.sizedWidth, input.sizedHeight);
          var z := Derivative(lib, frame, keys.original, input.originalWidth, input.originalHeight);
          var up := UploadThree(b, s1, x, y, z);
          assert Expected(rt, lib, body, uploadPath, b, s) == Derive(lib, input, bytes, keys, b, s1);
          assert Expected(rt, lib, body, uploadPath, b, s).0.Failed? <==> up.fault.Some?;
          UploadThreeFrame(b, s1, x, y, z, key);
      }
  }

  /**
   * With deduplication on, sending a request again after it succeeded,
   * even to a service that now raises different exceptions, writes
   * nothing: the second run either fails or answers with the original's
   * URI for all three variants, and it does the latter whenever the
   * container and the existence check do not raise.
   */
  lemma DedupeRerun(rt: Runtime, lib: ImageSharp, body: string, uploadPath: string, b: Backend, c: Backend, s: Store,
                    input: Request, bytes: Bytes)
    requires Validate(rt, body) == Success((input, bytes))
    requires input.deDupe
    requires Expected(rt, lib, body, uploadPath, b, s).0.Uris?
    requires c.containerUri == b.containerUri
    ensures var t := Expected(rt, lib, body, uploadPath, b, s).1;
      var u := Uri(b, BlobNames(uploadPath, input).original);
      && Expected(rt, lib, body, uploadPath, c, t).1 == t
      && (Expected(rt, lib, body, uploadPath, c, t).0 == ServerError || Expected(rt, lib, body, uploadPath, c, t).0 == Uris(u, u, u))
      && (c.provisionFault.None? && BlobNames(uploadPath, input).original !in c.queryFaults ==>
            Expected(rt, lib, body, uploadPath, c, t).0 == Uris(u, u, u))
  {
    var keys := BlobNames(uploadPath, input);
    var t := Expected(rt, lib, body, uploadPath, b, s).1;
    var s1 := Provision(b, s).value;
    if Query(b, s1, keys.original) == Success(false) {
      var frame := lib.load(bytes).value;
      var x := Derivative(lib, frame, keys.thumbnail, input.thumbnailWidth, input.thumbnailHeight);
      var y := Derivative(lib, frame, keys.sized, input.sizedWidth, input.sizedHeight);
      var z := Derivative(lib, frame, keys.original, input.originalWidth, input.originalHeight);
      assert t == UploadThree(b, s1, x, y, z).store;
      UploadThreeShape(b, s1, x, y, z);
    }
    assert keys.original in t.blobs && t.provisioned;
    if c.provisionFault.None? {
      assert Provision(c, t) == Success(t);
    }
  }
}
