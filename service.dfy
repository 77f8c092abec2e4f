/**
 * ImageProcessingService of the current revision: resizing (a clone, see
 * Imaging.ResizeImage), the upload of one image under a name taken
 * verbatim, and the content type that upload declares, looked up from the
 * name's extension.
 */
module Service {
  import opened Wrappers
  import opened DotNetPath
  import opened Imaging
  import opened BlobStore

  /** The fallback for extensions the switch does not list. */
  const OctetStream: string := "application/octet-stream"

  /** The eleven extensions the switch lists. */
  const Listed: set<string> := {"jpg", "jpeg", "png", "gif", "bmp", "tiff", "webp", "svg", "ico", "pdf", "heic"}

  /** The ten MIME types the switch answers a listed extension with. */
  const ListedTypes: set<string> := {"image/jpeg", "image/png", "image/gif", "image/bmp", "image/tiff",
                                     "image/webp", "image/svg+xml", "image/x-icon", "application/pdf", "image/heic"}

  /** The switch of GetContentType, on an extension already lower-cased and stripped of its dot. */
  function MediaType(ext: string): string {
    match ext
    case "jpg" => "image/jpeg"
    case "jpeg" => "image/jpeg"
    case "png" => "image/png"
    case "gif" => "image/gif"
    case "bmp" => "image/bmp"
    case "tiff" => "image/tiff"
    case "webp" => "image/webp"
    case "svg" => "image/svg+xml"
    case "ico" => "image/x-icon"
    case "pdf" => "application/pdf"
    case "heic" => "image/heic"
    case _ => OctetStream
  }

  /** `Path.GetExtension(path).TrimStart('.').ToLower()`: the text the switch looks at. */
  function ExtensionKey(path: string): string {
    ToLower(TrimStart(GetExtension(path), Dot))
  }

  /** GetContentType: the switch applied to the path's extension key. */
  function GetContentType(path: string): string {
    MediaType(ExtensionKey(path))
  }

  /** A listed extension gets one of the ten listed types, any other text the fallback. */
  lemma MediaTypeRange(ext: string)
    ensures ext in Listed <==> MediaType(ext) in ListedTypes
    ensures ext !in Listed <==> MediaType(ext) == OctetStream
  {
  }

  /** GetContentType is total: every path gets a listed type or the octet-stream fallback, never anything else. */
  lemma ContentTypeTotal(path: string)
    ensures GetContentType(path) in ListedTypes || GetContentType(path) == OctetStream
    ensures GetContentType(path) == OctetStream <==> ExtensionKey(path) !in Listed
  {
    MediaTypeRange(ExtensionKey(path));
  }

  /** The key of a path ending in "." + ext is ext, lower-cased. */
  lemma ExtensionKeyOfAppend(path: string, ext: string)
    requires Plain(ext)
    ensures ExtensionKey(path + "." + ext) == ToLower(ext)
  {
    ExtensionOfAppend(path, ext);
    if ext == [] {
      assert TrimStart([], Dot) == [];
    } else {
      var e := "." + ext;
      assert e[1..] == ext;
      assert TrimStart(e, Dot) == TrimStart(ext, Dot);
      assert TrimStart(ext, Dot) == ext;
    }
  }

  /**
   * Only the extension of the final path segment matters: any path ending
   * in "." + ext, whatever its directory, stem or variant suffix, resolves
   * as ext does, lower-cased.
   */
  lemma ContentTypeOfExtension(path: string, ext: string)
    requires Plain(ext)
    ensures GetContentType(path + "." + ext) == MediaType(ToLower(ext))
  {
    ExtensionKeyOfAppend(path, ext);
  }

  /** "jpg" and "jpeg" both resolve to "image/jpeg". */
  lemma JpegAliases(path: string, ext: string)
    requires ext == "jpg" || ext == "jpeg"
    ensures GetContentType(path + "." + ext) == "image/jpeg"
  {
    ListedExtension(path, ext, path + "." + ext);
  }

  /** Upper-case spellings resolve like lower-case ones: "a.PNG" as "a.png". */
  lemma UpperCaseExtension(path: string)
    ensures GetContentType(path + ".PNG") == "image/png"
  {
    assert ToLower("PNG") == "png";
    assert path + ".PNG" == path + "." + "PNG";
    ContentTypeOfExtension(path, "PNG");
  }

  /** Each listed extension, after any path, resolves to its own entry of the switch. */
  lemma ListedExtension(path: string, ext: string, full: string)
    requires ext in Listed && full == path + "." + ext
    ensures GetContentType(full) == MediaType(ext)
  {
    assert Plain(ext);
    assert ToLower(ext) == ext;
    ContentTypeOfExtension(path, ext);
  }

  /** Resolution ignores case: a path and its lower-cased form get the same type. */
  lemma CaseInsensitive(path: string)
    ensures GetContentType(ToLower(path)) == GetContentType(path)
  {
    ExtensionOfLower(path);
    TrimStartLower(GetExtension(path));
    LowerIdempotent(TrimStart(GetExtension(path), Dot));
  }

  /** Two paths whose extensions agree once lower-cased get the same type. */
  lemma SameExtensionSameType(p: string, q: string)
    requires ToLower(GetExtension(p)) == ToLower(GetExtension(q))
    ensures GetContentType(p) == GetContentType(q)
  {
    TrimStartLower(GetExtension(p));
    TrimStartLower(GetExtension(q));
    LowerIdempotent(TrimStart(GetExtension(p), Dot));
    LowerIdempotent(TrimStart(GetExtension(q), Dot));
  }

  /** A final segment without a dot has no extension, so it falls back to octet-stream. */
  lemma NoExtensionFallback(dir: string, name: string)
    requires dir == [] || dir[|dir| - 1] == Separator
    requires Plain(name)
    ensures GetContentType(dir + name) == OctetStream
  {
    NoExtension(dir, name);
    assert TrimStart([], Dot) == [];
    assert ToLower([]) == [];
    MediaTypeRange([]);
  }

  /** An extension the switch does not list, in any case, falls back to octet-stream. */
  lemma UnlistedFallback(path: string, ext: string)
    requires Plain(ext) && ToLower(ext) !in Listed
    ensures GetContentType(path + "." + ext) == OctetStream
  {
    ContentTypeOfExtension(path, ext);
    MediaTypeRange(ToLower(ext));
  }

  /** The blob UploadToBlobAsync stores: the image as JPEG at quality 85, tagged with the name's content type. */
  function ServiceBlob(frame: Raster, fileName: string): Blob {
    Blob(Jpeg(frame, JpegQuality), Some(GetContentType(fileName)))
  }

  /**
   * UploadToBlobAsync: one upload under `fileName` verbatim, the payload
   * JPEG at quality 85 whatever the name's extension, the Content-Type
   * header GetContentType(fileName); returns that blob's URI and changes
   * no other blob.
   */
  method UploadToBlobAsync(container: Container, image: Image, fileName: string) returns (r: Result<string>)
    modifies container
    ensures (r, container.State()) == Put(container.backend, old(container.State()), fileName, ServiceBlob(image.frame, fileName))
  {
    var payload := image.SaveAsJpeg();
    var contentType := GetContentType(fileName);
    r := container.Upload(fileName, Blob(payload, Some(contentType)));
  }
}
