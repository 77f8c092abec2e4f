/**
 * ImageProcessingService of the earlier revisions (the injected service
 * and the private helpers of the single-file function, which are the
 * same code): each variant is stored as a JPEG of quality 85 under
 * `<stem>_<suffix>.<extension>`, where the stem is the request's file
 * name stripped of its directory and its last extension, overwriting
 * whatever was there and setting no content type.
 */
module LegacyService {
  import opened Wrappers
  import opened DotNetPath
  import opened Imaging
  import opened BlobStore

  /** The blob name `{GetFileNameWithoutExtension(fileName)}_{suffix}.{extension}`. */
  function BlobName(fileName: string, suffix: string, extension: string): string {
    GetFileNameWithoutExtension(fileName) + "_" + suffix + "." + extension
  }

  /** The blob one variant becomes: its JPEG encoding and no content type. */
  function LegacyBlob(frame: Raster): Blob {
    Blob(Jpeg(frame, JpegQuality), None)
  }

  /** UploadToBlobAsync: encode, name the blob, upload with overwrite, return the blob's URI. */
  method UploadToBlobAsync(container: Container, image: Image, fileName: string, suffix: string, extension: string)
    returns (r: Result<string>)
    modifies container
    ensures (r, container.State())
         == Put(container.backend, old(container.State()), BlobName(fileName, suffix, extension), LegacyBlob(image.frame))
  {
    var payload := image.SaveAsJpeg();
    var blobName := GetFileNameWithoutExtension(fileName) + "_" + suffix + "." + extension;
    r := container.Upload(blobName, Blob(payload, None));
  }

  // ---------------------------------------------------------------------
  // Lemmas

  /**
   * The blob name keeps only the stem of the file name: a directory and
   * the last extension do not reach the store.
   */
  lemma NameOfJoin(dir: string, stem: string, ext: string, suffix: string, extension: string)
    requires dir == [] || dir[|dir| - 1] == Separator
    requires Free(stem, Separator)
    requires Plain(ext)
    ensures BlobName(dir + stem + "." + ext, suffix, extension) == stem + "_" + suffix + "." + extension
  {
    StemOfJoin(dir, stem, ext);
  }

  /**
   * Two file names in different directories with different extensions but
   * the same stem name the same blob, so the later upload overwrites the
   * earlier one.
   */
  lemma SameStemSameName(dir1: string, dir2: string, stem: string, ext1: string, ext2: string, suffix: string, extension: string)
    requires dir1 == [] || dir1[|dir1| - 1] == Separator
    requires dir2 == [] || dir2[|dir2| - 1] == Separator
    requires Free(stem, Separator)
    requires Plain(ext1) && Plain(ext2)
    ensures BlobName(dir1 + stem + "." + ext1, suffix, extension) == BlobName(dir2 + stem + "." + ext2, suffix, extension)
  {
    NameOfJoin(dir1, stem, ext1, suffix, extension);
    NameOfJoin(dir2, stem, ext2, suffix, extension);
  }

  /** For one file name and extension, different suffixes give different blob names. */
  lemma NameInjective(fileName: string, suffix1: string, suffix2: string, extension: string)
    requires BlobName(fileName, suffix1, extension) == BlobName(fileName, suffix2, extension)
    ensures suffix1 == suffix2
  {
    var stem := GetFileNameWithoutExtension(fileName);
    Regroup(stem, suffix1, extension);
    Regroup(stem, suffix2, extension);
    MiddleCancel(stem + "_", suffix1, suffix2, "." + extension);
  }

  /** The blob name as prefix, suffix and extension part. */
  lemma Regroup(stem: string, suffix: string, extension: string)
    ensures stem + "_" + suffix + "." + extension == (stem + "_") + suffix + ("." + extension)
  {
  }

  /** Equal strings with the same prefix and suffix have the same middle. */
  lemma MiddleCancel(p: string, a: string, b: string, q: string)
    requires p + a + q == p + b + q
    ensures a == b
  {
    var n := p + a + q;
    assert |a| == |b|;
    assert a == n[|p|..|p| + |a|];
    assert b == (p + b + q)[|p|..|p| + |b|];
  }

  /** The blob name holds no separator when the suffix and extension hold none. */
  lemma NameIsFlat(fileName: string, suffix: string, extension: string)
    requires Free(suffix, Separator) && Free(extension, Separator)
    ensures Free(BlobName(fileName, suffix, extension), Separator)
  {
    var stem := GetFileNameWithoutExtension(fileName);
    StemSpec(fileName);
    var n := BlobName(fileName, suffix, extension);
    forall i | 0 <= i < |n|
      ensures n[i] != Separator
    {
      if i < |stem| {
        assert n[i] == stem[i];
      } else if i == |stem| {
      } else if i < |stem| + 1 + |suffix| {
        assert n[i] == suffix[i - |stem| - 1];
      } else if i == |stem| + 1 + |suffix| {
      } else {
        assert n[i] == extension[i - |stem| - 2 - |suffix|];
      }
    }
  }
}
