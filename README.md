# Image derivative pipeline

A Dafny model of the Azure Function in tig/blobuploader-imageprocessor. It
turns one uploaded image into three stored JPEG derivatives: "original",
"sized" and "thumbnail". The repository holds three revisions of
`ProcessImage.Run`, and the model follows two of them separately.

- **The current revision** (`ImageProcessor/ProcessImage.cs` with
  `ImageProcessor/Services/ImageProcessingService.cs`) runs these steps in
  order:
  - it validates the request;
  - it checks the Base64 payload;
  - it creates the blob container;
  - it derives three blob names from one prefix;
  - it returns early when deduplication finds the original already stored;
  - otherwise it resizes the decoded image three times and uploads
    thumbnail, sized and original, in that order.

  Each upload is tagged with the content type of its name's extension. Any
  exception becomes `500 "Error processing image."`.
- **The two earlier revisions** are `ProcessImage.cs` and
  `src/ProcessImage.cs` with `src/Services/ImageProcessingService.cs`.
  - The single-file function calls its own private copies of `ResizeImage`
    and `UploadToBlobAsync`. The other function calls the same two methods
    on an injected service.
  - The two copies of those methods are identical, line for line. So are
    the two `Run` bodies, apart from where those two methods live. One
    model (`LegacyService`, `LegacyPipeline`) therefore serves both files.
  - They load and resize everything before the container is created.
  - They name each blob `<stem>_<suffix>.<extension>`.
  - They upload original, sized and thumbnail, overwriting, with no content
    type.
  - Any exception becomes `400 "Error: " + message`.

## Modules

- `DotNetPath` holds the string operations the pipeline uses:
  - `String.LastIndexOf` (a backwards scan);
  - `Path.GetFileName`, `Path.GetExtension` and
    `Path.GetFileNameWithoutExtension`, with '/' as the only separator, as
    .NET behaves on Unix;
  - `TrimStart` and `ToLower`.
- `Imaging` models ImageSharp. Pixels are an abstract `Raster`, and `Load`
  and `Resize` are functions supplied as a parameter. `Image` is a class
  holding its pixels. `ResizeImage` returns a fresh clone and leaves its
  input unchanged.
- `Requests` holds the request record, the response, and the JSON and
  Base64 decoders. The decoders are functions supplied as a parameter.
- `BlobStore` models the container:
  - `Container` is a class whose fields are the blob map and the "container
    exists" flag;
  - `Backend` fixes the container URI and the exceptions that provisioning,
    existence checks and uploads raise;
  - the functions `Provision`, `Query`, `Put` and `UploadAll` specify the
    container's methods and runs of uploads.
- `Service` holds `GetContentType` and the current `UploadToBlobAsync`.
- `Pipeline` models the current `Run`. `LegacyService` and `LegacyPipeline`
  model the earlier revisions.

Each `Run` is a method on a `Container`. Its postcondition says that the
response and the new container state equal a specification function of
the request body and the old state: `Pipeline.Expected` or
`LegacyPipeline.Expected`. The properties below are lemmas about those
functions.

## Model

| member | source | states |
|---|---|---|
| DotNetPath.LastIndexOf | ImageProcessor/Services/ImageProcessingService.cs:50 | the backward scan `Path.GetExtension` and `Path.GetFileName` make: the last position holding the character, or none; its result is a position of the text, and LastIndexOfSpec characterises it |
| DotNetPath.GetFileName | src/Services/ImageProcessingService.cs:32 | definition: the text after the last '/', or the whole path when there is none (properties in FileNameSpec) |
| DotNetPath.GetExtension | ImageProcessor/Services/ImageProcessingService.cs:50 | definition: the file name from its last dot on, or empty when it has no dot or the dot is its last character (properties in ExtensionShape, ExtensionOfAppend, NoExtension) |
| DotNetPath.GetFileNameWithoutExtension | src/Services/ImageProcessingService.cs:32 | definition: the file name up to its last dot, or the whole file name when it has none (properties in StemSpec, StemOfAppend) |
| DotNetPath.TrimStart | ImageProcessor/Services/ImageProcessingService.cs:50 | definition: drops the leading run of one character (properties in TrimStartShape) |
| DotNetPath.ToLower | ImageProcessor/Services/ImageProcessingService.cs:51 | definition: maps each ASCII capital to its small letter and keeps every other character (properties in ExtensionOfLower, TrimStartLower) |
| DotNetPath.LastIndexOfSpec | ImageProcessor/Services/ImageProcessingService.cs:50 | LastIndexOf returns no position exactly when the character is absent; otherwise the position holds the character and no later position does |
| DotNetPath.FileNameSpec | src/Services/ImageProcessingService.cs:32 | GetFileName is a separator-free suffix of the path, preceded by a separator unless it is the whole path |
| DotNetPath.StemSpec | src/Services/ImageProcessingService.cs:32 | GetFileNameWithoutExtension never contains a directory separator |
| DotNetPath.ExtensionShape | ImageProcessor/Services/ImageProcessingService.cs:50 | GetExtension is empty or a dot followed by at least one character, and it always ends the path |
| DotNetPath.TrimStartShape | ImageProcessor/Services/ImageProcessingService.cs:50 | TrimStart keeps a suffix that does not start with the character and drops only that character |
| DotNetPath.ExtensionOfAppend | ImageProcessor/Services/ImageProcessingService.cs:50 | a path ending in "." + ext (ext without dot or separator) has extension "." + ext, or none when ext is empty |
| DotNetPath.StemOfAppend | src/Services/ImageProcessingService.cs:32 | the stem of path + "." + ext is the file name of path |
| DotNetPath.NoExtension | ImageProcessor/Services/ImageProcessingService.cs:50 | a final segment without a dot has an empty extension and is its own stem |
| DotNetPath.StemOfJoin | src/Services/ImageProcessingService.cs:32 | the stem of dir + stem + "." + ext is stem: the directory and the last extension drop away |
| DotNetPath.ExtensionOfLower | ImageProcessor/Services/ImageProcessingService.cs:50-51 | lower-casing a path lower-cases its extension and changes nothing else about it |
| DotNetPath.TrimStartLower | ImageProcessor/Services/ImageProcessingService.cs:50-51 | trimming leading dots commutes with lower-casing |
| Service.MediaType | ImageProcessor/Services/ImageProcessingService.cs:51-65 | definition: the switch from a lower-cased extension to its MIME type (properties in MediaTypeRange) |
| Service.GetContentType | ImageProcessor/Services/ImageProcessingService.cs:48-66 | definition: the extension, without its leading dots, lower-cased, through the switch (properties in ContentTypeTotal, ContentTypeOfExtension, CaseInsensitive) |
| Service.ServiceBlob | ImageProcessor/Services/ImageProcessingService.cs:27-38 | definition: the blob the current upload stores, a JPEG of quality 85 with the name's content type as its header |
| Service.MediaTypeRange | ImageProcessor/Services/ImageProcessingService.cs:51-65 | an extension gets one of the ten listed MIME types exactly when it is one of the eleven listed extensions; any other text gets application/octet-stream |
| Service.ContentTypeTotal | ImageProcessor/Services/ImageProcessingService.cs:48-66 | GetContentType is total: a listed type or application/octet-stream, the fallback exactly when the lower-cased extension is unlisted |
| Service.ExtensionKeyOfAppend | ImageProcessor/Services/ImageProcessingService.cs:50-51 | the text the switch sees for path + "." + ext is ext lower-cased |
| Service.ContentTypeOfExtension | ImageProcessor/Services/ImageProcessingService.cs:50-65 | only the extension of the final segment matters: directory, stem and variant suffix do not |
| Service.JpegAliases | ImageProcessor/Services/ImageProcessingService.cs:53-54 | "jpg" and "jpeg" both resolve to image/jpeg |
| Service.ListedExtension | ImageProcessor/Services/ImageProcessingService.cs:53-63 | each listed extension after any path resolves to its own entry of the switch |
| Service.UpperCaseExtension | ImageProcessor/Services/ImageProcessingService.cs:51 | "x.PNG" resolves to image/png |
| Service.CaseInsensitive | ImageProcessor/Services/ImageProcessingService.cs:51 | a path and its lower-cased form get the same content type |
| Service.SameExtensionSameType | ImageProcessor/Services/ImageProcessingService.cs:50-51 | paths whose extensions agree after lower-casing get the same content type |
| Service.NoExtensionFallback | ImageProcessor/Services/ImageProcessingService.cs:50-64 | a final segment without a dot resolves to application/octet-stream |
| Service.UnlistedFallback | ImageProcessor/Services/ImageProcessingService.cs:50-64 | an extension the switch does not list, in any case, resolves to application/octet-stream |
| Service.UploadToBlobAsync | ImageProcessor/Services/ImageProcessingService.cs:22-46 | one overwriting upload under fileName verbatim: a JPEG of quality 85 tagged GetContentType(fileName); it returns that name's URI, or raises and changes nothing |
| Imaging.Image.SaveAsJpeg | ImageProcessor/Services/ImageProcessingService.cs:28 | definition: `Save` with a `JpegEncoder` of quality 85, the image's pixels as a JPEG payload |
| Imaging.Load | ImageProcessor/ProcessImage.cs:90-91 | a fresh image holding the decoded pixels, or the library's exception |
| Imaging.ResizeImage | ImageProcessor/Services/ImageProcessingService.cs:13-19 | a fresh image holding the resized pixels; the input image is unchanged (likewise the copies at ProcessImage.cs:82-89 and src/Services/ImageProcessingService.cs:12-19) |
| BlobStore.Uri | ImageProcessor/Services/ImageProcessingService.cs:31-45 | definition: `GetBlobClient(name).Uri`, the container URI, '/', the name (properties in UriInjective) |
| BlobStore.Provision | ImageProcessor/ProcessImage.cs:62-64 | definition: `CreateIfNotExistsAsync`, the container created or the service's exception (specifies Container.CreateIfNotExists) |
| BlobStore.Query | ImageProcessor/ProcessImage.cs:76 | definition: `ExistsAsync` on one name, membership or the service's exception (specifies Container.Exists) |
| BlobStore.Put | src/Services/ImageProcessingService.cs:33-34 | definition: an overwriting upload, the name's URI and the map with that name set, or the exception and no change (properties in PutFrame; specifies Container.Upload) |
| BlobStore.Container.CreateIfNotExists | ImageProcessor/ProcessImage.cs:62-64 | creates the container or raises; the blobs are untouched either way |
| BlobStore.Container.Exists | ImageProcessor/ProcessImage.cs:76-77 | answers whether the name holds a blob, or raises; changes nothing |
| BlobStore.Container.Upload | src/Services/ImageProcessingService.cs:33-36 | an overwriting upload: the old map with that one name set, returning its URI, or an exception and no change |
| BlobStore.PutFrame | src/Services/ImageProcessingService.cs:33-34 | an upload succeeds exactly when the container exists and the name is writable, and it changes no other name |
| BlobStore.UploadAll | ImageProcessor/ProcessImage.cs:95-102 | a run of awaited uploads stops at the first exception, keeps every earlier upload, and returns the earlier URIs in order |
| BlobStore.UploadAllThree | ImageProcessor/ProcessImage.cs:95-102 | three uploads written one after another are that run over three items |
| BlobStore.UploadThreeShape | ImageProcessor/ProcessImage.cs:95-102 | three uploads keep the container flag and every existing name; with no exception the three URIs come back in order and each name holds its blob |
| BlobStore.UploadThreeFrame | ImageProcessor/ProcessImage.cs:95-102 | three uploads change no other name, and leave the last name alone when any of them raises |
| BlobStore.UploadThreeReads | ImageProcessor/ProcessImage.cs:95-102 | uploads depend only on the container URI and the write faults |
| BlobStore.StoredThree | src/ProcessImage.cs:51-53 | writing three blobs in order is three map updates in that order |
| BlobStore.UriInjective | ImageProcessor/Services/ImageProcessingService.cs:31-45 | distinct blob names have distinct URIs |
| Pipeline.Expected | ImageProcessor/ProcessImage.cs:26-115 | definition: validation, then Generate; any failure is the 500 response (specifies Run) |
| Pipeline.Validate | ImageProcessor/ProcessImage.cs:29-58 | definition: deserialise, reject a null payload and an empty ImageBase64 or BlobContainer, decode the Base64 (properties in Rejected) |
| Pipeline.Generate | ImageProcessor/ProcessImage.cs:60-107 | definition: create the container, build the names, the deduplication gate, then Derive (properties in DedupeHit, NoDedupeNoQuery) |
| Pipeline.Derive | ImageProcessor/ProcessImage.cs:90-114 | definition: load, then resize and upload thumbnail, sized and original (properties in DerivePlan, Delivered, Footprint; specifies UploadDerivatives) |
| Pipeline.BlobNames | ImageProcessor/ProcessImage.cs:69-71 | definition: the upload path, the file name, the variant suffix and the extension (properties in KeysDistinct) |
| Pipeline.Run | ImageProcessor/ProcessImage.cs:26-115 | the response and the new container state are Expected of the body and the old state |
| Pipeline.UploadDerivatives | ImageProcessor/ProcessImage.cs:90-107 | loading, then resizing and uploading thumbnail, sized and original, is Derive |
| Pipeline.UploadVariant | ImageProcessor/ProcessImage.cs:95-96 | one resize from the decoded image followed by one upload under the variant's name |
| Pipeline.DerivePlan | ImageProcessor/ProcessImage.cs:95-114 | the derivative uploads are the general run over the plan; the request fails exactly when an upload raises, and earlier uploads stay |
| Pipeline.KeysDistinct | ImageProcessor/ProcessImage.cs:69-71 | the three names built from one prefix are pairwise distinct |
| Pipeline.Rejected | ImageProcessor/ProcessImage.cs:35-58 | a null payload, an empty ImageBase64 or BlobContainer, or invalid Base64 gives the 500 response before any store operation |
| Pipeline.OnlyServerErrors | ImageProcessor/ProcessImage.cs:109-114 | every failure is the same 500 "Error processing image." response |
| Pipeline.DedupeHit | ImageProcessor/ProcessImage.cs:74-85 | with DeDupe and the original present, all three URIs are the original's, nothing is written, and the imaging library plays no part |
| Pipeline.NoDedupeNoQuery | ImageProcessor/ProcessImage.cs:74 | without DeDupe the existence check is never made |
| Pipeline.UnreadableImage | ImageProcessor/ProcessImage.cs:62-91 | an image that cannot be loaded fails after the container has been created (and, with DeDupe, after the existence check found no original), and no blob is written |
| Pipeline.Delivered | ImageProcessor/ProcessImage.cs:95-105 | a successful run returns each variant's own URI (the three are distinct) and writes exactly the three names, each resized from the one decoded image and tagged with its name's content type |
| Pipeline.VariantsTagged | ImageProcessor/Services/ImageProcessingService.cs:33-38 | with a plain Extension, all three variants carry that extension's content type, whatever its case |
| Pipeline.OriginalLast | ImageProcessor/ProcessImage.cs:95-102 | no request, successful or not, leaves the original without its sized and thumbnail variants |
| Pipeline.Footprint | ImageProcessor/ProcessImage.cs:95-114 | no blob outside the three names changes, and a failed request leaves the original's name as it was |
| Pipeline.DedupeRerun | ImageProcessor/ProcessImage.cs:74-102 | with DeDupe, the same request after a success writes nothing, even against a service raising other exceptions: it fails or answers with the original's URI three times, the latter whenever creating the container and the existence check do not raise |
| LegacyService.BlobName | src/Services/ImageProcessingService.cs:32 | definition: `<stem>_<suffix>.<extension>` (properties in NameOfJoin, NameInjective, NameIsFlat) |
| LegacyService.LegacyBlob | src/Services/ImageProcessingService.cs:29-34 | definition: the blob the earlier uploads store, a JPEG of quality 85 with no content type |
| LegacyService.UploadToBlobAsync | src/Services/ImageProcessingService.cs:21-37 | an overwriting upload of a JPEG of quality 85, with no content type, under `<stem>_<suffix>.<extension>`; it returns that name's URI (likewise the private copy at ProcessImage.cs:91-102) |
| LegacyService.NameOfJoin | src/Services/ImageProcessingService.cs:32 | the directory and the last extension of fileName never reach the blob name ("a/b/pic.png", "sized", "jpg" gives "pic_sized.jpg") |
| LegacyService.SameStemSameName | ProcessImage.cs:97 | file names with the same stem in different directories, or with different extensions, share a blob name |
| LegacyService.NameInjective | src/Services/ImageProcessingService.cs:32 | for one file name and extension, distinct suffixes give distinct blob names |
| LegacyService.NameIsFlat | src/Services/ImageProcessingService.cs:32 | the blob name has no directory part when the suffix and extension have none |
| LegacyPipeline.Expected | ProcessImage.cs:28-79 | definition: Prepare, then Publish; any failure is 400 with the message (specifies Run) |
| LegacyPipeline.Prepare | ProcessImage.cs:35-48 | definition: deserialise, validate, decode, load and resize the three variants before the store is touched (properties in InvalidParameters, UnreadableImage) |
| LegacyPipeline.Publish | ProcessImage.cs:51-79 | definition: create the container, then upload original, sized and thumbnail (properties in PublishPlan, PublishIdempotent; specifies UploadVariants) |
| LegacyPipeline.Run | ProcessImage.cs:28-79 | the response and the new container state are Expected of the body and the old state (src/ProcessImage.cs:29-69 runs the same steps) |
| LegacyPipeline.UploadVariants | ProcessImage.cs:51-57 | after all resizing: create the container, then upload original, sized and thumbnail (src/ProcessImage.cs:47-53 alike) |
| LegacyPipeline.NamesDistinct | ProcessImage.cs:55-57 | the three names differ only in their suffix and are pairwise distinct |
| LegacyPipeline.InvalidParameters | ProcessImage.cs:35-38 | a null payload or an empty ImageBase64 or BlobContainer gives 400 "Error: Invalid input parameters." with the store untouched (src/ProcessImage.cs:34-37 alike) |
| LegacyPipeline.OnlyBadRequests | ProcessImage.cs:73-79 | every failure is a 400 whose body starts with "Error: " (src/ProcessImage.cs:63-69 alike) |
| LegacyPipeline.UnreadableImage | ProcessImage.cs:41-53 | an image that cannot be loaded gives 400 with its message, and the container is never created |
| LegacyPipeline.Delivered | ProcessImage.cs:41-71 | a successful run returns each variant's own URI and writes the three names over the store, each a JPEG resized from the one loaded image to its own size |
| LegacyPipeline.PublishPlan | ProcessImage.cs:55-79 | once the container exists, the uploads are the general run over original, sized and thumbnail: the request fails, with the failing upload's message, exactly when an upload raises, and every earlier upload stays |
| LegacyPipeline.PartialWrite | src/ProcessImage.cs:51-69 | when the sized upload fails, the new original stays without its variants |
| LegacyPipeline.PublishIdempotent | ProcessImage.cs:97-101 | creating the container and uploading the same variants again changes nothing further |
| LegacyPipeline.Rerun | ProcessImage.cs:55-79 | against a service whose exceptions are the same for both attempts, running the same request twice gives the same response and leaves the store as the first run left it |
| LegacyPipeline.Repeat | ProcessImage.cs:55-79 | after a success, the same request against a service raising any other exceptions leaves the store as the first run left it, and if it succeeds it returns the same URIs |

## Left out

- Pixel work is library code: decoding, `Resize` with `ResizeMode.Max`
  and JPEG encoding. A raster is abstract and resizing is an
  uninterpreted function, so no size, aspect-ratio or upscaling property
  is stated. Exceptions from resizing or encoding are not modelled; only
  `Image.Load` can fail.
- JSON deserialisation and Base64 decoding are also library code. Each is
  a function that returns a value or an exception message.
- Requests take null strings as "". Every use the code makes of them
  treats null and "" alike: `IsNullOrEmpty`, `+`, interpolation and
  `Path.GetFileNameWithoutExtension`.
- The current `Run` reads `input.UploadPath`, but
  `ImageProcessingRequest` declares no such property; it declares
  `SubDirectory`. The key prefix is therefore a separate parameter of
  `Pipeline.Run`, used verbatim. `SubDirectory` and `UseHashForFileName`
  are carried in the record but never read.
- The single-file function deserialises into its own private class. That
  class has the eleven properties the earlier revisions read. The model
  uses the one `Request` datatype for all three revisions.
- The Azure SDK is replaced by the map-backed `Container`.
  - `Uri` joins the container URI and the blob name with "/" and does no
    percent-escaping.
  - A malformed connection string fails `new BlobServiceClient` before
    the container is created. It is covered by the provisioning fault,
    which has the same effect.
  - `UploadAsync` with `BlobUploadOptions` and no conditions overwrites,
    as the earlier revisions' `overwrite: true` does.
  - The `Container` a `Run` receives stands for the container that the
    request's `BlobConnectionString` and `BlobContainer` name. The model
    never reads those two fields beyond the check that `BlobContainer` is
    not empty.
  - Which calls raise is a fixed function of the blob name within one
    `Backend`: a transient fault is modelled only as a second `Backend`.
    `Pipeline.DedupeRerun` and `LegacyPipeline.Repeat` allow any second
    backend with the same container URI. `LegacyPipeline.Rerun` holds only
    when the same exceptions recur, which the service does not promise.
- Path handling follows .NET on Unix: '/' is the only directory
  separator, and '\\' is an ordinary character. `ToLower` changes only
  ASCII letters; culture-specific case mappings are not modelled.
- Response headers, the JSON serialisation of the response body, logging,
  stream positions and `using` disposal are not modelled. A successful
  response is the datatype of the three URIs.
- async/await is not modelled. Every call is awaited before the next one
  starts, so the model is sequential.
