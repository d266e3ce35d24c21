/**
 * The upload field (`src/pages/AidTest/components/ImageUpload.tsx`): the
 * acceptance check run before a file is taken, and the pipeline that turns
 * a file-list change into saved image ids for the form field.
 */
module ImageUpload {
  import opened Wrappers
  import opened JsStrings
  import opened Browser
  import opened AidTestDb

  /** The size bound, 2 MiB. The source tests `size / 1024 / 1024 < 2`; dividing by powers of two is exact, so this is `size < 2097152`. */
  const MaxImageBytes: nat := 2 * 1024 * 1024

  const ImageMimePrefix: string := "image/"

  /** "Only image files can be uploaded!" */
  const NotImageMessage: string := "只能上传图片文件!"

  /** "The image must be smaller than 2MB!" */
  const TooLargeMessage: string := "图片必须小于2MB!"

  /** What `beforeUpload` decides: take the file, or refuse it after showing one error message. */
  datatype Verdict = Accept | Reject(message: string)

  /** The rule both copies of the upload field promise: an image type and fewer than 2 MiB. */
  predicate Acceptable(f: File) {
    StartsWith(f.mimeType, ImageMimePrefix) && f.size < MaxImageBytes
  }

  /** `handleBeforeUpload`: the type is checked first, the size only for images. */
  function HandleBeforeUpload(f: File): (r: Verdict)
    ensures r.Accept? <==> Acceptable(f)
    ensures !StartsWith(f.mimeType, ImageMimePrefix) ==> r == Reject(NotImageMessage)
    ensures StartsWith(f.mimeType, ImageMimePrefix) && f.size >= MaxImageBytes ==> r == Reject(TooLargeMessage)
  {
    if !StartsWith(f.mimeType, ImageMimePrefix) then Reject(NotImageMessage)
    else if !(f.size < MaxImageBytes) then Reject(TooLargeMessage)
    else Accept
  }

  /** A non-image gets the type message whatever its size: the size is never looked at. */
  lemma NonImageSizeIrrelevant(f: File, size: nat)
    requires !StartsWith(f.mimeType, ImageMimePrefix)
    ensures HandleBeforeUpload(f.(size := size)) == HandleBeforeUpload(f) == Reject(NotImageMessage)
  {
  }

  /** The largest accepted image is one byte under 2 MiB; at 2 MiB it is refused. */
  lemma SizeBoundary(f: File)
    requires StartsWith(f.mimeType, ImageMimePrefix)
    ensures HandleBeforeUpload(f.(size := MaxImageBytes - 1)) == Accept
    ensures HandleBeforeUpload(f.(size := MaxImageBytes)) == Reject(TooLargeMessage)
  {
  }

  /** `fileList.map(file => file.originFileObj)`. */
  function OriginFiles(fileList: seq<UploadFile>): (files: seq<File>)
    ensures |files| == |fileList|
    ensures forall i :: 0 <= i < |fileList| ==> files[i] == fileList[i].originFileObj
  {
    seq(|fileList|, i requires 0 <= i < |fileList| => fileList[i].originFileObj)
  }

  /**
   * What one settled file-list event leads to: nothing (the list was
   * undefined), `onChange` with the saved ids, or a logged save error with
   * the form field left as it was.
   */
  datatype PipelineStep = Dropped | Emitted(store: Store, imageIds: seq<string>) | SaveFailed(error: DbError)

  /**
   * The subscriber chain after the debounce: drop an undefined list, take the
   * origin files, save them in one batch, hand the ids to `onChange`.
   */
  function UploadPipeline(s: Store, fileList: Option<seq<UploadFile>>, clock: nat -> nat): (r: PipelineStep)
    ensures fileList.None? <==> r.Dropped?
    ensures r.Emitted? ==> BatchSaveImages(s, OriginFiles(fileList.value), clock) == Ok(Saved(r.store, r.imageIds))
    ensures r.SaveFailed? ==> BatchSaveImages(s, OriginFiles(fileList.value), clock) == Err(r.error)
  {
    match fileList
    case None => Dropped
    case Some(list) =>
      match BatchSaveImages(s, OriginFiles(list), clock)
      case Ok(saved) => Emitted(saved.store, saved.ids)
      case Err(e) => SaveFailed(e)
  }

  /**
   * A settled list of files is saved one record per entry, in list order:
   * the ids handed to `onChange` are one per entry and preview back as the
   * uploaded files.
   */
  lemma UploadedFilesPreview(s: Store, fileList: seq<UploadFile>, clock: nat -> nat, store: Store, imageIds: seq<string>)
    requires UploadPipeline(s, Some(fileList), clock) == Emitted(store, imageIds)
    ensures |imageIds| == |fileList|
    ensures |GetImagesForPreview(store, imageIds)| == |fileList|
    ensures forall i :: 0 <= i < |fileList| ==>
      && imageIds[i] == ImageId(fileList[i].originFileObj.name, clock(i))
      && GetImagesForPreview(store, imageIds)[i]
           == PreviewEntry(imageIds[i], fileList[i].originFileObj.blob, fileList[i].originFileObj.name, "")
  {
    SavedImagesPreview(s, OriginFiles(fileList), clock, Saved(store, imageIds));
  }
}
