/**
 * The older upload field (`components/ImageUpload.tsx`): the same
 * acceptance check, and an `onChange` that forwards the widget's list.
 */
module LegacyImageUpload {
  import opened JsStrings
  import opened Browser
  import ImageUpload

  /** `handleBeforeUpload` of the older copy, written out on its own. */
  function HandleBeforeUpload(f: File): (r: ImageUpload.Verdict)
    ensures !StartsWith(f.mimeType, "image/") ==> r == ImageUpload.Reject(ImageUpload.NotImageMessage)
    ensures StartsWith(f.mimeType, "image/") && f.size >= 2 * 1024 * 1024 ==> r == ImageUpload.Reject(ImageUpload.TooLargeMessage)
  {
    if !StartsWith(f.mimeType, "image/") then ImageUpload.Reject(ImageUpload.NotImageMessage)
    else if !(f.size < 2 * 1024 * 1024) then ImageUpload.Reject(ImageUpload.TooLargeMessage)
    else ImageUpload.Accept
  }

  /** The two copies decide every file the same way, messages included. */
  lemma SameAcceptancePolicy(f: File)
    ensures HandleBeforeUpload(f) == ImageUpload.HandleBeforeUpload(f)
    ensures HandleBeforeUpload(f).Accept? <==> ImageUpload.Acceptable(f)
  {
  }

  /** `handleChange`: the parent's `onChange` receives the new list as it came. */
  function HandleChange(newFileList: seq<UploadFile>): (forwarded: seq<UploadFile>)
    ensures forwarded == newFileList
  {
    newFileList
  }
}
