/**
 * Opaque stand-ins for the browser values the page passes around without
 * looking inside them.
 */
module Browser {

  /** The binary payload of an uploaded file; only its identity matters. */
  datatype Blob = Blob(token: nat)

  /** A `File` as the upload widget delivers it: name, MIME type, byte size and payload. */
  datatype File = File(name: string, mimeType: string, size: nat, blob: Blob)

  /** The upload widget's wrapper around a picked file (`UploadFile.originFileObj`). */
  datatype UploadFile = UploadFile(originFileObj: File)

  /**
   * A URL minted by `URL.createObjectURL`. Every call yields a fresh URL; the
   * model numbers them by creation order.
   */
  datatype ObjectUrl = ObjectUrl(serial: nat)
}
