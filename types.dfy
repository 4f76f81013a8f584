/**
 * Records shared by the file table, the upload actions and the stats fetcher
 * (src/types/index.ts).
 */
module Types {

  datatype Option<+T> = None | Some(value: T)

  /** A byte of an uploaded file's content. */
  type byte = x: int | 0 <= x < 256

  /**
   * A download timestamp as stored: the source keeps ISO-8601 strings. `Iso`
   * is a string that parses to an instant (milliseconds since the epoch, in
   * local time); `Garbled` is one that does not.
   */
  datatype Timestamp = Iso(millis: int) | Garbled(text: string)

  /**
   * One uploaded file. `downloadTimestamps` is optional in the source, and
   * `None` (the property is absent) is distinct from `Some([])`.
   * `fileContentBase64` is the base64 text of the content, absent on records
   * that carry none.
   */
  datatype UploadedFile = UploadedFile(
    id: string,
    guestCode: string,
    fileName: string,
    fileType: string,
    uploadDate: int,
    downloadUrl: string,
    storagePath: string,
    downloadTimestamps: Option<seq<Timestamp>>,
    fileContentBase64: Option<string>)

  /**
   * Field-tagged validation errors; an empty sequence stands for a key that is
   * absent from the source's `errors` object.
   */
  datatype FieldErrors = FieldErrors(guestCode: seq<string>, file: seq<string>, form: seq<string>)

  /** What the upload action reports back to the form. */
  datatype FileUploadFormState = FileUploadFormState(
    message: string,
    success: bool,
    errors: Option<FieldErrors>,
    uploadedFile: Option<UploadedFile>)

  /** Download counts for the current day and the current Monday-start week. */
  datatype StatsData = StatsData(today: nat, thisWeek: nat)
}
