/**
 * The server actions behind the upload form, the file list and the stats
 * card (src/lib/actions.ts): input validation, the upload handler that
 * builds and stores a record, and thin wrappers over the file table.
 */
module Actions {
  import opened Types
  import opened JsString
  import opened MockDb
  import opened Base64

  // ---------------------------------------------------------------------------
  // Limits and messages of the upload schema

  const MAX_FILE_SIZE: int := 2 * 1024 * 1024

  const ALLOWED_MIME_TYPES: seq<string> := [
    "application/pdf",
    "application/msword",
    "application/vnd.openxmlformats-officedocument.wordprocessingml.document",
    "image/png",
    "image/jpeg",
    "image/jpg",
    "text/plain"
  ]

  const ALLOWED_EXTENSIONS_DISPLAY: string := ".pdf, .doc, .docx, .png, .jpg, .jpeg, .txt"

  const GUEST_CODE_TOO_SHORT: string := "Guest code must be at least 3 characters."
  const GUEST_CODE_TOO_LONG: string := "Guest code cannot exceed 20 characters."
  const GUEST_CODE_BAD_CHARS: string :=
    "Guest code can only contain letters, numbers, underscore, dot, or hyphen."
  const FILE_REQUIRED: string := "File is required."
  const FILE_EMPTY: string := "File cannot be empty."
  /** `Max file size is ${MAX_FILE_SIZE / (1024*1024)}MB.` */
  const FILE_TOO_LARGE: string := "Max file size is 2MB."
  const FILE_BAD_TYPE: string :=
    "Invalid file type. Only " + ALLOWED_EXTENSIONS_DISPLAY + " files are accepted."

  const VALIDATION_FAILED: string := "Validation failed. Please check your inputs."
  const UPLOAD_UNEXPECTED: string := "An unexpected error occurred during file upload."
  const UPLOAD_RETRY: string := "Upload failed. Please try again."
  const DOWNLOAD_NOT_FOUND: string := "File not found for recording download."
  const DOWNLOAD_URL_PREFIX: string := "/api/download/"

  /** A `File` from the form: its name, declared MIME type and bytes (its size is their count). */
  datatype FileInput = FileInput(name: string, mimeType: string, content: seq<byte>)

  /** What `formData.get(key)` yields: nothing (null), a text value, or a file. */
  datatype FormValue = Missing | Text(text: string) | Upload(file: FileInput)

  /** The outcome of the schema's `safeParse`. */
  datatype Validated =
    | Valid(guestCode: string, file: FileInput)
    | Invalid(errors: FieldErrors)

  /** What the record-download action reports. */
  datatype ActionResult = ActionResult(success: bool, message: Option<string>)

  // ---------------------------------------------------------------------------
  // Validation

  /** A character of the class `[a-zA-Z0-9_.-]`. */
  predicate IsGuestCodeChar(c: char) {
    ('a' <= c <= 'z') || ('A' <= c <= 'Z') || ('0' <= c <= '9') || c == '_' || c == '.' || c == '-'
  }

  predicate IsGuestCodeText(s: string) {
    forall i :: 0 <= i < |s| ==> IsGuestCodeChar(s[i])
  }

  /**
   * The messages of the guest-code checks that fail. The three string checks
   * of the schema do not stop at the first failure, so all failing ones are
   * reported, each once, in schema order. The two length checks never fail
   * together, so schema order means the character check's message comes last.
   */
  function GuestCodeCheckErrors(s: string): (r: seq<string>)
    ensures r == [] <==> 3 <= |s| <= 20 && IsGuestCodeText(s)
    ensures GUEST_CODE_TOO_SHORT in r <==> |s| < 3
    ensures GUEST_CODE_TOO_LONG in r <==> |s| > 20
    ensures GUEST_CODE_BAD_CHARS in r <==> !IsGuestCodeText(s)
    ensures forall m :: m in r ==> m in [GUEST_CODE_TOO_SHORT, GUEST_CODE_TOO_LONG, GUEST_CODE_BAD_CHARS]
    ensures forall i, j :: 0 <= i < j < |r| ==> r[i] != r[j]
    ensures GUEST_CODE_BAD_CHARS in r ==> r[|r| - 1] == GUEST_CODE_BAD_CHARS
  {
    (if |s| < 3 then [GUEST_CODE_TOO_SHORT] else []) +
    (if |s| > 20 then [GUEST_CODE_TOO_LONG] else []) +
    (if IsGuestCodeText(s) then [] else [GUEST_CODE_BAD_CHARS])
  }

  /** The message zod gives when a string is expected and the form value is not one. */
  function NotAStringMessage(v: FormValue): string
    requires !v.Text?
  {
    if v.Missing? then "Expected string, received null" else "Expected string, received object"
  }

  /** The messages for the `guestCode` field. */
  function GuestCodeErrors(v: FormValue): (r: seq<string>)
    ensures r == [] <==> v.Text? && 3 <= |v.text| <= 20 && IsGuestCodeText(v.text)
  {
    if v.Text? then GuestCodeCheckErrors(v.text) else [NotAStringMessage(v)]
  }

  /**
   * The messages for the `file` field. Not being a file is fatal and stops
   * the checks there; the three refinements after it are all run, and their
   * failures are reported each once, in schema order. An empty file is never
   * too large, so schema order means the type check's message comes last.
   */
  function FileErrors(v: FormValue): (r: seq<string>)
    ensures r == [] <==>
      v.Upload? && 0 < |v.file.content| <= MAX_FILE_SIZE && v.file.mimeType in ALLOWED_MIME_TYPES
    ensures !v.Upload? ==> r == [FILE_REQUIRED]
    ensures v.Upload? ==> (FILE_EMPTY in r <==> |v.file.content| == 0)
    ensures v.Upload? ==> (FILE_TOO_LARGE in r <==> |v.file.content| > MAX_FILE_SIZE)
    ensures v.Upload? ==> (FILE_BAD_TYPE in r <==> v.file.mimeType !in ALLOWED_MIME_TYPES)
    ensures v.Upload? ==> forall m :: m in r ==> m in [FILE_EMPTY, FILE_TOO_LARGE, FILE_BAD_TYPE]
    ensures v.Upload? ==> forall i, j :: 0 <= i < j < |r| ==> r[i] != r[j]
    ensures v.Upload? && FILE_BAD_TYPE in r ==> r[|r| - 1] == FILE_BAD_TYPE
  {
    if !v.Upload? then [FILE_REQUIRED]
    else
      var f := v.file;
      (if |f.content| > 0 then [] else [FILE_EMPTY]) +
      (if |f.content| <= MAX_FILE_SIZE then [] else [FILE_TOO_LARGE]) +
      (if f.mimeType in ALLOWED_MIME_TYPES then [] else [FILE_BAD_TYPE])
  }

  /** `FileUploadSchema.safeParse({ guestCode, file })`. */
  function ValidateUpload(guestCode: FormValue, file: FormValue): (r: Validated)
    ensures r.Valid? <==>
      && guestCode.Text? && 3 <= |guestCode.text| <= 20 && IsGuestCodeText(guestCode.text)
      && file.Upload? && 0 < |file.file.content| <= MAX_FILE_SIZE
      && file.file.mimeType in ALLOWED_MIME_TYPES
    ensures r.Valid? ==> r.guestCode == guestCode.text && r.file == file.file
    ensures r.Invalid? ==>
      r.errors == FieldErrors(GuestCodeErrors(guestCode), FileErrors(file), [])
      && (r.errors.guestCode != [] || r.errors.file != [])
  {
    var codeErrors := GuestCodeErrors(guestCode);
    var fileErrors := FileErrors(file);
    if codeErrors == [] && fileErrors == [] then Valid(guestCode.text, file.file)
    else Invalid(FieldErrors(codeErrors, fileErrors, []))
  }

  /** A guest code that passes validation is not blank, so it can be queried. */
  lemma ValidGuestCodeNotBlank(s: string)
    requires 3 <= |s| <= 20 && IsGuestCodeText(s)
    ensures !IsBlank(s)
  {
    BlankIffAllWhitespace(s);
    assert IsGuestCodeChar(s[0]);
  }

  // ---------------------------------------------------------------------------
  // Record construction

  /** `String(n)` for a non-negative integer: decimal digits, no leading zero. */
  function DecimalString(n: nat): (r: string)
    ensures 1 <= |r| && (|r| > 1 ==> r[0] != '0')
    ensures forall i :: 0 <= i < |r| ==> '0' <= r[i] <= '9'
  {
    if n < 10 then [('0' as int + n) as char]
    else DecimalString(n / 10) + [('0' as int + n % 10) as char]
  }

  /** The number a string of decimal digits denotes. */
  function DecimalValue(s: string): int {
    if s == [] then 0 else DecimalValue(s[..|s| - 1]) * 10 + (s[|s| - 1] as int - '0' as int)
  }

  /** The decimal rendering reads back as the number it renders. */
  lemma {:induction false} DecimalStringValue(n: nat)
    ensures DecimalValue(DecimalString(n)) == n
  {
    if n >= 10 {
      DecimalStringValue(n / 10);
      var r := DecimalString(n);
      assert r[..|r| - 1] == DecimalString(n / 10);
    }
  }

  /** The binary string `String.fromCharCode` builds: one character per byte, its code the byte. */
  function BinaryString(bytes: seq<byte>): (r: string)
    ensures |r| == |bytes|
    ensures forall i :: 0 <= i < |bytes| ==> r[i] as int == bytes[i]
    ensures IsBinaryString(r)
  {
    seq(|bytes|, i requires 0 <= i < |bytes| => bytes[i] as char)
  }

  /**
   * `arrayBufferToBase64`: the loop builds the binary string of the bytes,
   * then `btoa` encodes it. Decoding the result gives the bytes back.
   */
  method ArrayBufferToBase64(bytes: seq<byte>) returns (encoded: string)
    ensures encoded == Btoa(BinaryString(bytes))
    ensures |encoded| == 4 * ((|bytes| + 2) / 3)
    ensures |Decode(encoded)| == |bytes|
    ensures forall i :: 0 <= i < |bytes| ==> Decode(encoded)[i] as int == bytes[i]
  {
    var binary := "";
    for i := 0 to |bytes|
      invariant |binary| == i
      invariant forall k :: 0 <= k < i ==> binary[k] as int == bytes[k]
    {
      binary := binary + [bytes[i] as char];
    }
    assert binary == BinaryString(bytes);
    DecodeBtoa(binary);
    encoded := Btoa(binary);
  }

  // ---------------------------------------------------------------------------
  // The actions

  /**
   * `handleFileUpload`. `newFileId` stands for the random id, `now` for the
   * upload instant (`new Date()`), `clockMillis` for the separate `Date.now()`
   * reading written into the storage path (UTC milliseconds since the epoch),
   * and `readFails` for the file's bytes failing to load, which the action
   * catches. Only a successful upload changes the table, and then by
   * appending exactly the record it returns.
   */
  method HandleFileUpload(db: FileDatabase, guestCode: FormValue, file: FormValue,
                          newFileId: string, now: int, clockMillis: nat, readFails: bool)
    returns (state: FileUploadFormState)
    modifies db
    ensures ValidateUpload(guestCode, file).Invalid? ==>
      && state == FileUploadFormState(VALIDATION_FAILED, false, Some(ValidateUpload(guestCode, file).errors), None)
      && db.files == old(db.files)
    ensures ValidateUpload(guestCode, file).Valid? && readFails ==>
      && state == FileUploadFormState(UPLOAD_UNEXPECTED, false, Some(FieldErrors([], [], [UPLOAD_RETRY])), None)
      && db.files == old(db.files)
    ensures state.success <==> ValidateUpload(guestCode, file).Valid? && !readFails
    ensures state.success ==>
      var code, f := guestCode.text, file.file;
      && state.uploadedFile.Some?
      && var rec := state.uploadedFile.value;
      && db.files == old(db.files) + [rec]
      && state.errors.None?
      && state.message == "File \"" + f.name + "\" uploaded successfully for guest code \"" + code + "\"."
      && rec.id == newFileId
      && rec.guestCode == Lower(code)
      && rec.fileName == f.name && rec.fileType == f.mimeType
      && rec.uploadDate == now
      && rec.downloadUrl == DOWNLOAD_URL_PREFIX + newFileId
      && rec.storagePath == "uploads/mock/" + code + "/" + DecimalString(clockMillis) + "-" + f.name
      && rec.downloadTimestamps == Some([])
      && rec.fileContentBase64 == Some(Btoa(BinaryString(f.content)))
      && |Decode(rec.fileContentBase64.value)| == |f.content|
      && (forall i :: 0 <= i < |f.content| ==> Decode(rec.fileContentBase64.value)[i] as int == f.content[i])
    ensures state.success ==> forall query :: Lower(query) == Lower(guestCode.text) ==>
      state.uploadedFile.value in FilesByGuestCode(db.files, query)
  {
    var validated := ValidateUpload(guestCode, file);
    if validated.Invalid? {
      return FileUploadFormState(VALIDATION_FAILED, false, Some(validated.errors), None);
    }
    var code, f := validated.guestCode, validated.file;
    if readFails {
      return FileUploadFormState(UPLOAD_UNEXPECTED, false, Some(FieldErrors([], [], [UPLOAD_RETRY])), None);
    }
    var base64Content := ArrayBufferToBase64(f.content);
    var newFile := UploadedFile(
      id := newFileId,
      guestCode := Lower(code),
      fileName := f.name,
      fileType := f.mimeType,
      uploadDate := now,
      downloadUrl := DOWNLOAD_URL_PREFIX + newFileId,
      storagePath := "uploads/mock/" + code + "/" + DecimalString(clockMillis) + "-" + f.name,
      downloadTimestamps := Some([]),
      fileContentBase64 := Some(base64Content));
    db.AddFile(newFile);
    forall query | Lower(query) == Lower(code)
      ensures newFile in FilesByGuestCode(db.files, query)
    {
      UploadThenFetch(old(db.files), newFile, code, query);
    }
    state := FileUploadFormState(
      "File \"" + f.name + "\" uploaded successfully for guest code \"" + code + "\".",
      true, None, Some(newFile));
  }

  /** `fetchFilesByGuestCode`: the table's answer for the code. */
  method FetchFilesByGuestCode(db: FileDatabase, guestCode: string) returns (files: seq<UploadedFile>)
    ensures files == FilesByGuestCode(db.files, guestCode)
  {
    files := FilesByGuestCode(db.files, guestCode);
  }

  /** `recordFileDownload`: the table's true/false as a success flag and message. */
  method RecordFileDownload(db: FileDatabase, fileId: string, now: int) returns (r: ActionResult)
    modifies db
    ensures r.success <==> exists i :: 0 <= i < |old(db.files)| && old(db.files)[i].id == fileId
    ensures !r.success ==> r.message == Some(DOWNLOAD_NOT_FOUND) && db.files == old(db.files)
    ensures r.success ==> r.message.None?
    ensures r.success ==> var i := IndexOfId(old(db.files), fileId);
      db.files == old(db.files)[i := WithDownload(old(db.files)[i], now)]
  {
    var success := db.RecordDownload(fileId, now);
    if !success {
      return ActionResult(false, Some(DOWNLOAD_NOT_FOUND));
    }
    r := ActionResult(true, None);
  }

  /** `getDownloadStats`: the table's scan. */
  method GetDownloadStats(db: FileDatabase, now: int) returns (stats: StatsData)
    ensures stats == TallyFiles(db.files, now)
  {
    stats := db.DownloadStats(now);
  }

  // ---------------------------------------------------------------------------
  // Properties across actions

  /**
   * Upload then retrieve: once a record stored under a valid code is in the
   * table, a query with any casing of that code returns it.
   */
  lemma UploadThenFetch(before: seq<UploadedFile>, rec: UploadedFile, code: string, query: string)
    requires 3 <= |code| <= 20 && IsGuestCodeText(code)
    requires rec.guestCode == Lower(code)
    requires Lower(query) == Lower(code)
    ensures rec in FilesByGuestCode(before + [rec], query)
  {
    ValidGuestCodeNotBlank(code);
    LowerKeepsBlank(code);
    LowerKeepsBlank(query);
    InQueryIff(before + [rec], query, rec);
  }

  /** A new upload leaves the download counts as they were: its timestamp list is empty. */
  lemma UploadKeepsStats(before: seq<UploadedFile>, rec: UploadedFile, now: int)
    requires rec.downloadTimestamps == Some([])
    ensures TallyFiles(before + [rec], now) == TallyFiles(before, now)
  {
    AppendFreshKeepsStats(before, rec, now);
  }

  /** After a successful recorded download at `now`, both counts have gone up by exactly one. */
  lemma RecordedDownloadCounts(before: seq<UploadedFile>, fileId: string, now: int)
    requires exists i :: 0 <= i < |before| && before[i].id == fileId
    ensures var i := IndexOfId(before, fileId);
      TallyFiles(before[i := WithDownload(before[i], now)], now) ==
      StatsData(TallyFiles(before, now).today + 1, TallyFiles(before, now).thisWeek + 1)
  {
    DownloadAddsOneToday(before, IndexOfId(before, fileId), now);
  }
}
