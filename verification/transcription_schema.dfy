/**
 * The persisted transcription record: its fields, the document validation run
 * before a save (required fields, the status enumeration, a non-negative size,
 * a trimmed file name), the defaults, and the JSON projection that hides the
 * staging path and the version key.
 */
module TranscriptionSchema {
  import opened Base
  import opened Text

  datatype Status = Processing | Completed | Failed

  /** The string a status is stored as. */
  function StatusName(st: Status): string {
    match st
    case Processing => "processing"
    case Completed => "completed"
    case Failed => "failed"
  }

  /** The status enumeration, keyed by the strings the schema accepts: each
      accepted string is the stored name of the status it decodes to. */
  function ParseStatus(s: string): (st: Option<Status>)
    ensures st.Some? <==> s in ["processing", "completed", "failed"]
    ensures st.Some? ==> StatusName(st.value) == s
  {
    if s == "processing" then Some(Processing)
    else if s == "completed" then Some(Completed)
    else if s == "failed" then Some(Failed)
    else None
  }

  /** Every status reads back from its stored name. */
  lemma {:induction false} ParseStatusName(st: Status)
    ensures ParseStatus(StatusName(st)) == Some(st)
  {
    match st
    case Processing =>
    case Completed => assert StatusName(st) != "processing";
    case Failed => assert StatusName(st) != "processing" && StatusName(st) != "completed";
  }

  /** The values handed to the model constructor; `None` is an omitted field. */
  datatype Draft = Draft(
    userId: Option<nat>,
    filename: Option<string>,
    filepath: Option<string>,
    transcription: Option<string>,
    fileSize: Option<int>,
    mimeType: Option<string>,
    status: Option<string>,
    errorMessage: Option<string>,
    processingTime: Option<int>)

  /** A stored document. `version` is the store's version key. */
  datatype Record = Record(
    id: nat,
    userId: nat,
    filename: string,
    filepath: string,
    transcription: string,
    fileSize: int,
    mimeType: string,
    status: Status,
    errorMessage: Option<string>,
    processingTime: Option<int>,
    createdAt: int,
    updatedAt: int,
    version: nat)

  /** The JSON form of a record: every field except the staging path and the version key. */
  datatype View = View(
    id: nat,
    userId: nat,
    filename: string,
    transcription: string,
    fileSize: int,
    mimeType: string,
    status: Status,
    errorMessage: Option<string>,
    processingTime: Option<int>,
    createdAt: int,
    updatedAt: int)

  /** A failed validation rule, named by the field it concerns. */
  datatype FieldError = Required(path: string) | BelowMinimum(path: string) | NotInEnum(path: string)

  /** What every stored record satisfies. */
  predicate Valid(r: Record) {
    && r.filename != "" && Trim(r.filename) == r.filename
    && r.filepath != ""
    && r.mimeType != ""
    && r.fileSize >= 0
  }

  /** A required string is present and non-empty (the store rejects an empty string as missing). */
  predicate Given(s: Option<string>) {
    s.Some? && s.value != ""
  }

  /** The draft passes validation: required fields given, size not negative, status in the enumeration. */
  predicate Acceptable(d: Draft) {
    && d.userId.Some?
    && d.filename.Some? && Trim(d.filename.value) != ""
    && Given(d.filepath)
    && d.fileSize.Some? && d.fileSize.value >= 0
    && Given(d.mimeType)
    && (d.status.None? || ParseStatus(d.status.value).Some?)
  }

  /** The rule `e` reports is broken by the draft. */
  predicate Breaks(d: Draft, e: FieldError) {
    match e
    case Required(p) =>
      || (p == "userId" && d.userId.None?)
      || (p == "filename" && (d.filename.None? || Trim(d.filename.value) == ""))
      || (p == "filepath" && !Given(d.filepath))
      || (p == "fileSize" && d.fileSize.None?)
      || (p == "mimeType" && !Given(d.mimeType))
    case BelowMinimum(p) => p == "fileSize" && d.fileSize.Some? && d.fileSize.value < 0
    case NotInEnum(p) => p == "status" && d.status.Some? && ParseStatus(d.status.value).None?
  }

  function FileSizeErrors(size: Option<int>): (errors: seq<FieldError>)
    ensures errors == [] <==> size.Some? && size.value >= 0
  {
    if size.None? then [Required("fileSize")]
    else if size.value < 0 then [BelowMinimum("fileSize")]
    else []
  }

  /** The validation errors of a draft, one per broken field, in schema field
      order; the file name is checked after trimming. */
  function SchemaErrors(d: Draft): (errors: seq<FieldError>)
    ensures errors == [] <==> Acceptable(d)
    ensures forall i :: 0 <= i < |errors| ==> Breaks(d, errors[i])
    ensures forall e :: Breaks(d, e) ==> e in errors
  {
    (if d.userId.None? then [Required("userId")] else [])
    + (if d.filename.None? || Trim(d.filename.value) == "" then [Required("filename")] else [])
    + (if !Given(d.filepath) then [Required("filepath")] else [])
    + FileSizeErrors(d.fileSize)
    + (if !Given(d.mimeType) then [Required("mimeType")] else [])
    + (if d.status.Some? && ParseStatus(d.status.value).None? then [NotInEnum("status")] else [])
  }

  /** Building and validating a document: defaults fill the omitted optional
      fields, the file name is trimmed, and a draft that breaks a rule is refused. */
  function Construct(d: Draft, id: nat, now: int): (r: Result<Record, seq<FieldError>>)
    ensures r.Ok? <==> Acceptable(d)
    ensures r.Err? ==> r.error != []
    ensures r.Ok? ==> Valid(r.value)
    ensures r.Ok? ==> && r.value.id == id
                      && Some(r.value.userId) == d.userId
                      && r.value.filename == Trim(d.filename.value)
                      && Some(r.value.filepath) == d.filepath
                      && Some(r.value.fileSize) == d.fileSize
                      && Some(r.value.mimeType) == d.mimeType
                      && r.value.createdAt == now && r.value.updatedAt == now
                      && r.value.version == 0
    ensures r.Ok? ==> r.value.transcription == (if d.transcription.Some? then d.transcription.value else "")
    ensures r.Ok? && d.status.None? ==> r.value.status == Completed
    ensures r.Ok? && d.status.Some? ==> Some(r.value.status) == ParseStatus(d.status.value)
    ensures r.Ok? ==> r.value.errorMessage == d.errorMessage
    ensures r.Ok? ==> r.value.processingTime == d.processingTime
  {
    var errors := SchemaErrors(d);
    if errors != [] then Err(errors)
    else
      var name := Trim(d.filename.value);
      assert Trim(name) == name by {
        assert name[0] == name[0..][0];
        TrimOfTrimmed(name);
      }
      Ok(Record(
        id, d.userId.value, name, d.filepath.value,
        if d.transcription.Some? then d.transcription.value else "",
        d.fileSize.value, d.mimeType.value,
        if d.status.Some? then ParseStatus(d.status.value).value else Completed,
        d.errorMessage, d.processingTime, now, now, 0))
  }

  /** The JSON projection: the staging path and the version key are dropped. */
  function ToJson(r: Record): (v: View)
    ensures Restore(v, r.filepath, r.version) == r
  {
    View(r.id, r.userId, r.filename, r.transcription, r.fileSize, r.mimeType, r.status,
         r.errorMessage, r.processingTime, r.createdAt, r.updatedAt)
  }

  /** Puts the two dropped fields back. */
  function Restore(v: View, filepath: string, version: nat): Record {
    Record(v.id, v.userId, v.filename, filepath, v.transcription, v.fileSize, v.mimeType, v.status,
           v.errorMessage, v.processingTime, v.createdAt, v.updatedAt, version)
  }

  /** The JSON form reveals nothing about the staging path or the version key. */
  lemma ToJsonHidesPath(r: Record, filepath: string, version: nat)
    ensures ToJson(r.(filepath := filepath, version := version)) == ToJson(r)
  {
  }

  /** Defaults: a draft that gives only the required fields is stored as a
      completed record with an empty transcript and no error or timing. */
  lemma DefaultsOfMinimalDraft(userId: nat, filename: string, filepath: string, size: nat, mime: string, id: nat, now: int)
    requires Trim(filename) != "" && filepath != "" && mime != ""
    ensures var r := Construct(Draft(Some(userId), Some(filename), Some(filepath), None, Some(size), Some(mime), None, None, None), id, now);
            && r.Ok?
            && r.value.transcription == ""
            && r.value.status == Completed
            && r.value.errorMessage == None
            && r.value.processingTime == None
  {
  }
}
