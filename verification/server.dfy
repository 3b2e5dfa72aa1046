/**
 * The three transcription routes as transitions over the server's state: the
 * files sitting in the staging directory and the stored records, keyed by id.
 *
 * The caller's identity (`owner`) has already been resolved by the token gate;
 * the provider is a `Provider.Script`; record ids, clock readings, staging
 * paths and store failures are parameters.
 */
module Server {
  import opened Base
  import opened Intake
  import opened Text
  import Provider
  import opened TranscriptionSchema

  datatype State = State(staged: set<string>, records: map<nat, Record>)

  /** A file the upload layer has written to the staging directory. */
  datatype StagedUpload = StagedUpload(path: string, originalName: string, size: nat, mimeType: string)

  /** The multipart field `audio` as it arrives, before the upload layer handles it. */
  datatype Incoming = NoFilePart | FilePart(originalName: string, size: nat, mimeType: string)

  /** What the upload layer does with the request: refuse it, or stage the file (if any) and pass on. */
  datatype Received = Rejected(response: Response) | Accepted(state: State, file: Option<StagedUpload>)

  datatype Body = Failure(error: string) | Saved(file: View) | Listing(data: seq<View>) | Done(message: string)

  datatype Response = Response(code: nat, body: Body)

  /** The upload route's result: the new state, the response, and the provider requests made. */
  datatype Upload = Upload(state: State, response: Response, calls: nat)

  datatype Step = Step(state: State, response: Response)

  /** The `:id` route parameter: an object id, or a string the store cannot cast to one. */
  datatype IdParam = ObjectId(id: nat) | Malformed

  const NoFileMessage: string := "No file uploaded"
  const TooSmallMessage: string := "File too small"
  const TooLargeMessage: string := "File too large"
  const ValidationFailedMessage: string := "Transcription validation failed"
  const DuplicateKeyMessage: string := "E11000 duplicate key error"
  const HistoryErrorMessage: string := "Error fetching history"
  const NotFoundMessage: string := "Not found"
  const DeletedMessage: string := "Deleted"
  const DeleteErrorMessage: string := "Error deleting transcription"

  /** Best-effort removal of a staged file: afterwards the file is gone, every
      other file stays, and an absent file is no error. */
  function CleanupFile(staged: set<string>, path: string): (r: set<string>)
    ensures path !in r
    ensures forall p :: p in r <==> p in staged && p != path
    ensures path !in staged ==> r == staged
  {
    staged - {path}
  }

  /** A second cleanup of the same path changes nothing. */
  lemma CleanupIdempotent(staged: set<string>, path: string)
    ensures CleanupFile(CleanupFile(staged, path), path) == CleanupFile(staged, path)
  {
  }

  /** The upload layer: the extension filter refuses before anything is written,
      an oversize file is refused and its partial copy removed, and otherwise the
      file is staged under `stagingPath`. Its refusals reach the framework's
      default error handler, which answers 500. */
  function Receive(s: State, part: Incoming, stagingPath: string): (r: Received)
    ensures r.Rejected? <==> part.FilePart? && (!Supported(part.originalName) || part.size > MaxFileSize)
    ensures r.Rejected? ==> r.response == Response(500, Failure(
              if !Supported(part.originalName) then UnsupportedMessage else TooLargeMessage))
    ensures part.NoFilePart? ==> r == Accepted(s, None)
    ensures r.Accepted? && part.FilePart? ==>
              && r.state == State(s.staged + {stagingPath}, s.records)
              && r.file == Some(StagedUpload(stagingPath, part.originalName, part.size, part.mimeType))
  {
    match part
    case NoFilePart => Accepted(s, None)
    case FilePart(name, size, mime) =>
      if !Supported(name) then Rejected(Response(500, Failure(UnsupportedMessage)))
      else if size > MaxFileSize then Rejected(Response(500, Failure(TooLargeMessage)))
      else Accepted(State(s.staged + {stagingPath}, s.records), Some(StagedUpload(stagingPath, name, size, mime)))
  }

  /** The document the handler builds from a staged file and a transcript. */
  function UploadDraft(owner: nat, f: StagedUpload, text: string): Draft {
    Draft(Some(owner), Some(f.originalName), Some(f.path), Some(text), Some(f.size), Some(f.mimeType), None, None, None)
  }

  /** The upload handler. Missing and too-small files are answered 400 with the
      state untouched (the too-small file stays staged). Otherwise the provider
      is tried, the record built and saved, and the staged file cleaned up on
      success and on every error alike. */
  function HandleUpload(s: State, owner: nat, file: Option<StagedUpload>, script: Provider.Script,
                        id: nat, now: int, saveFault: Option<string>): (u: Upload)
    ensures file.None? ==> u == Upload(s, Response(400, Failure(NoFileMessage)), 0)
    ensures file.Some? && file.value.size < MinFileSize ==>
              u == Upload(s, Response(400, Failure(TooSmallMessage)), 0)
    ensures file.Some? && file.value.size >= MinFileSize ==>
              && u.state.staged == CleanupFile(s.staged, file.value.path)
              && u.calls == Provider.Transcribe(script).calls
    ensures file.Some? && file.value.size >= MinFileSize && Provider.Transcribe(script).result.Thrown? ==>
              && u.response == Response(500, Failure(Provider.Transcribe(script).result.message))
              && u.state.records == s.records
    ensures u.response.code == 200 ==>
              && file.Some?
              && id !in s.records && id in u.state.records
              && u.state.records == s.records[id := u.state.records[id]]
              && var r := u.state.records[id];
                 && Valid(r)
                 && r.userId == owner
                 && r.filepath == file.value.path
                 && r.status == Completed
                 && Provider.Transcribe(script).result == Provider.Transcript(r.transcription)
                 && u.response.body == Saved(ToJson(r))
    ensures (&& file.Some? && file.value.size >= MinFileSize
             && Provider.Transcribe(script).result.Transcript?
             && Acceptable(UploadDraft(owner, file.value, Provider.Transcribe(script).result.text))
             && id !in s.records && saveFault.None?) ==> u.response.code == 200
    ensures u.response.code == 200 ==>
              && file.Some? && Provider.Transcribe(script).result.Transcript? && id in u.state.records
              && Construct(UploadDraft(owner, file.value, Provider.Transcribe(script).result.text), id, now)
                 == Ok(u.state.records[id])
    ensures (&& file.Some? && file.value.size >= MinFileSize
             && Provider.Transcribe(script).result.Transcript? && u.response.code != 200) ==> u.response.code == 500
    ensures u.response.code != 200 ==> u.state.records == s.records
    ensures u.response.code in {200, 400, 500}
  {
    match file
    case None => Upload(s, Response(400, Failure(NoFileMessage)), 0)
    case Some(f) =>
      if f.size < MinFileSize then Upload(s, Response(400, Failure(TooSmallMessage)), 0)
      else
        var attempt := Provider.Transcribe(script);
        var cleaned := State(CleanupFile(s.staged, f.path), s.records);
        match attempt.result
        case Thrown(m) => Upload(cleaned, Response(500, Failure(m)), attempt.calls)
        case Transcript(text) =>
          match Construct(UploadDraft(owner, f, text), id, now)
          case Err(_) => Upload(cleaned, Response(500, Failure(ValidationFailedMessage)), attempt.calls)
          case Ok(r) =>
            if id in s.records then Upload(cleaned, Response(500, Failure(DuplicateKeyMessage)), attempt.calls)
            else if saveFault.Some? then Upload(cleaned, Response(500, Failure(saveFault.value)), attempt.calls)
            else Upload(State(cleaned.staged, s.records[id := r]), Response(200, Saved(ToJson(r))), attempt.calls)
  }

  /** `POST /upload` after the token gate: the upload layer, then the handler. */
  function UploadRoute(s: State, owner: nat, part: Incoming, stagingPath: string, script: Provider.Script,
                       id: nat, now: int, saveFault: Option<string>): (u: Upload)
    ensures part.NoFilePart? ==> u == Upload(s, Response(400, Failure(NoFileMessage)), 0)
    ensures part.FilePart? && (!Supported(part.originalName) || part.size > MaxFileSize) ==>
              u.state == s && u.response.code == 500 && u.calls == 0
    ensures part.FilePart? && Supported(part.originalName) && part.size < MinFileSize ==>
              && u.response == Response(400, Failure(TooSmallMessage))
              && u.state == State(s.staged + {stagingPath}, s.records)
              && u.calls == 0
    ensures part.FilePart? && Supported(part.originalName) && MinFileSize <= part.size <= MaxFileSize ==>
              && u.state.staged == CleanupFile(s.staged, stagingPath)
              && u.calls == Provider.Transcribe(script).calls
  {
    match Receive(s, part, stagingPath)
    case Rejected(response) => Upload(s, response, 0)
    case Accepted(s', file) => HandleUpload(s', owner, file, script, id, now, saveFault)
  }

  /** No stored record has status `failed`. */
  predicate NoFailedRecords(records: map<nat, Record>) {
    forall id :: id in records ==> records[id].status != Failed
  }

  /** The upload route never writes a failed record: job failures only produce an error response. */
  lemma UploadNeverWritesFailed(s: State, owner: nat, part: Incoming, stagingPath: string,
                                script: Provider.Script, id: nat, now: int, saveFault: Option<string>)
    requires NoFailedRecords(s.records)
    ensures NoFailedRecords(UploadRoute(s, owner, part, stagingPath, script, id, now, saveFault).state.records)
  {
    var u := UploadRoute(s, owner, part, stagingPath, script, id, now, saveFault);
    var received := Receive(s, part, stagingPath);
    if received.Accepted? {
      assert received.state.records == s.records;
      var h := HandleUpload(received.state, owner, received.file, script, id, now, saveFault);
      assert u == h;
      if h.response.code == 200 {
        assert h.state.records == s.records[id := h.state.records[id]];
        assert h.state.records[id].status == Completed;
      }
    }
  }

  /** A job that never finishes within the polling budget is stored as an
      ordinary completed record whose transcript is the placeholder text. */
  lemma UploadTimeoutSavesPlaceholder(s: State, owner: nat, name: string, size: nat, mime: string,
                                      stagingPath: string, script: Provider.Script, id: nat, now: int)
    requires Supported(name) && MinFileSize <= size <= MaxFileSize
    requires mime != "" && stagingPath != "" && Text.Trim(name) != ""
    requires Provider.Submitted(script) && Provider.NeverTerminal(script.polls)
    requires id !in s.records
    ensures var u := UploadRoute(s, owner, FilePart(name, size, mime), stagingPath, script, id, now, None);
            && u.response.code == 200
            && id in u.state.records
            && u.state.records[id].transcription == Provider.PendingText
            && u.state.records[id].status == Completed
            && u.state.records[id].userId == owner
            && stagingPath !in u.state.staged
            && u.calls == 2 + Provider.MaxPolls
  {
    var s' := State(s.staged + {stagingPath}, s.records);
    var f := StagedUpload(stagingPath, name, size, mime);
    assert Receive(s, FilePart(name, size, mime), stagingPath) == Accepted(s', Some(f));
    Provider.TranscribeTimesOut(script);
    var draft := UploadDraft(owner, f, Provider.PendingText);
    assert Acceptable(draft);
    var c := Construct(draft, id, now);
    var h := HandleUpload(s', owner, Some(f), script, id, now, None);
    assert h == Upload(State(CleanupFile(s'.staged, stagingPath), s.records[id := c.value]),
                       Response(200, Saved(ToJson(c.value))), 2 + Provider.MaxPolls);
  }

  /** No id is listed twice. */
  predicate Distinct(ids: seq<nat>) {
    forall i, j :: 0 <= i < j < |ids| ==> ids[i] != ids[j]
  }

  /** Ids in `records`, newest first. */
  ghost predicate NewestFirst(records: map<nat, Record>, ids: seq<nat>) {
    && (forall i :: 0 <= i < |ids| ==> ids[i] in records)
    && (forall i, j :: 0 <= i < j < |ids| ==> records[ids[i]].createdAt >= records[ids[j]].createdAt)
  }

  /** The provider answers of the scenario below: processing twice, then completed. */
  const HelloWorldScript: Provider.Script :=
    Provider.Script("key", Provider.Field("https://cdn.example/upload"), Provider.Field("job-1"),
                    [Provider.Snapshot(Provider.Processing), Provider.Snapshot(Provider.Processing),
                     Provider.Snapshot(Provider.Completed("hello world"))])

  lemma HelloWorldTranscribed()
    ensures Provider.Transcribe(HelloWorldScript) == Provider.Attempt(Provider.Transcript("hello world"), 5, 2)
  {
    var script := HelloWorldScript;
    assert Provider.Submitted(script);
    assert Provider.FirstTerminalAt(script.polls, 2);
    Provider.TranscribeCompletes(script, 2, "hello world");
  }

  lemma TalkWavAccepted()
    ensures Supported("talk.wav") && Trim("talk.wav") == "talk.wav"
  {
    var name := "talk.wav";
    assert forall i :: 0 <= i < |name| ==> !('A' <= name[i] <= 'Z') && !IsSpace(name[i]);
    LowerOfLowercase(name);
    assert name[|name| - 4..] == ".wav";
    assert EndsWith(ToLower(name), SupportedExtensions[0]);
  }

  /** A 2000-byte `.wav` whose job reports `processing` twice and then
      `completed` with "hello world": the record is saved with that text after
      five provider requests, and the staged file is gone. */
  lemma UploadScenarioHelloWorld(s: State, owner: nat, id: nat, now: int)
    requires id !in s.records
    ensures var u := UploadRoute(s, owner, FilePart("talk.wav", 2000, "audio/wav"), "uploads/audio-1.wav",
                                 HelloWorldScript, id, now, None);
            && u.response.code == 200
            && u.state.records == s.records[id := u.state.records[id]]
            && u.state.records[id].transcription == "hello world"
            && u.state.records[id].status == Completed
            && u.state.records[id].userId == owner
            && u.state.records[id].createdAt == now
            && "uploads/audio-1.wav" !in u.state.staged
            && u.calls == 5
  {
    var script := HelloWorldScript;
    var name := "talk.wav";
    var path := "uploads/audio-1.wav";
    TalkWavAccepted();
    HelloWorldTranscribed();
    var s' := State(s.staged + {path}, s.records);
    var f := StagedUpload(path, name, 2000, "audio/wav");
    assert Receive(s, FilePart(name, 2000, "audio/wav"), path) == Accepted(s', Some(f));
    assert Acceptable(UploadDraft(owner, f, "hello world"));
    var h := HandleUpload(s', owner, Some(f), script, id, now, None);
    assert h.response.code == 200;
    assert UploadRoute(s, owner, FilePart(name, 2000, "audio/wav"), path, script, id, now, None) == h;
  }

  /** After any successful upload, the new record heads its owner's history
      when every earlier record was created before it. */
  lemma UploadHeadsHistory(s: State, owner: nat, part: Incoming, stagingPath: string, script: Provider.Script,
                           id: nat, now: int, saveFault: Option<string>, ids: seq<nat>)
    requires forall k :: k in s.records ==> s.records[k].createdAt < now
    requires UploadRoute(s, owner, part, stagingPath, script, id, now, saveFault).response.code == 200
    requires ListsOwned(UploadRoute(s, owner, part, stagingPath, script, id, now, saveFault).state.records, owner, ids)
    ensures |ids| > 0 && ids[0] == id
  {
    var u := UploadRoute(s, owner, part, stagingPath, script, id, now, saveFault);
    var received := Receive(s, part, stagingPath);
    assert received.Accepted? && received.state.records == s.records;
    var h := HandleUpload(received.state, owner, received.file, script, id, now, saveFault);
    assert u == h;
    var r := u.state.records[id];
    assert r.createdAt == now && r.userId == owner;
    NewestListedFirst(u.state.records, owner, ids, id);
  }

  /** `records` lists exactly the owner's records, each once, newest first. */
  ghost predicate ListsOwned(records: map<nat, Record>, owner: nat, ids: seq<nat>) {
    && (forall i :: 0 <= i < |ids| ==> ids[i] in records && records[ids[i]].userId == owner)
    && (forall id :: id in records && records[id].userId == owner ==> id in ids)
    && Distinct(ids)
    && NewestFirst(records, ids)
  }

  /** Places `k` before the first listed record that is older than it. */
  function InsertNewestFirst(records: map<nat, Record>, ids: seq<nat>, k: nat): (r: seq<nat>)
    requires k in records && NewestFirst(records, ids)
    ensures |r| == |ids| + 1
    ensures forall x :: x in r <==> x in ids || x == k
  {
    if ids == [] then [k]
    else if records[k].createdAt >= records[ids[0]].createdAt then [k] + ids
    else [ids[0]] + InsertNewestFirst(records, ids[1..], k)
  }

  /** Inserting keeps the listing ordered newest first. */
  lemma {:induction false} InsertKeepsNewestFirst(records: map<nat, Record>, ids: seq<nat>, k: nat)
    requires k in records && NewestFirst(records, ids)
    ensures NewestFirst(records, InsertNewestFirst(records, ids, k))
  {
    if ids == [] {
    } else if records[k].createdAt >= records[ids[0]].createdAt {
      assert forall j :: 0 < j < |ids| ==> records[ids[0]].createdAt >= records[ids[j]].createdAt;
    } else {
      var rest := InsertNewestFirst(records, ids[1..], k);
      InsertKeepsNewestFirst(records, ids[1..], k);
      var r := [ids[0]] + rest;
      assert forall i :: 1 <= i < |r| ==> r[i] == rest[i - 1];
      assert forall x :: x in ids[1..] ==> records[ids[0]].createdAt >= records[x].createdAt;
      assert NewestFirst(records, r);
    }
  }

  /** Inserting a new id into a listing without repeats leaves it without repeats. */
  lemma {:induction false} InsertKeepsDistinct(records: map<nat, Record>, ids: seq<nat>, k: nat)
    requires k in records && NewestFirst(records, ids)
    requires Distinct(ids) && k !in ids
    ensures Distinct(InsertNewestFirst(records, ids, k))
  {
    if ids != [] && records[k].createdAt < records[ids[0]].createdAt {
      var rest := InsertNewestFirst(records, ids[1..], k);
      InsertKeepsDistinct(records, ids[1..], k);
      assert ids[0] !in ids[1..];
      var r := [ids[0]] + rest;
      assert forall i :: 1 <= i < |r| ==> r[i] == rest[i - 1];
    }
  }

  /** The history query: the caller's records, newest first. */
  method ListHistory(records: map<nat, Record>, owner: nat) returns (ids: seq<nat>)
    ensures ListsOwned(records, owner, ids)
  {
    var remaining := records.Keys;
    ids := [];
    while remaining != {}
      invariant remaining <= records.Keys
      invariant NewestFirst(records, ids)
      invariant Distinct(ids)
      invariant forall x :: x in ids ==> x !in remaining
      invariant forall x :: x in ids <==> x in records && x !in remaining && records[x].userId == owner
      decreases remaining
    {
      var k :| k in remaining;
      remaining := remaining - {k};
      if records[k].userId == owner {
        InsertKeepsNewestFirst(records, ids, k);
        InsertKeepsDistinct(records, ids, k);
        ids := InsertNewestFirst(records, ids, k);
      }
    }
  }

  /** `GET /history`: the caller's records in their JSON form, newest first. */
  method HistoryRoute(s: State, owner: nat, storeFault: bool) returns (response: Response)
    ensures storeFault ==> response == Response(500, Failure(HistoryErrorMessage))
    ensures !storeFault ==> response.code == 200 && response.body.Listing?
    ensures !storeFault ==>
              exists ids :: (&& ListsOwned(s.records, owner, ids)
                             && response.body.data == seq(|ids|, i requires 0 <= i < |ids| && ids[i] in s.records => ToJson(s.records[ids[i]])))
  {
    if storeFault {
      return Response(500, Failure(HistoryErrorMessage));
    }
    var ids := ListHistory(s.records, owner);
    var views := seq(|ids|, i requires 0 <= i < |ids| && ids[i] in s.records => ToJson(s.records[ids[i]]));
    return Response(200, Listing(views));
  }

  /** A record newer than every other stored record heads its owner's history. */
  lemma NewestListedFirst(records: map<nat, Record>, owner: nat, ids: seq<nat>, id: nat)
    requires ListsOwned(records, owner, ids)
    requires id in records && records[id].userId == owner
    requires forall k :: k in records && k != id ==> records[k].createdAt < records[id].createdAt
    ensures |ids| > 0 && ids[0] == id
  {
    assert id in ids;
    var p :| 0 <= p < |ids| && ids[p] == id;
  }

  /** The record the caller may delete: found by id and owner together. */
  predicate OwnedBy(s: State, owner: nat, id: nat) {
    id in s.records && s.records[id].userId == owner
  }

  /** `DELETE /history/:id`: a record is found only by id and owner together;
      another owner's record and an absent id are both "Not found". On success
      the record's file is cleaned up first and only that record is removed. */
  function DeleteRoute(s: State, owner: nat, param: IdParam, storeFault: bool): (step: Step)
    ensures step.response.code == 404 <==> !storeFault && param.ObjectId? && !OwnedBy(s, owner, param.id)
    ensures step.response.code == 404 ==> step == Step(s, Response(404, Failure(NotFoundMessage)))
    ensures step.response.code == 200 <==> !storeFault && param.ObjectId? && OwnedBy(s, owner, param.id)
    ensures step.response.code == 200 ==>
              && step.state.records == s.records - {param.id}
              && step.state.staged <= s.staged
              && s.staged - step.state.staged <= {s.records[param.id].filepath}
              && (s.records[param.id].filepath != "" ==> s.records[param.id].filepath !in step.state.staged)
    ensures step.response.code == 200 ==> step.response.body == Done(DeletedMessage)
    ensures storeFault || param.Malformed? ==> step.response == Response(500, Failure(DeleteErrorMessage))
    ensures step.response.code != 200 ==> step.state == s
    ensures forall k :: k in s.records && s.records[k].userId != owner ==>
              k in step.state.records && step.state.records[k] == s.records[k]
  {
    if storeFault then Step(s, Response(500, Failure(DeleteErrorMessage)))
    else match param
      case Malformed => Step(s, Response(500, Failure(DeleteErrorMessage)))
      case ObjectId(id) =>
        if !OwnedBy(s, owner, id) then Step(s, Response(404, Failure(NotFoundMessage)))
        else
          var r := s.records[id];
          var staged := if r.filepath != "" then CleanupFile(s.staged, r.filepath) else s.staged;
          Step(State(staged, s.records - {id}), Response(200, Done(DeletedMessage)))
  }

  /** Deleting the same id twice: the second request is "Not found" and changes nothing. */
  lemma DeleteTwiceNotFound(s: State, owner: nat, id: nat)
    ensures var first := DeleteRoute(s, owner, ObjectId(id), false);
            DeleteRoute(first.state, owner, ObjectId(id), false) == Step(first.state, Response(404, Failure(NotFoundMessage)))
  {
  }

  /** Another owner's record is answered exactly as if it did not exist. */
  lemma DeleteForeignLooksAbsent(s: State, owner: nat, id: nat)
    requires id in s.records && s.records[id].userId != owner
    ensures DeleteRoute(s, owner, ObjectId(id), false).response
            == DeleteRoute(State(s.staged, s.records - {id}), owner, ObjectId(id), false).response
    ensures DeleteRoute(s, owner, ObjectId(id), false).state == s
  {
  }

  /** One owner's delete leaves every other owner's history as it was. */
  lemma DeleteKeepsOthersHistory(s: State, owner: nat, param: IdParam, storeFault: bool, other: nat, ids: seq<nat>)
    requires other != owner
    ensures var after := DeleteRoute(s, owner, param, storeFault).state.records;
            ListsOwned(s.records, other, ids) <==> ListsOwned(after, other, ids)
  {
    var after := DeleteRoute(s, owner, param, storeFault).state.records;
    assert forall k :: k in after && after[k].userId == other <==> k in s.records && s.records[k].userId == other;
    assert forall k :: k in after ==> k in s.records && after[k] == s.records[k];
  }

  /** The delete route never introduces a failed record. */
  lemma DeleteNeverWritesFailed(s: State, owner: nat, param: IdParam, storeFault: bool)
    requires NoFailedRecords(s.records)
    ensures NoFailedRecords(DeleteRoute(s, owner, param, storeFault).state.records)
  {
  }
}
