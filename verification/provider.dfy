/**
 * The speech-to-text provider sequence: check the API key, upload the audio,
 * start a transcript job, then poll the job a bounded number of times.
 *
 * The provider is abstract: each HTTP exchange is a scripted answer, and the
 * status checks are a sequence of snapshots, one per tick.
 */
module Provider {

  /** The job status a status check reports. */
  datatype Status = Queued | Processing | Completed(text: string) | Error(detail: string)

  /** One status check: a snapshot, or a request that was rejected or never answered. */
  datatype PollReply = Snapshot(status: Status) | PollTransportError(message: string)

  /** The answer to the upload or job-start request: the field the caller reads
      (`upload_url` or `id`), a body without that field, or a failed request. */
  datatype Answer = Field(value: string) | NoField | TransportError(message: string)

  /** Everything the provider will say to one transcription attempt. An empty
      `apiKey` stands for an unset key. */
  datatype Script = Script(apiKey: string, upload: Answer, start: Answer, polls: seq<PollReply>)

  /** What a transcription attempt yields: a transcript text, or the message of the error thrown. */
  datatype Transcribed = Transcript(text: string) | Thrown(message: string)

  /** The polling loop's result with the status checks made and the 3-second waits taken. */
  datatype PollOutcome = PollOutcome(result: Transcribed, checks: nat, waits: nat)

  /** A whole attempt: its result, the provider requests made, and the waits taken. */
  datatype Attempt = Attempt(result: Transcribed, calls: nat, waits: nat)

  const MaxPolls: nat := 60
  const PollIntervalMs: nat := 3000

  const PendingText: string := "Processing..."
  const NoSpeechText: string := "No speech detected"
  const KeyMissing: string := "AssemblyAI API key missing"
  const UploadFailed: string := "AssemblyAI upload failed"
  const StartFailed: string := "Failed to start transcription"
  const JobFailedPrefix: string := "Transcription failed: "

  /** A request answer counts as missing when it carries no usable (non-empty) field. */
  predicate Missing(a: Answer) {
    a.NoField? || (a.Field? && a.value == "")
  }

  /** The reply to status check number `i`; checks past the end of the script read as still processing. */
  function ReplyAt(polls: seq<PollReply>, i: nat): PollReply {
    if i < |polls| then polls[i] else Snapshot(Processing)
  }

  /** A reply that ends the polling loop. */
  predicate Terminal(r: PollReply) {
    r.PollTransportError? || r.status.Completed? || r.status.Error?
  }

  /** What a terminal reply makes of the attempt. */
  function TerminalResult(r: PollReply): Transcribed
    requires Terminal(r)
  {
    match r
    case PollTransportError(m) => Thrown(m)
    case Snapshot(Completed(t)) => Transcript(if t == "" then NoSpeechText else t)
    case Snapshot(Error(d)) => Thrown(JobFailedPrefix + d)
  }

  /** Status check number `k` is the first terminal one, within the budget. */
  predicate FirstTerminalAt(polls: seq<PollReply>, k: nat) {
    && k < MaxPolls
    && Terminal(ReplyAt(polls, k))
    && forall j :: 0 <= j < k ==> !Terminal(ReplyAt(polls, j))
  }

  /** No status check within the budget is terminal. */
  predicate NeverTerminal(polls: seq<PollReply>) {
    forall j :: 0 <= j < MaxPolls ==> !Terminal(ReplyAt(polls, j))
  }

  /** The polling loop from tick `i` on. */
  function PollFrom(polls: seq<PollReply>, i: nat): (o: PollOutcome)
    requires i <= MaxPolls
    ensures o.checks <= MaxPolls - i
    ensures o.waits <= o.checks <= o.waits + 1
    decreases MaxPolls - i
  {
    if i == MaxPolls then PollOutcome(Transcript(PendingText), 0, 0)
    else
      var reply := ReplyAt(polls, i);
      if Terminal(reply) then PollOutcome(TerminalResult(reply), 1, 0)
      else
        var rest := PollFrom(polls, i + 1);
        PollOutcome(rest.result, rest.checks + 1, rest.waits + 1)
  }

  function Poll(polls: seq<PollReply>): PollOutcome {
    PollFrom(polls, 0)
  }

  /** The loop stops at the first terminal reply, after one check per tick up to it. */
  lemma {:induction false} PollStopsAtFirstTerminal(polls: seq<PollReply>, i: nat, k: nat)
    requires i <= k < MaxPolls
    requires Terminal(ReplyAt(polls, k))
    requires forall j :: i <= j < k ==> !Terminal(ReplyAt(polls, j))
    ensures PollFrom(polls, i) == PollOutcome(TerminalResult(ReplyAt(polls, k)), k - i + 1, k - i)
    decreases k - i
  {
    if i < k {
      PollStopsAtFirstTerminal(polls, i + 1, k);
    }
  }

  /** Without a terminal reply the loop uses every tick and returns the placeholder text. */
  lemma {:induction false} PollExhausts(polls: seq<PollReply>, i: nat)
    requires i <= MaxPolls
    requires forall j :: i <= j < MaxPolls ==> !Terminal(ReplyAt(polls, j))
    ensures PollFrom(polls, i) == PollOutcome(Transcript(PendingText), MaxPolls - i, MaxPolls - i)
    decreases MaxPolls - i
  {
    if i < MaxPolls {
      PollExhausts(polls, i + 1);
    }
  }

  /** The polling loop: at most 60 checks, a wait after every non-terminal one,
      stopping at the first completed or failed job. */
  method PollLoop(polls: seq<PollReply>) returns (o: PollOutcome)
    ensures o == Poll(polls)
    ensures o.checks <= MaxPolls
    ensures NeverTerminal(polls) ==> o == PollOutcome(Transcript(PendingText), MaxPolls, MaxPolls)
    ensures forall k: nat :: FirstTerminalAt(polls, k) ==>
              o == PollOutcome(TerminalResult(ReplyAt(polls, k)), k + 1, k)
  {
    var transcription := PendingText;
    var i := 0;
    var waits := 0;
    while i < MaxPolls
      invariant 0 <= i <= MaxPolls
      invariant waits == i
      invariant forall j :: 0 <= j < i ==> !Terminal(ReplyAt(polls, j))
    {
      var reply := ReplyAt(polls, i);
      if Terminal(reply) {
        PollStopsAtFirstTerminal(polls, 0, i);
        assert forall k: nat :: FirstTerminalAt(polls, k) ==> k == i;
        return PollOutcome(TerminalResult(reply), i + 1, waits);
      }
      waits := waits + 1;
      i := i + 1;
    }
    PollExhausts(polls, 0);
    assert forall k: nat :: !FirstTerminalAt(polls, k);
    return PollOutcome(Transcript(transcription), i, waits);
  }

  /** One transcription attempt: the key check, the upload, the job start, then polling. */
  function Transcribe(s: Script): (a: Attempt)
    ensures a.calls == 0 <==> s.apiKey == ""
    ensures a.calls == 0 ==> a.result == Thrown(KeyMissing)
    ensures a.calls == 1 <==> s.apiKey != "" && (s.upload.TransportError? || Missing(s.upload))
    ensures a.calls == 1 && Missing(s.upload) ==> a.result == Thrown(UploadFailed)
    ensures a.calls == 1 && s.upload.TransportError? ==> a.result == Thrown(s.upload.message)
    ensures a.calls == 2 <==>
              s.apiKey != "" && !s.upload.TransportError? && !Missing(s.upload)
              && (s.start.TransportError? || Missing(s.start))
    ensures a.calls == 2 && Missing(s.start) ==> a.result == Thrown(StartFailed)
    ensures a.calls == 2 && s.start.TransportError? ==> a.result == Thrown(s.start.message)
    ensures a.calls <= 2 + MaxPolls
    ensures a.calls <= 2 ==> a.waits == 0
  {
    if s.apiKey == "" then Attempt(Thrown(KeyMissing), 0, 0)
    else if s.upload.TransportError? then Attempt(Thrown(s.upload.message), 1, 0)
    else if Missing(s.upload) then Attempt(Thrown(UploadFailed), 1, 0)
    else if s.start.TransportError? then Attempt(Thrown(s.start.message), 2, 0)
    else if Missing(s.start) then Attempt(Thrown(StartFailed), 2, 0)
    else
      var p := Poll(s.polls);
      Attempt(p.result, 2 + p.checks, p.waits)
  }

  /** Both provider handles came back, so polling starts. */
  predicate Submitted(s: Script) {
    s.apiKey != "" && s.upload.Field? && s.upload.value != "" && s.start.Field? && s.start.value != ""
  }

  /** A completed job yields its text, or the no-speech text when the text is empty. */
  lemma TranscribeCompletes(s: Script, k: nat, text: string)
    requires Submitted(s)
    requires FirstTerminalAt(s.polls, k) && ReplyAt(s.polls, k) == Snapshot(Completed(text))
    ensures Transcribe(s) == Attempt(Transcript(if text == "" then NoSpeechText else text), k + 3, k)
  {
    PollStopsAtFirstTerminal(s.polls, 0, k);
  }

  /** A job the provider reports as failed throws with the provider's detail. */
  lemma TranscribeJobError(s: Script, k: nat, detail: string)
    requires Submitted(s)
    requires FirstTerminalAt(s.polls, k) && ReplyAt(s.polls, k) == Snapshot(Error(detail))
    ensures Transcribe(s).result == Thrown(JobFailedPrefix + detail)
    ensures Transcribe(s).calls == k + 3
  {
    PollStopsAtFirstTerminal(s.polls, 0, k);
  }

  /** A status check that fails at the transport level throws its own message
      and ends the attempt there. */
  lemma TranscribePollTransportError(s: Script, k: nat, m: string)
    requires Submitted(s)
    requires FirstTerminalAt(s.polls, k) && ReplyAt(s.polls, k) == PollTransportError(m)
    ensures Transcribe(s) == Attempt(Thrown(m), k + 3, k)
  {
    PollStopsAtFirstTerminal(s.polls, 0, k);
  }

  /** Sixty non-terminal checks return the placeholder text, after sixty 3-second waits. */
  lemma TranscribeTimesOut(s: Script)
    requires Submitted(s) && NeverTerminal(s.polls)
    ensures Transcribe(s) == Attempt(Transcript(PendingText), 2 + MaxPolls, MaxPolls)
    ensures Transcribe(s).waits * PollIntervalMs == 180000
  {
    PollExhausts(s.polls, 0);
  }
}
