# Speech transcriber backend — a Dafny model

This project models the core of an Express service that transcribes uploaded
audio. An account holder signs up or logs in and gets a bearer token. With
that token they upload an audio file, which the service stages on disk. The
file is sent to the AssemblyAI speech-to-text API, and the service polls the
transcript job up to sixty times, three seconds apart. The transcript is
stored as a record owned by the caller, and the staged file is removed. The
caller can list their records newest first and delete them one at a time.

The model is written as pure functions and small methods over immutable
state:

- `Text`: the string operations the routes rely on: `trim`, ASCII
  `toLowerCase`, `endsWith`, and `split`/`join` on one character.
- `Intake`: the extension allow-list, the upload filter and the size bounds.
- `Provider`: the provider call sequence. This covers the key check, the
  upload with its `upload_url`, the job start with its `id`, and the bounded
  polling loop. The provider is a `Script` of answers, one per HTTP request.
- `TranscriptionSchema`: the stored record and its validation. This covers
  the required fields, the status enumeration, the minimum size and the
  trimmed file name, plus the defaults and the JSON projection that hides the
  staging path and version key.
- `Server`: `POST /upload`, `GET /history` and `DELETE /history/:id` as
  transitions over a `State`. The state is the set of staged files plus the
  stored records keyed by id.
- `AuthRoutes`: the credential validator and the decisions of
  `POST /auth/signup` and `POST /auth/login`.
- `TokenGate`: the bearer-token middleware that guards the transcription
  routes.

Five behaviours of the code are easy to miss. The model follows the code in
each of them:

- **Timeout:** a job that is still running after sixty polls is not recorded
  as failed. The handler stores the placeholder text "Processing..." as an
  ordinary `completed` record (`Server.UploadTimeoutSavesPlaceholder`).
- **Job failures:** a job the provider reports as failed is not stored. It
  only produces a 500 answer, and the routes never write a `failed` record
  (`Server.UploadNeverWritesFailed`).
- **Too-small files:** a file below the 1000-byte floor is answered 400
  before the handler's `try` body reaches a cleanup. It therefore stays in
  the staging directory (`Server.UploadRoute`).
- **Upload-layer refusals:** an unsupported extension or a file over 50 MiB is
  refused by the upload layer. The application defines no error handler, so
  the framework's default handler answers 500, not 400 (`Server.Receive`).
- **Signup without a name:** the validator skips the name check when the name
  is absent, because the default parameter is `null`. For an email that is
  not yet registered, the route then calls `name.trim()` on the missing name,
  which throws, and the answer is 500. An already registered email is
  refused with 400 before that point (`AuthRoutes.SignupRoute`).

## Model

| member | source | states |
|---|---|---|
| Text.Trim | models/Transcription.js:11-15 | the trimmed string is the input with a whitespace prefix and a whitespace suffix removed, and neither of its ends is whitespace; a string without whitespace is unchanged; the result is empty exactly when the input is all whitespace |
| Text.TrimOfTrimmed | models/Transcription.js:14 | a string with no whitespace at either end is its own trim, so a stored file name trims to itself |
| Text.TrimStartDropsSpacePrefix | routes/auth.js:19 | trimming the front removes exactly a whitespace prefix and keeps the rest of the string intact |
| Text.TrimEndDropsSpaceSuffix | routes/auth.js:23 | trimming the end removes exactly a whitespace suffix and keeps the start of the string intact |
| Text.ToLower | index.js:57 | lower-casing keeps the length and maps every character independently |
| Text.LowerOfLowercase | index.js:57 | a name without capital letters is its own lower-case form |
| Text.LowerKeepsNoSpace | routes/auth.js:65 | lower-casing neither creates nor removes whitespace |
| Text.LowerIdempotent | routes/auth.js:54 | lower-casing an already lower-cased email changes nothing |
| Text.IndexOf | routes/auth.js:25 | the position found holds the character and no earlier position does |
| Text.IndexOfFirst | middleware/auth.js:8 | any occurrence with no earlier occurrence is the position found |
| Text.Split | middleware/auth.js:8 | splitting yields at least one field, and no field contains the separator |
| Text.JoinSplit | middleware/auth.js:8 | joining the fields of a split rebuilds the header exactly |
| Text.SplitJoin | middleware/auth.js:8 | splitting a join of separator-free fields gives those fields back |
| Intake.FileFilter | index.js:56-64 | the filter accepts exactly the names whose lower-cased form ends with a listed extension; every refusal carries the UNSUPPORTED_FILE_TYPE code and the message listing the eight extensions |
| Intake.SupportedIffAudioType | index.js:37 | a name passes the allow-list exactly when the text after its last dot, lower-cased, is one of the eight audio types |
| Intake.SupportedIgnoresCase | index.js:57 | letter case in the file name never changes the filter's verdict |
| Provider.PollFrom | index.js:110-123 | from any tick the loop makes at most the remaining budget of status checks, and waits after every check except a terminal one |
| Provider.PollStopsAtFirstTerminal | index.js:116-121 | polling stops at the first completed or errored status, after one check per tick up to it and one wait fewer |
| Provider.PollExhausts | index.js:109-124 | with no terminal status the loop spends the whole budget and yields the placeholder text |
| Provider.PollLoop | index.js:108-124 | the loop makes at most 60 checks; with no terminal status in 60 ticks it returns "Processing..." after 60 waits; otherwise it returns the first terminal status's outcome |
| Provider.Transcribe | index.js:80-106 | an unset key fails before any request; a missing `upload_url` fails after one request and a missing job `id` after two, each with its own message; a failed upload or job-start request throws its own message; there are never more than 62 requests and no waits before polling |
| Provider.TranscribeCompletes | index.js:116-118 | a completed job yields its text, or "No speech detected" when that text is empty, after k+3 requests and k waits |
| Provider.TranscribeJobError | index.js:119-121 | a job reported as errored throws "Transcription failed: " followed by the provider's detail |
| Provider.TranscribePollTransportError | index.js:110-114 | a status check that fails at the transport level throws its own message at that check, after k+3 requests and k waits, and polling stops there |
| Provider.TranscribeTimesOut | index.js:108-124 | a job that never finishes returns the placeholder after 62 requests and 180000 ms of waiting |
| TranscriptionSchema.ParseStatus | models/Transcription.js:33-37 | exactly the three listed status strings are accepted, and each decodes to the status whose stored name it is |
| TranscriptionSchema.ParseStatusName | models/Transcription.js:35 | every status decodes back from its stored name, so the enumeration and the stored names are inverse |
| TranscriptionSchema.SchemaErrors | models/Transcription.js:4-45 | a draft has no validation errors exactly when it is acceptable, every reported error names a rule the draft breaks, and every rule the draft breaks is reported |
| TranscriptionSchema.Construct | models/Transcription.js:4-47 | a document is built exactly when the draft is acceptable; it is then valid, keeps the given fields with the file name trimmed, and gets these defaults: empty transcript, status completed, no error message, no processing time, both timestamps set to now |
| TranscriptionSchema.ToJson | models/Transcription.js:48-55 | the JSON form loses only the staging path and the version key: putting those two back restores the record |
| TranscriptionSchema.ToJsonHidesPath | models/Transcription.js:50-52 | records differing only in staging path or version key have the same JSON form |
| TranscriptionSchema.DefaultsOfMinimalDraft | models/Transcription.js:20-45 | a draft giving only the required fields is stored as completed with an empty transcript and no error or timing |
| Server.CleanupFile | index.js:68-77 | afterwards the path is not staged, every other staged file remains, and removing an absent file is not an error |
| Server.CleanupIdempotent | index.js:68-77 | cleaning the same path a second time changes nothing |
| Server.Receive | index.js:53-65 | the upload layer refuses a file part exactly when its extension is unsupported or it exceeds 50 MiB, with a 500 carrying the filter's or the size limit's message; otherwise it stages the file under the given path |
| Server.HandleUpload | index.js:131-161 | a missing or too-small file gets 400 with nothing changed; otherwise the staged file is removed whatever happens; a provider error becomes a 500 with its message; a transcript whose document passes validation, under a fresh id and with no save failure, is always answered 200; a 200 adds exactly one new valid, completed record owned by the caller, with the provider's transcript, and returns its JSON form; that record is exactly what the schema builds from the upload's original name, path, size and MIME type, the transcript, the id and the current time; once a transcript is in hand every failure (validation, duplicate id, save error) is a 500; every other answer leaves the records as they were |
| Server.UploadRoute | index.js:131-161 | a refused file part costs no provider request and changes nothing; a too-small file is answered 400 and left staged; every file that reaches the provider is removed from staging |
| Server.UploadNeverWritesFailed | index.js:131-161 | an upload never introduces a record with status failed |
| Server.UploadTimeoutSavesPlaceholder | index.js:108-155 | a job that never finishes is stored with status completed and transcript "Processing..." after 62 provider requests, and its file is removed |
| Server.HelloWorldTranscribed | index.js:108-124 | a job that reports processing twice, then completed with "hello world", yields that text after five requests and two waits |
| Server.TalkWavAccepted | index.js:57 | "talk.wav" passes the allow-list and needs no trimming |
| Server.UploadScenarioHelloWorld | index.js:131-161 | uploading a 2000-byte talk.wav with that job stores one record with "hello world", owned by the caller and created now; the staged file is removed |
| Server.UploadHeadsHistory | index.js:131-171 | after any upload answered 200, the new record heads the owner's history when every earlier record is older |
| Server.InsertNewestFirst | index.js:166 | inserting an id into a listing adds exactly that id and keeps every other |
| Server.InsertKeepsNewestFirst | index.js:166 | the insertion keeps the listing ordered by creation time, newest first |
| Server.InsertKeepsDistinct | index.js:166 | inserting an id not yet listed lists no id twice |
| Server.ListHistory | index.js:166 | the listing contains every record of the owner and only those, each once, newest first |
| Server.HistoryRoute | index.js:164-171 | a store failure answers 500 "Error fetching history"; otherwise 200 with the JSON forms of exactly the owner's records, newest first |
| Server.NewestListedFirst | index.js:166 | the owner's newest record comes first in the listing |
| Server.DeleteRoute | index.js:174-187 | 404 "Not found" exactly when the id is well formed but not the caller's, with nothing changed; 200 "Deleted" exactly when the caller owns it, which removes that record only and at most its own staged file; other owners' records are never touched; a malformed id or store failure answers 500 "Error deleting transcription" and changes nothing |
| Server.DeleteTwiceNotFound | index.js:177-178 | deleting the same record twice answers the second request 404 and changes nothing |
| Server.DeleteForeignLooksAbsent | index.js:177-178 | another owner's record is answered exactly as if it did not exist, and is left in place |
| Server.DeleteKeepsOthersHistory | index.js:177-181 | one owner's delete leaves every other owner's history listing valid exactly when it was before |
| Server.DeleteNeverWritesFailed | index.js:174-187 | deletion never introduces a record with status failed |
| AuthRoutes.EmailCheckMatchesPattern | routes/auth.js:25 | the executable email check accepts exactly the language of `^[^\s@]+@[^\s@]+\.[^\s@]+$` |
| AuthRoutes.BlankIffTrimEmpty | routes/auth.js:23 | an email counts as missing exactly when it is absent or its trim is empty |
| AuthRoutes.NameError | routes/auth.js:19-21 | the name finding is raised exactly for a supplied name whose trim is shorter than two characters |
| AuthRoutes.EmailError | routes/auth.js:23-27 | "required" exactly for a blank email, "invalid" exactly for a non-blank email outside the pattern, never both |
| AuthRoutes.PasswordError | routes/auth.js:29-33 | "required" exactly for a missing or empty password, "too short" exactly for a present one under six characters |
| AuthRoutes.Collect | routes/auth.js:17-35 | the findings list holds exactly the per-field findings, at most one per field, in the order name, email, password |
| AuthRoutes.ValidateAuthInput | routes/auth.js:16-36 | at most three findings, in field order, exactly the per-field findings; an empty list exactly when every field passes; never a name finding when no name is given |
| AuthRoutes.ValidatorNameRule | routes/auth.js:19-21 | the name finding appears exactly for a given name whose trim is shorter than two characters |
| AuthRoutes.ValidatorEmailRules | routes/auth.js:23-27 | "Email is required" exactly when the email's trim is empty, "invalid" exactly when a non-blank email fails the pattern, and never both |
| AuthRoutes.ValidatorPasswordRules | routes/auth.js:29-33 | "required" exactly for an absent or empty password, "too short" exactly for one with one to five characters |
| AuthRoutes.ValidatorAcceptsExactlyValid | routes/auth.js:16-36 | the validator reports nothing exactly when the name (if given) trims to two or more characters, the email is non-blank and matches the pattern, and the password has six or more characters |
| AuthRoutes.StoredFormIsLookupForm | routes/auth.js:54-65 | for a validated email the stored form (lower-cased, trimmed) equals the lookup form (lower-cased) |
| AuthRoutes.MessageIdentifiesFinding | routes/auth.js:20-32 | the five findings are reported with five different messages, so the messages of an answer identify its findings |
| AuthRoutes.SignupRoute | routes/auth.js:39-103 | invalid input gets 400 with the first finding's message and the full list of messages; a failed existence check gets 500; a registered email gets 400 "An account with this email already exists"; a valid body without a name for a new email gets 500; a duplicate-key save gets 400 and any other save failure 500; a successful save adds the lower-cased email and answers 201 with the trimmed name, unless token signing then fails, which answers 500 with the account kept; accounts are added only by a successful save |
| AuthRoutes.LoginRoute | routes/auth.js:106-166 | invalid input gets 400 with the first finding's message and the full list, never the name message; login succeeds exactly for valid input whose lookup succeeds, with a registered email, a matching password, a saved last login and a signed token, and returns the lower-cased email; a 401 "Invalid email or password" is given exactly for an unknown email or a wrong password; every other refusal is 500 "Login failed. Please try again." |
| AuthRoutes.CheckCredentials | routes/auth.js:120-164 | after validation: success exactly when the lookup succeeds, the email is registered, the password matches, the last login is saved and the token is signed; 401 exactly for an unknown email or a wrong password, both with the same message; every other outcome is 500 "Login failed. Please try again." |
| AuthRoutes.UniformCredentialFailure | routes/auth.js:120-136 | an unknown email is answered exactly like a known email with a wrong password |
| AuthRoutes.SignupThenLogin | routes/auth.js:39-166 | an account just created by signup is found by a login with the same email and password |
| TokenGate.ExtractToken | middleware/auth.js:7-12 | a token is found exactly when the header's second space-separated field exists and is non-empty, and the token is that field |
| TokenGate.BearerTokenExtracted | middleware/auth.js:8 | `<scheme> <token>` yields the token when neither part contains a space |
| TokenGate.TokenIsSecondField | middleware/auth.js:8 | fields after the token are ignored: `<scheme> <token> ...` yields the token |
| TokenGate.NoSecondFieldNoToken | middleware/auth.js:8-11 | a header that is only a scheme, or a scheme followed by two spaces, yields no token |
| TokenGate.Classify | middleware/auth.js:23-31 | a malformed token is a 401 "Invalid token" and an expired one a 401 "Token expired"; any other thrown error is a 500 "Token verification failed" |
| TokenGate.Authenticate | middleware/auth.js:5-32 | no token is 401 "Access token required"; the request passes exactly when the token verifies and names a known user, and then carries that user; a verified token naming no user is 401 "Invalid token - user not found"; a lookup that throws is classified by its error name like any other thrown error; every refusal is 401 or 500 |
| TokenGate.NoTokenIgnoresOracles | middleware/auth.js:10-14 | without a token the answer does not depend on token verification or user lookup |
| TokenGate.BearerOfKnownUserPasses | middleware/auth.js:5-22 | a `Bearer` token that verifies to a known user lets the request through with that user |

## Left out

- The framework plumbing is not modelled: CORS, JSON body parsing, environment
  loading, the database connection, `listen`, the health route and the
  catch-all 404 route. None of it decides anything the core routes do.
- The document store is a map from ids to records. Its indexes, query
  planning and concurrency are out of scope. Fresh record ids, the clock
  (`createdAt`) and store failures are parameters, and a reused id stands for
  the duplicate-key save error.
- HTTP calls to the provider are replaced by a `Script` of answers. The
  3-second `setTimeout` between polls is counted as `waits`, not timed. Status
  checks past the end of a script read as "processing".
- Staging file names built from the clock and a random number are a
  parameter (`stagingPath`). The upload layer's `files: 1` limit and the
  staging directory's creation are not modelled.
- JWT signing and verification, the User model, bcrypt password comparison,
  the user lookup and the last-login save are oracles: functions, flags or
  small outcome types passed in. Signing is modelled only as succeeding or
  throwing; the token's contents are not modelled.
- The `/auth/verify` and `/auth/profile` routes are not part of this model.
  They only echo or update the resolved user.
- `trim`, `toLowerCase` and the pattern's `\s` are modelled for ASCII
  letters and the whitespace characters space, TAB, LF, VT, FF and CR. JavaScript's
  Unicode cases and UTF-16 length counting are not modelled.
- Request-body values that are not strings (numbers, arrays, objects) are
  not modelled. An absent field is `None`.
- The framework's default error handler answers with an HTML page; the model
  records only its status (500) and the error's message.
- The exact text of the store's validation error is abstracted to one
  message; `TranscriptionSchema.SchemaErrors` records which rules failed.
- A failure of the file removal itself (the caught `unlinkSync` error) is not
  modelled. Cleanup always succeeds, which matches what the handler observes,
  since the error is only logged.
- Server.DeleteRoute: a store failure is modelled as leaving the state
  unchanged. The real handler could already have removed the staged file
  when the final delete call fails.
- Server.HistoryRoute: records with equal creation times may be listed in any
  order, since the store's tie order is not specified.
- Logging to the console is not modelled.
