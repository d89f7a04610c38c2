# CxWebService — a Dafny model of the Checkmarx Jenkins scan client

`CxWebService` is the client a Jenkins build uses to drive a remote Checkmarx
scan: it discovers the concrete web-service URL through a resolver, logs in to
obtain a session, submits the sources (as one structured SOAP call, or streamed
as a raw SOAP envelope around a base64 archive), polls the scan status until the
scan finishes, then asks for a report, polls until it is ready and writes it to a
file. Every remote reply carries a success flag and an error message; the client
aborts the build with a message whenever a reply is unsuccessful.

The model treats the server as a scripted oracle. A reply is a
`Response(successful, errorMessage, payload)`; a polling loop reads a finite
sequence of `Poll(reply, interrupted)` records, where `interrupted` says that the
sleep after that reply is interrupted. Every operation is a pure function (or, for
the byte-level framing, a method) returning its result together with the remote
calls it made, in order, so that "no resolver call", "one query per reply" and
"the report is fetched exactly once" are statements about that call trace.

Modules:

- `Wrappers`: `Option` (Java's null) and `Result` (`Ok` or `Abort(message)`).
- `Decimal`: Java's rendering of a `long` in string concatenation, and its inverse.
- `Utf8`: `getBytes("UTF-8")` as an encoder over Unicode scalar values, and a
  strict decoder that inverts it.
- `Protocol`: reply records, the remote calls, the scan arguments, and `Check`,
  the single "success flag or abort" wrapper every structured call uses.
- `WebService`: the constructor (`Connect`), `login`, `isLoggedIn`, `scan`, the
  three list getters and `validateProjectName`.
- `ScanProgress`: `getScanStatus` and the status poller `trackScanProgress`.
- `ScanReport`: the three-phase report pipeline `retrieveScanReport`.
- `Envelope`: the literal head and tail fragments of the streamed SOAP envelope and
  a reader that recovers the spliced-in fields.
- `StreamingScan`: the fixed-length streamed upload of `scanSreaming`.

The model follows the code in these points:

- A scan that ends in a failure state aborts with
  `"Scan " + stageName + " -  RunID: " + runId + " ScanID:" + scanId`; the stage
  message is only logged, not carried in the abort.
- `scanSreaming` catches every I/O, JAXB, SOAP and XML stream exception and returns
  null; the model returns `None` rather than a typed error, and says where the
  exception struck: before connecting (nothing sent), while sending (a prefix of the
  message sent) or while reading the reply (the whole message sent). It returns the
  decoded scan result without checking its success flag, unlike `scan`.
- `scanSreaming` does not assert that a session exists; with no session the head
  carries the text `null`.
- The session preconditions are Java `assert` statements, which are only checked
  when assertions are enabled. The model makes them preconditions (`requires
  IsLoggedIn(c)`): calling before login is a programming error.
- The poller reports the lines-of-code count once, in the "Source contains: N lines
  of code." message of the first QUEUED reply; that report is the `locReports` part
  of its outcome. Its other log lines, including the "LOC: " line logged on every
  UNZIPPING reply, are not modelled.

## Model

| member | source | states |
|---|---|---|
| `Protocol.Check` | src/main/java/com/checkmarx/jenkins/CxWebService.java:293-299 | the uniform wrapper: the result is the payload exactly when the success flag is set, otherwise an abort whose message is the call's context text followed by the server's error message |
| `WebService.Connect` | src/main/java/com/checkmarx/jenkins/CxWebService.java:55-90 | construction succeeds iff the URL has no path, the resolver is reachable and discovery succeeds; a URL with a path aborts with "must not contain path" and makes no call; an unreachable resolver aborts with "was not found on url"; a failed discovery aborts with the server's message after exactly one discovery call at `<url>/cxwebinterface/cxwsresolver.asmx` for client type Jenkins and API version 1; on success the service URL is the discovered one and no session is set |
| `WebService.Login` | src/main/java/com/checkmarx/jenkins/CxWebService.java:92-109 | one login call with the credentials and locale 1033; the result is Ok iff the reply is successful, otherwise the abort carries the server's message; afterwards the client is logged in iff the reply is successful with a non-null token, and then the session is that token; the service URL is unchanged |
| `WebService.FailedReloginClearsSession` | src/main/java/com/checkmarx/jenkins/CxWebService.java:92-109 | a failed login after a successful one leaves the client logged out |
| `WebService.LoginIgnoresPriorSession` | src/main/java/com/checkmarx/jenkins/CxWebService.java:94 | the session is cleared before the server is asked: the outcome of login does not depend on the session held before |
| `WebService.Scan` | src/main/java/com/checkmarx/jenkins/CxWebService.java:111-124 | requires a session; one scan call carrying the session and the arguments; the result is the checked reply with context "Submission of sources for scan failed" |
| `WebService.GetProjectsDisplayData` | src/main/java/com/checkmarx/jenkins/CxWebService.java:289-302 | requires a session; one query carrying the session; the checked reply with its own context text |
| `WebService.GetPresets` | src/main/java/com/checkmarx/jenkins/CxWebService.java:304-315 | requires a session; one query carrying the session; the checked reply with its own context text |
| `WebService.GetSourceEncodings` | src/main/java/com/checkmarx/jenkins/CxWebService.java:317-329 | requires a session; one configuration-set query carrying the session; the checked reply with its own context text |
| `WebService.ValidateProjectName` | src/main/java/com/checkmarx/jenkins/CxWebService.java:331-335 | requires a session; one call with the session, the name and an empty group id; the reply is handed back unchecked |
| `ScanProgress.GetScanStatus` | src/main/java/com/checkmarx/jenkins/CxWebService.java:127-138 | requires a session; one status query for the run id; the checked reply with context "Error communicating with Checkmarx server" |
| `ScanProgress.FailureMessage` | src/main/java/com/checkmarx/jenkins/CxWebService.java:190 | the abort message of a failed scan opens with "Scan " and the stage name and ends with the scan id's decimal text, which reads back to the scan id |
| `ScanProgress.FailureMessageDeterminesScanId` | src/main/java/com/checkmarx/jenkins/CxWebService.java:190 | for one stage name and run id, different scan ids give different abort messages |
| `ScanProgress.TrackFrom` | src/main/java/com/checkmarx/jenkins/CxWebService.java:146-205 | the loop from any point: every query is a status query for the same session and run id; a result comes from the first reply that stops polling (unsuccessful, terminal, or followed by an interrupted wait), after exactly one query per reply up to it, and is the outcome that reply determines; no result means no reply of the script stops polling and all were queried; the "Source contains: N lines of code." report is made at most once, and never once the flag says it was made |
| `ScanProgress.TrackScanProgress` | src/main/java/com/checkmarx/jenkins/CxWebService.java:142-209 | `trackScanProgress` from a fresh flag: status queries only, one per reply up to and including the first reply that stops polling, whose outcome is the result (scan id on FINISHED, the failure message on a terminal failure, the server's error on a failed query, the interruption message on an interrupted wait); with no stopping reply the script is used up without a result; at most one lines-of-code report |
| `ScanProgress.TrackStopsAtFirstStop` | src/main/java/com/checkmarx/jenkins/CxWebService.java:147-205 | with k the first reply that is unsuccessful, terminal or followed by an interrupted wait, the poller makes exactly k+1 queries and its result is the one reply k determines; in-progress replies before it only lead to another poll |
| `ScanProgress.TrackKeepsPolling` | src/main/java/com/checkmarx/jenkins/CxWebService.java:147-205 | while no reply stops polling, every reply is queried once and no result is reached |
| `ScanProgress.TrackFinished` | src/main/java/com/checkmarx/jenkins/CxWebService.java:182-184 | when the first stopping reply is a successful FINISHED snapshot, the result is that snapshot's scan id after exactly k+1 queries |
| `ScanProgress.TrackFailed` | src/main/java/com/checkmarx/jenkins/CxWebService.java:186-193 | when the first stopping reply is FAILED, DELETED, UNKNOWN or CANCELED, the poller aborts with "Scan <stage name> -  RunID: <run id> ScanID:<scan id>" of that snapshot |
| `ScanProgress.TrackQueryFailed` | src/main/java/com/checkmarx/jenkins/CxWebService.java:130-136 | an unsuccessful status query ends polling at once with "Error communicating with Checkmarx server", whatever status the reply carries |
| `ScanProgress.LocReportedAtFirstQueued` | src/main/java/com/checkmarx/jenkins/CxWebService.java:146-162 | the only lines-of-code count reported is the one of the first successful QUEUED snapshot |
| `ScanProgress.LocNotReportedWithoutQueued` | src/main/java/com/checkmarx/jenkins/CxWebService.java:146-193 | when none of the replies polling reaches (those before and including the first stopping reply) is a successful QUEUED snapshot, no lines-of-code count is reported, whatever QUEUED replies follow the stop |
| `ScanReport.AwaitReport` | src/main/java/com/checkmarx/jenkins/CxWebService.java:231-264 | the readiness loop makes only report-status queries for the one report id, never more than the script holds, and all of them when it reaches no result |
| `ScanReport.AwaitStopsAtFirstStop` | src/main/java/com/checkmarx/jenkins/CxWebService.java:231-264 | with k the first readiness reply that is unsuccessful, failed, ready or followed by an interrupted wait, exactly k+1 queries are made; the loop proceeds iff that reply is successful, not failed and ready (isFailed is read before isReady), otherwise it aborts with that reply's failure |
| `ScanReport.SaveReport` | src/main/java/com/checkmarx/jenkins/CxWebService.java:273-285 | a creatable file ends up holding exactly the fetched bytes, whatever it held before; otherwise the file is untouched and the abort names its absolute path |
| `ScanReport.RetrieveScanReport` | src/main/java/com/checkmarx/jenkins/CxWebService.java:211-287 | requires a session; the first call is the generation request; a failed request aborts with the server's message before any status poll; the file changes only on success, and then holds the fetched bytes |
| `ScanReport.FetchOnceAfterFirstReady` | src/main/java/com/checkmarx/jenkins/CxWebService.java:219-287 | when the first stopping readiness reply is ready, the calls are exactly the request, k+1 status polls and one fetch; the pipeline succeeds iff the fetch succeeds and the file can be created, and a failure of either carries its own message |
| `ScanReport.NoFetchAfterFailedWait` | src/main/java/com/checkmarx/jenkins/CxWebService.java:231-264 | when the first stopping readiness reply is not ready (failed query, isFailed, interruption), the report is never fetched, the abort is that reply's failure and the file is untouched |
| `ScanReport.NoFetchWhileGenerating` | src/main/java/com/checkmarx/jenkins/CxWebService.java:231-264 | while the report is neither ready nor failed, only status polls are made and nothing is fetched or written |
| `Envelope.ExtractInterleave` | src/main/java/com/checkmarx/jenkins/CxWebService.java:350-387 | fields without '<' spliced between literal fragments that each open with a tag are read back exactly |
| `Envelope.HeadFields` | src/main/java/com/checkmarx/jenkins/CxWebService.java:354-365 | the head's fields in source order: the session id (the text `null` without a session), the project id, project name, preset id, associated group id, scan configuration id and source origin; the three ids appear as decimal text that parses back to the id |
| `Envelope.Head` | src/main/java/com/checkmarx/jenkins/CxWebService.java:350-375 | the head carries the session id, project id, project name, preset id, associated group id, scan configuration id and source origin, in that order, each recovered from the text when the text fields hold no '<' |
| `Envelope.Tail` | src/main/java/com/checkmarx/jenkins/CxWebService.java:377-387 | the tail carries the source pulling action, recovered from the text when it holds no '<' |
| `Envelope.MessageCarriesEverything` | src/main/java/com/checkmarx/jenkins/CxWebService.java:350-387 | head, payload text and tail together read back as all the fields with the payload between them |
| `StreamingScan.Write` | src/main/java/com/checkmarx/jenkins/CxWebService.java:423-433 | in fixed-length streaming mode a write only appends, keeps the declared length, and never carries the connection past it |
| `StreamingScan.Transmit` | src/main/java/com/checkmarx/jenkins/CxWebService.java:428-434 | a write on a connection that an exception breaks after a given number of bytes only appends, and never beyond the break |
| `StreamingScan.SendFramed` | src/main/java/com/checkmarx/jenkins/CxWebService.java:422-434 | the declared length is head + tail + blob, no write exceeds it, and the bytes that reach the server are the prefix, up to the break, of head, then blob in buffers, then tail |
| `StreamingScan.Submit` | src/main/java/com/checkmarx/jenkins/CxWebService.java:416-490 | for any head, blob and tail: an exception before connecting sends nothing and returns null; one while sending leaves exactly the given number of bytes (at most the whole message) on the connection and returns null; one while reading the reply sends the whole message and returns null; otherwise the whole message is sent, filling the declared length, and the reply is returned |
| `StreamingScan.StreamScan` | src/main/java/com/checkmarx/jenkins/CxWebService.java:346-491 | the declared length is the UTF-8 length of the head plus the blob size plus the UTF-8 length of the tail; nothing is sent (no connection is opened) when the exception struck before connecting; otherwise what is sent is a prefix of the UTF-8 head, blob and UTF-8 tail, the whole of it unless the exception struck while sending, and then exactly as many bytes as were sent before it; the result is null exactly when an exception was caught, and otherwise the decoded reply as is |
| `StreamingScan.MessageRoundTrip` | src/main/java/com/checkmarx/jenkins/CxWebService.java:422-433 | for a base64 blob, the bytes sent decode as UTF-8 to head, blob text and tail, from which every field and the blob are recovered |
| `Utf8.Encode` | src/main/java/com/checkmarx/jenkins/CxWebService.java:422-433 | `getBytes("UTF-8")` takes one to four bytes per character, and exactly one per character for all-ASCII text |
| `Utf8.DecodeEncode` | src/main/java/com/checkmarx/jenkins/CxWebService.java:428 | the UTF-8 encoding of the envelope text decodes back to that text |
| `Utf8.EncodeConcat` | src/main/java/com/checkmarx/jenkins/CxWebService.java:422 | the UTF-8 length of head and tail can be computed separately: encoding a concatenation concatenates the encodings |
| `Decimal.ToString` | src/main/java/com/checkmarx/jenkins/CxWebService.java:357-361 | a `long` spliced into text becomes decimal digits without leading zeros, preceded by '-' exactly when it is negative |
| `Decimal.ParseToString` | src/main/java/com/checkmarx/jenkins/CxWebService.java:190 | the decimal text of a scan id in the failure message determines the scan id |

## Left out

- SOAP and JAXB stubs, the construction of the resolver and service proxies and the
  `HttpURLConnection` setup: replaced by oracle replies; the method name header and
  content type are not modelled.
- Parsing of URLs (`MalformedURLException` for the server URL or the discovered
  service URL): the server URL is taken already parsed into its text and path.
- Transport exceptions thrown by a structured call itself: every call yields a reply.
- The XML stream reader that skips to `ScanResponse` and unmarshals it: its outcome
  is the `reply` parameter of `StreamScan`, or the `WhileReading` failure.
- The JAXB context, marshaller and `SOAPMessage` built in `scanSreaming`: the marshalled
  message is never sent and the SOAP message is only printed to standard output, so
  only their exceptions are modelled, as the `BeforeConnecting` failure. The
  response-code print is left out.
- The 10 s and 5 s sleeps: timing is not modelled; an interrupted sleep is the
  `interrupted` flag of a scripted reply.
- Polling forever: a script is finite, and a script that ends before a terminal reply
  yields no result.
- Logging, except the poller's "Source contains: N lines of code." report; the "LOC: "
  line logged on every UNZIPPING reply and all other log lines are left out.
- File I/O for the report: the file is a record whose `creatable` flag decides whether
  `FileOutputStream` can be opened; a write failing part-way is not modelled.
- IOUtils.copyLarge's buffer size: a `chunkSize` parameter.
- StreamScan: requires the message length to be at most 2^31 - 1; the `(int)`
  narrowing of a larger length is not modelled.
- StreamScan: where a send breaks off is an oracle parameter; which exception it was
  and the stack trace printed are not modelled.
- XML escaping: the source splices fields in unescaped, so the read-back lemmas
  require the text fields to contain no '<'; well-formedness is not claimed.
- Null values other than the session id and the login token (a null stage name, a
  null project name) and status values outside the nine the poller switches on.
- The generated request and reply classes are not part of this model: scan arguments
  keep only the fields the envelope uses, list elements only an id and a name, and
  the report type is an uninterpreted name.
- Text is a sequence of Unicode scalar values, so the lone surrogates a Java string
  may hold (which `getBytes("UTF-8")` turns into '?') do not arise.
- The `isLoggedIn` predicate has no contract of its own; `Login` states when it holds.
