/** `retrieveScanReport`: request a report for a finished scan, poll until it is
    ready, then fetch it and write it to the report file. */
module ScanReport {
  import opened Wrappers
  import opened Decimal
  import opened Protocol
  import opened WebService

  datatype ReportStatus = ReportStatus(isReady: bool, isFailed: bool)

  /** The report side of the server script: the reply to the generation request
      (its payload is the report id), the readiness replies, the reply to the fetch. */
  datatype ReportServer = ReportServer(
    create: Response<Int64>,
    statuses: seq<Poll<ReportStatus>>,
    fetch: Response<seq<byte>>)

  /** The destination file: its absolute path, whether it can be created for
      writing, and its contents. */
  datatype ReportFile = ReportFile(absolutePath: string, creatable: bool, contents: seq<byte>)

  /** What the pipeline produced: `None` as result when the script ended while the
      report was still being generated; the calls made; the file afterwards. */
  datatype Retrieval = Retrieval(result: Option<Result<()>>, calls: seq<Call>, file: ReportFile)

  /** What the readiness loop produced: `Some(Ok(()))` once the report is ready,
      `None` when the script ended while it was still being generated; the
      status queries made. */
  datatype Waiting = Waiting(result: Option<Result<()>>, calls: seq<Call>)

  /** What writing the report file produced: the outcome and the file afterwards. */
  datatype Saved = Saved(result: Result<()>, file: ReportFile)

  const CreateContext := "Error requesting scan report generation: "
  const ReportStatusContext := "Error retrieving scan report status: "
  const GenerationFailedMessage := "Failed to create scan report"
  const FetchContext := "Error retrieving scan report: "
  const FileMessage := "Can't create report file: "

  /** `n` readiness queries for one report. */
  function StatusQueries(session: string, reportId: Int64, n: nat): (q: seq<Call>)
    ensures |q| == n
  {
    seq(n, _ => ReportStatusQuery(session, reportId))
  }

  /** The readiness loop: `Some(Ok(()))` once the report is ready. */
  function AwaitReport(session: string, reportId: Int64, statuses: seq<Poll<ReportStatus>>)
    : (w: Waiting)
    ensures |w.calls| <= |statuses|
    ensures w.calls == StatusQueries(session, reportId, |w.calls|)
    ensures w.result.None? ==> |w.calls| == |statuses|
    decreases |statuses|
  {
    if statuses == [] then
      Waiting(None, [])
    else
      var poll := statuses[0];
      var query := [ReportStatusQuery(session, reportId)];
      match Check(ReportStatusContext, poll.reply)
      case Abort(message) =>
        Waiting(Some(Abort(message)), query)
      case Ok(status) =>
        if status.isFailed then
          Waiting(Some(Abort(GenerationFailedMessage)), query)
        else if status.isReady then
          Waiting(Some(Ok(())), query)
        else if poll.interrupted then
          Waiting(Some(Abort(InterruptedMessage)), query)
        else
          var rest := AwaitReport(session, reportId, statuses[1..]);
          Waiting(rest.result, query + rest.calls)
  }

  /** Writing the fetched bytes: the file then holds exactly those bytes, whatever it
      held before; a file that cannot be created is left as it was. */
  function SaveReport(file: ReportFile, bytes: seq<byte>): (s: Saved)
    ensures s.result.Ok? <==> file.creatable
    ensures s.result.Ok? ==> s.file == file.(contents := bytes)
    ensures s.result.Abort? ==> s.result.message == FileMessage + file.absolutePath && s.file == file
  {
    if file.creatable then Saved(Ok(()), file.(contents := bytes))
    else Saved(Abort(FileMessage + file.absolutePath), file)
  }

  /** `retrieveScanReport`. */
  function RetrieveScanReport(c: Client, scanId: Int64, reportType: ReportType,
                              server: ReportServer, file: ReportFile): (r: Retrieval)
    requires IsLoggedIn(c)
    ensures |r.calls| >= 1 && r.calls[0] == CreateReportCall(c.session.value, scanId, reportType)
    ensures !server.create.successful ==>
      r == Retrieval(Some(Abort(CreateContext + server.create.errorMessage)), r.calls[..1], file)
    ensures r.result == Some(Ok(())) ==> r.file == file.(contents := server.fetch.payload)
    ensures r.result != Some(Ok(())) ==> r.file == file
  {
    var session := c.session.value;
    var create := [CreateReportCall(session, scanId, reportType)];
    match Check(CreateContext, server.create)
    case Abort(message) =>
      Retrieval(Some(Abort(message)), create, file)
    case Ok(reportId) =>
      var wait := AwaitReport(session, reportId, server.statuses);
      var polled := create + wait.calls;
      if wait.result != Some(Ok(())) then
        Retrieval(wait.result, polled, file)
      else
        var fetched := polled + [ReportFetch(session, reportId)];
        match Check(FetchContext, server.fetch)
        case Abort(message) =>
          Retrieval(Some(Abort(message)), fetched, file)
        case Ok(bytes) =>
          var saved := SaveReport(file, bytes);
          Retrieval(Some(saved.result), fetched, saved.file)
  }

  // Reference description of the readiness loop, one reply at a time.

  /** A readiness reply after which no further query is made. */
  predicate StopsWaiting(p: Poll<ReportStatus>) {
    !p.reply.successful || p.reply.payload.isFailed || p.reply.payload.isReady || p.interrupted
  }

  /** A reply that lets the pipeline go on to fetch the report: successful, not
      failed, ready. `isFailed` is read first, so a reply with both flags is a failure. */
  predicate ReadyToFetch(p: Poll<ReportStatus>) {
    p.reply.successful && !p.reply.payload.isFailed && p.reply.payload.isReady
  }

  ghost predicate IsFirstReportStop(statuses: seq<Poll<ReportStatus>>, k: int) {
    && 0 <= k < |statuses|
    && StopsWaiting(statuses[k])
    && forall j :: 0 <= j < k ==> !StopsWaiting(statuses[j])
  }

  /** The abort a stopping reply that is not ready-to-fetch yields. */
  function WaitFailure(p: Poll<ReportStatus>): string
    requires StopsWaiting(p) && !ReadyToFetch(p)
  {
    if !p.reply.successful then ReportStatusContext + p.reply.errorMessage
    else if p.reply.payload.isFailed then GenerationFailedMessage
    else InterruptedMessage
  }

  lemma {:induction false} AwaitStopsAtFirstStop(session: string, reportId: Int64,
                                                 statuses: seq<Poll<ReportStatus>>, k: int)
    requires IsFirstReportStop(statuses, k)
    ensures |AwaitReport(session, reportId, statuses).calls| == k + 1
    ensures ReadyToFetch(statuses[k]) ==> AwaitReport(session, reportId, statuses).result == Some(Ok(()))
    ensures !ReadyToFetch(statuses[k]) ==>
      AwaitReport(session, reportId, statuses).result == Some(Abort(WaitFailure(statuses[k])))
    decreases k
  {
    if k > 0 {
      assert !StopsWaiting(statuses[0]);
      assert IsFirstReportStop(statuses[1..], k - 1) by {
        forall j | 0 <= j < k - 1
          ensures !StopsWaiting(statuses[1..][j])
        {
          assert statuses[1..][j] == statuses[j + 1];
        }
      }
      AwaitStopsAtFirstStop(session, reportId, statuses[1..], k - 1);
    }
  }

  lemma {:induction false} AwaitKeepsPolling(session: string, reportId: Int64,
                                             statuses: seq<Poll<ReportStatus>>)
    requires forall j :: 0 <= j < |statuses| ==> !StopsWaiting(statuses[j])
    ensures AwaitReport(session, reportId, statuses).result.None?
    decreases |statuses|
  {
    if statuses != [] {
      assert !StopsWaiting(statuses[0]);
      assert forall j :: 0 <= j < |statuses[1..]| ==> !StopsWaiting(statuses[1..][j]) by {
        forall j | 0 <= j < |statuses[1..]|
          ensures !StopsWaiting(statuses[1..][j])
        {
          assert statuses[1..][j] == statuses[j + 1];
        }
      }
      AwaitKeepsPolling(session, reportId, statuses[1..]);
    }
  }

  /** When the first stopping readiness reply (the k-th) is ready-to-fetch, the
      report is fetched exactly once, right after it; the pipeline then succeeds
      exactly when the fetch and the write do, and the file ends up holding the
      fetched bytes. */
  lemma FetchOnceAfterFirstReady(c: Client, scanId: Int64, reportType: ReportType,
                                 server: ReportServer, file: ReportFile, k: int)
    requires IsLoggedIn(c)
    requires server.create.successful
    requires IsFirstReportStop(server.statuses, k) && ReadyToFetch(server.statuses[k])
    ensures var r := RetrieveScanReport(c, scanId, reportType, server, file);
      && r.calls == [CreateReportCall(c.session.value, scanId, reportType)]
                    + StatusQueries(c.session.value, server.create.payload, k + 1)
                    + [ReportFetch(c.session.value, server.create.payload)]
      && (r.result == Some(Ok(())) <==> server.fetch.successful && file.creatable)
      && (!server.fetch.successful ==> r.result == Some(Abort(FetchContext + server.fetch.errorMessage)))
      && (server.fetch.successful && !file.creatable ==> r.result == Some(Abort(FileMessage + file.absolutePath)))
      && (r.result == Some(Ok(())) ==> r.file.contents == server.fetch.payload)
  {
    AwaitStopsAtFirstStop(c.session.value, server.create.payload, server.statuses, k);
  }

  /** When the first stopping readiness reply is not ready-to-fetch (a failed query,
      `isFailed`, or an interrupted wait), the pipeline aborts with that reply's
      failure, the report is never fetched, and the file is untouched. */
  lemma NoFetchAfterFailedWait(c: Client, scanId: Int64, reportType: ReportType,
                               server: ReportServer, file: ReportFile, k: int)
    requires IsLoggedIn(c)
    requires server.create.successful
    requires IsFirstReportStop(server.statuses, k) && !ReadyToFetch(server.statuses[k])
    ensures var r := RetrieveScanReport(c, scanId, reportType, server, file);
      && r.calls == [CreateReportCall(c.session.value, scanId, reportType)]
                    + StatusQueries(c.session.value, server.create.payload, k + 1)
      && r.result == Some(Abort(WaitFailure(server.statuses[k])))
      && r.file == file
  {
    AwaitStopsAtFirstStop(c.session.value, server.create.payload, server.statuses, k);
  }

  /** While the report is neither ready nor failed, nothing is fetched. */
  lemma NoFetchWhileGenerating(c: Client, scanId: Int64, reportType: ReportType,
                               server: ReportServer, file: ReportFile)
    requires IsLoggedIn(c)
    requires server.create.successful
    requires forall j :: 0 <= j < |server.statuses| ==> !StopsWaiting(server.statuses[j])
    ensures var r := RetrieveScanReport(c, scanId, reportType, server, file);
      && r.result.None?
      && r.calls == [CreateReportCall(c.session.value, scanId, reportType)]
                    + StatusQueries(c.session.value, server.create.payload, |server.statuses|)
      && r.file == file
  {
    AwaitKeepsPolling(c.session.value, server.create.payload, server.statuses);
  }
}
