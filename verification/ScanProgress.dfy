/** `trackScanProgress`: polling the status of a submitted scan until it reaches a
    terminal state, over a scripted sequence of status replies. */
module ScanProgress {
  import opened Wrappers
  import opened Decimal
  import opened Protocol
  import opened WebService

  datatype ScanStatus =
    | WaitingToProcess | Queued | Unzipping | Working
    | Finished
    | Failed | Deleted | Unknown | Canceled
  {
    predicate InProgress() {
      WaitingToProcess? || Queued? || Unzipping? || Working?
    }

    predicate IsTerminalFailure() {
      Failed? || Deleted? || Unknown? || Canceled?
    }

    predicate IsTerminal() {
      Finished? || IsTerminalFailure()
    }
  }

  /** The parts of a status reply the poller acts on; the queue position, stage
      percentages and step texts are only logged. */
  datatype StatusSnapshot = StatusSnapshot(
    status: ScanStatus,
    runId: string,
    scanId: Int64,
    stageName: string,
    loc: Int64)

  /** What polling produced: `None` as result when the script ended while the scan
      was still in progress (the client would keep polling); the status queries
      made; the counts given in the "Source contains: N lines of code." report. */
  datatype Tracking = Tracking(result: Option<Result<Int64>>, calls: seq<Call>, locReports: seq<Int64>)

  const ScanStatusContext := "Error communicating with Checkmarx server: \n"

  /** The abort message of a scan that ended in a failure state: it opens with the
      stage name and closes with the scan id, which reads back from the end. */
  function FailureMessage(s: StatusSnapshot): (m: string)
    ensures 5 + |s.stageName| <= |m| && m[..5 + |s.stageName|] == "Scan " + s.stageName
    ensures |ToString(s.scanId)| <= |m| && Parse(m[|m| - |ToString(s.scanId)|..]) == Some(s.scanId)
  {
    var id := ToString(s.scanId);
    var m := "Scan " + s.stageName + " -  RunID: " + s.runId + " ScanID:" + id;
    ParseToString(s.scanId);
    assert m[|m| - |id|..] == id;
    assert m[..5 + |s.stageName|] == "Scan " + s.stageName;
    m
  }

  /** For a given stage and run, the failure message tells scans apart. */
  lemma FailureMessageDeterminesScanId(s: StatusSnapshot, t: StatusSnapshot)
    requires s.stageName == t.stageName && s.runId == t.runId
    requires FailureMessage(s) == FailureMessage(t)
    ensures s.scanId == t.scanId
  {
    var p := "Scan " + s.stageName + " -  RunID: " + s.runId + " ScanID:";
    assert FailureMessage(s)[|p|..] == ToString(s.scanId);
    assert FailureMessage(t)[|p|..] == ToString(t.scanId);
    ToStringInjective(s.scanId, t.scanId);
  }

  /** `getScanStatus`: one status query through the uniform success check. */
  function GetScanStatus(c: Client, runId: string, reply: Response<StatusSnapshot>): (o: Outcome<StatusSnapshot>)
    requires IsLoggedIn(c)
    ensures o.calls == [StatusQuery(c.session.value, runId)]
    ensures Checked(ScanStatusContext, reply, o.result)
  {
    Outcome(Check(ScanStatusContext, reply), [StatusQuery(c.session.value, runId)])
  }

  /** The polling loop from a given point of the script; `locReported` says whether
      the lines-of-code count has already been reported. */
  function TrackFrom(c: Client, runId: string, script: seq<Poll<StatusSnapshot>>, locReported: bool): (t: Tracking)
    requires IsLoggedIn(c)
    ensures |t.calls| <= |script|
    ensures forall i :: 0 <= i < |t.calls| ==> t.calls[i] == StatusQuery(c.session.value, runId)
    ensures t.result.None? ==> |t.calls| == |script|
    ensures t.result.Some? ==> 1 <= |t.calls| && IsFirstScanStop(script, |t.calls| - 1)
                               && t.result.value == StopResult(script[|t.calls| - 1])
    ensures t.result.None? ==> forall j :: 0 <= j < |script| ==> !StopsPolling(script[j])
    ensures |t.locReports| <= 1
    ensures locReported ==> t.locReports == []
    decreases |script|
  {
    if script == [] then
      Tracking(None, [], [])
    else
      var poll := script[0];
      var query := GetScanStatus(c, runId, poll.reply);
      match query.result
      case Abort(message) =>
        Tracking(Some(Abort(message)), query.calls, [])
      case Ok(s) =>
        if s.status.Finished? then
          Tracking(Some(Ok(s.scanId)), query.calls, [])
        else if s.status.IsTerminalFailure() then
          Tracking(Some(Abort(FailureMessage(s))), query.calls, [])
        else
          var report := if s.status.Queued? && !locReported then [s.loc] else [];
          if poll.interrupted then
            Tracking(Some(Abort(InterruptedMessage)), query.calls, report)
          else
            var rest := TrackFrom(c, runId, script[1..], locReported || s.status.Queued?);
            StopsShift(script);
            Tracking(rest.result, query.calls + rest.calls, report + rest.locReports)
  }

  /** `trackScanProgress`: one status query per reply up to the first reply that
      stops polling, whose result is the one that reply determines; the script runs
      out only when no reply stops polling. */
  function TrackScanProgress(c: Client, runId: string, script: seq<Poll<StatusSnapshot>>): (t: Tracking)
    requires IsLoggedIn(c)
    ensures forall i :: 0 <= i < |t.calls| ==> t.calls[i] == StatusQuery(c.session.value, runId)
    ensures t.result.Some? ==> 1 <= |t.calls| && IsFirstScanStop(script, |t.calls| - 1)
                               && t.result.value == StopResult(script[|t.calls| - 1])
    ensures t.result.None? ==> |t.calls| == |script|
                               && forall j :: 0 <= j < |script| ==> !StopsPolling(script[j])
    ensures |t.locReports| <= 1
  {
    TrackFrom(c, runId, script, false)
  }

  // Reference description of the loop, one reply at a time.

  /** A reply after which no further status query is made. */
  predicate StopsPolling(p: Poll<StatusSnapshot>) {
    !p.reply.successful || p.reply.payload.status.IsTerminal() || p.interrupted
  }

  /** `k` is the first reply of the script that stops polling. */
  ghost predicate IsFirstScanStop(script: seq<Poll<StatusSnapshot>>, k: int) {
    && 0 <= k < |script|
    && StopsPolling(script[k])
    && forall j :: 0 <= j < k ==> !StopsPolling(script[j])
  }

  /** Polling facts about the rest of a script carry over to the whole script when
      its first reply does not stop polling. */
  lemma StopsShift(script: seq<Poll<StatusSnapshot>>)
    requires |script| > 0 && !StopsPolling(script[0])
    ensures forall k :: IsFirstScanStop(script[1..], k) ==> IsFirstScanStop(script, k + 1)
    ensures (forall j :: 0 <= j < |script[1..]| ==> !StopsPolling(script[1..][j]))
            ==> forall j :: 0 <= j < |script| ==> !StopsPolling(script[j])
  {
    forall j | 1 <= j < |script|
      ensures script[j] == script[1..][j - 1]
    {
    }
  }

  /** The result a stopping reply yields. A failed query wins over whatever status
      the reply carries; an interrupted wait matters only after an in-progress status. */
  function StopResult(p: Poll<StatusSnapshot>): Result<Int64>
    requires StopsPolling(p)
  {
    if !p.reply.successful then Abort(ScanStatusContext + p.reply.errorMessage)
    else if p.reply.payload.status.Finished? then Ok(p.reply.payload.scanId)
    else if p.reply.payload.status.IsTerminalFailure() then Abort(FailureMessage(p.reply.payload))
    else Abort(InterruptedMessage)
  }

  /** Polling makes exactly one query per reply up to and including the first
      stopping one, and its result is the one that reply determines: a corollary of
      the contract of `TrackFrom`, since a script has only one first stop. */
  lemma TrackStopsAtFirstStop(c: Client, runId: string, script: seq<Poll<StatusSnapshot>>,
                              locReported: bool, k: int)
    requires IsLoggedIn(c)
    requires IsFirstScanStop(script, k)
    ensures TrackFrom(c, runId, script, locReported).result == Some(StopResult(script[k]))
    ensures |TrackFrom(c, runId, script, locReported).calls| == k + 1
  {
  }

  /** While no reply stops polling, every reply is queried and no result is reached. */
  lemma TrackKeepsPolling(c: Client, runId: string, script: seq<Poll<StatusSnapshot>>,
                          locReported: bool)
    requires IsLoggedIn(c)
    requires forall j :: 0 <= j < |script| ==> !StopsPolling(script[j])
    ensures TrackFrom(c, runId, script, locReported).result.None?
    ensures |TrackFrom(c, runId, script, locReported).calls| == |script|
  {
  }

  /** A scan whose first terminal status is FINISHED yields that snapshot's scan id. */
  lemma TrackFinished(c: Client, runId: string, script: seq<Poll<StatusSnapshot>>, k: int)
    requires IsLoggedIn(c)
    requires IsFirstScanStop(script, k)
    requires script[k].reply.successful && script[k].reply.payload.status.Finished?
    ensures TrackScanProgress(c, runId, script).result == Some(Ok(script[k].reply.payload.scanId))
    ensures |TrackScanProgress(c, runId, script).calls| == k + 1
  {
    TrackStopsAtFirstStop(c, runId, script, false, k);
  }

  /** A scan whose first terminal status is a failure aborts with the stage name,
      run id and scan id of that snapshot. */
  lemma TrackFailed(c: Client, runId: string, script: seq<Poll<StatusSnapshot>>, k: int)
    requires IsLoggedIn(c)
    requires IsFirstScanStop(script, k)
    requires script[k].reply.successful && script[k].reply.payload.status.IsTerminalFailure()
    ensures TrackScanProgress(c, runId, script).result == Some(Abort(FailureMessage(script[k].reply.payload)))
    ensures |TrackScanProgress(c, runId, script).calls| == k + 1
  {
    TrackStopsAtFirstStop(c, runId, script, false, k);
  }

  /** An unsuccessful status query ends polling at once, whatever status it carries. */
  lemma TrackQueryFailed(c: Client, runId: string, script: seq<Poll<StatusSnapshot>>, k: int)
    requires IsLoggedIn(c)
    requires 0 <= k < |script| && !script[k].reply.successful
    requires forall j :: 0 <= j < k ==> !StopsPolling(script[j])
    ensures TrackScanProgress(c, runId, script).result == Some(Abort(ScanStatusContext + script[k].reply.errorMessage))
    ensures |TrackScanProgress(c, runId, script).calls| == k + 1
  {
    TrackStopsAtFirstStop(c, runId, script, false, k);
  }

  /** The lines-of-code count is the one of the first QUEUED snapshot. */
  lemma {:induction false} LocReportedAtFirstQueued(c: Client, runId: string,
                                                    script: seq<Poll<StatusSnapshot>>, k: int)
    requires IsLoggedIn(c)
    requires 0 <= k < |script|
    requires script[k].reply.successful && script[k].reply.payload.status.Queued?
    requires forall j :: 0 <= j < k ==> !StopsPolling(script[j]) && !script[j].reply.payload.status.Queued?
    ensures TrackFrom(c, runId, script, false).locReports == [script[k].reply.payload.loc]
    decreases k
  {
    if k > 0 {
      assert !StopsPolling(script[0]);
      assert forall j :: 0 <= j < k - 1 ==>
        !StopsPolling(script[1..][j]) && !script[1..][j].reply.payload.status.Queued? by {
        forall j | 0 <= j < k - 1
          ensures !StopsPolling(script[1..][j]) && !script[1..][j].reply.payload.status.Queued?
        {
          assert script[1..][j] == script[j + 1];
        }
      }
      LocReportedAtFirstQueued(c, runId, script[1..], k - 1);
    }
  }

  /** Reply `j` is one that polling reaches: no reply before it stops polling. */
  ghost predicate Polled(script: seq<Poll<StatusSnapshot>>, j: int) {
    && 0 <= j < |script|
    && forall i :: 0 <= i < j ==> !StopsPolling(script[i])
  }

  /** Without a successful QUEUED reply among those polling reaches, nothing is
      reported; QUEUED replies after the first stop are never looked at. */
  lemma {:induction false} LocNotReportedWithoutQueued(c: Client, runId: string,
                                                       script: seq<Poll<StatusSnapshot>>, locReported: bool)
    requires IsLoggedIn(c)
    requires forall j :: Polled(script, j) && script[j].reply.successful ==> !script[j].reply.payload.status.Queued?
    ensures TrackFrom(c, runId, script, locReported).locReports == []
    decreases |script|
  {
    if script != [] {
      assert Polled(script, 0);
      if !StopsPolling(script[0]) {
        forall j | Polled(script[1..], j) && script[1..][j].reply.successful
          ensures !script[1..][j].reply.payload.status.Queued?
        {
          assert script[1..][j] == script[j + 1];
          assert Polled(script, j + 1) by {
            forall i | 0 <= i < j + 1
              ensures !StopsPolling(script[i])
            {
              if i > 0 {
                assert script[i] == script[1..][i - 1];
              }
            }
          }
        }
        LocNotReportedWithoutQueued(c, runId, script[1..], locReported || script[0].reply.payload.status.Queued?);
      }
    }
  }
}
