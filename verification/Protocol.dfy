/** The web-service protocol as the client sees it: reply records, the calls the
    client issues, and the uniform "success flag or abort" check applied to replies. */
module Protocol {
  import opened Wrappers
  import opened Decimal

  /** An octet on the wire or in a file. */
  type byte = x: int | 0 <= x < 256

  /** A reply of the service. Every response type carries a success flag and an
      error message beside its payload; the remote server is a script of these. */
  datatype Response<+T> = Response(successful: bool, errorMessage: string, payload: T)

  /** One reply of a polling script, and whether the wait that follows it is
      interrupted (an `InterruptedException` thrown by the sleep between polls). */
  datatype Poll<+T> = Poll(reply: Response<T>, interrupted: bool)

  datatype ClientType = Jenkins

  /** The requested report format, passed through to the server unchanged. */
  datatype ReportType = ReportType(name: string)

  datatype ProjectSettings = ProjectSettings(
    projectId: Int64,
    projectName: string,
    presetId: Int64,
    associatedGroupId: string,
    scanConfigurationId: Int64)

  /** `sourceOrigin` is the origin enum's value text, `sourcePullingAction` the text
      the pulling-action enum renders as. */
  datatype SourceCodeSettings = SourceCodeSettings(sourceOrigin: string, sourcePullingAction: string)

  datatype ScanArgs = ScanArgs(projectSettings: ProjectSettings, sourceCodeSettings: SourceCodeSettings)

  /** Payload of a scan submission: the job handle polled for status. */
  datatype RunId = RunId(projectId: Int64, runId: string)

  datatype ProjectDisplayData = ProjectDisplayData(projectId: Int64, projectName: string)

  datatype Preset = Preset(id: Int64, name: string)

  datatype ConfigurationSet = ConfigurationSet(id: Int64, name: string)

  /** A remote call issued by the client, with the arguments it carries. */
  datatype Call =
    | Discovery(resolverUrl: string, clientType: ClientType, apiVersion: int)
    | LoginCall(user: string, pass: string, lcid: int)
    | ScanCall(session: string, args: ScanArgs)
    | StatusQuery(session: string, runId: string)
    | CreateReportCall(session: string, scanId: Int64, reportType: ReportType)
    | ReportStatusQuery(session: string, reportId: Int64)
    | ReportFetch(session: string, reportId: Int64)
    | ProjectsQuery(session: string)
    | PresetsQuery(session: string)
    | ConfigurationSetsQuery(session: string)
    | ProjectNameCheck(session: string, projectName: string, groupId: string)

  /** A result together with the remote calls made to reach it, in order. */
  datatype Outcome<+T> = Outcome(result: Result<T>, calls: seq<Call>)

  /** What it means for `r` to be the checked form of `reply`: the payload when the
      success flag is set, otherwise an abort whose message is `context` followed by
      the server's error message. */
  predicate Checked<T(==)>(context: string, reply: Response<T>, r: Result<T>) {
    && (r.Ok? <==> reply.successful)
    && (r.Ok? ==> r.value == reply.payload)
    && (r.Abort? ==> r.message == context + reply.errorMessage)
  }

  /** The one "success flag or abort" check every structured call goes through. */
  function Check<T(==)>(context: string, reply: Response<T>): (r: Result<T>)
    ensures Checked(context, reply, r)
  {
    if reply.successful then Ok(reply.payload) else Abort(context + reply.errorMessage)
  }

  /** Shared by both polling loops. */
  const InterruptedMessage := "Process interrupted while waiting for scan results"
}
