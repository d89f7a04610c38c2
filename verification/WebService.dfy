/** The client object: construction against a server URL (service discovery),
    the session it holds after `login`, and the session-scoped calls whose reply
    goes through the uniform success check. */
module WebService {
  import opened Wrappers
  import opened Protocol

  /** The server URL as parsed by `java.net.URL`: its full text and its path. */
  datatype ServerUrl = ServerUrl(text: string, path: string)

  /** What constructing the resolver stub at the resolver URL gives: the service
      could not be reached (`WebServiceException`), or it answered the discovery call
      with a reply whose payload is the concrete service URL. */
  datatype Resolver = Unreachable | Reachable(discovery: Response<string>)

  /** The client: the resolved service URL, fixed for its lifetime, and the session
      token (`None` is Java's `null`). */
  datatype Client = Client(serviceUrl: string, session: Option<string>)

  /** Everything `login` leaves behind: the client (whose session it rewrites even
      when it aborts), the result, and the calls made. */
  datatype LoginOutcome = LoginOutcome(client: Client, result: Result<()>, calls: seq<Call>)

  const ResolverPath := "/cxwebinterface/cxwsresolver.asmx"
  const ApiVersion := 1
  /** Locale sent with the credentials: English. */
  const Lcid := 1033

  const PathMessage := "Checkmarx server url must not contain path: "
  const NotFoundMessage := "Checkmarx server was not found on url: "
  const ResolveContext := "Failed to resolve Checkmarx webservice url: \n"
  const ScanContext := "Submission of sources for scan failed: \n"
  const ProjectsContext := "Error retrieving projects display data from server: "
  const PresetsContext := "Error retrieving presets from server: "
  const ConfigurationsContext := "Error retrieving configurations from server: "

  /** `isLoggedIn`. */
  predicate IsLoggedIn(c: Client) {
    c.session.Some?
  }

  /** The constructor. A URL with a path is refused before anything is contacted;
      otherwise the resolver is asked once for the service URL. */
  function Connect(url: ServerUrl, resolver: Resolver): (o: Outcome<Client>)
    ensures o.result.Ok? <==> url.path == [] && resolver.Reachable? && resolver.discovery.successful
    ensures url.path != [] ==> o == Outcome(Abort(PathMessage + url.text), [])
    ensures url.path == [] && resolver.Unreachable? ==> o == Outcome(Abort(NotFoundMessage + url.text), [])
    ensures url.path == [] && resolver.Reachable? ==>
      && o.calls == [Discovery(url.text + ResolverPath, Jenkins, ApiVersion)]
      && (o.result.Abort? ==> o.result.message == ResolveContext + resolver.discovery.errorMessage)
    ensures o.result.Ok? ==> o.result.value == Client(resolver.discovery.payload, None)
  {
    if |url.path| > 0 then
      Outcome(Abort(PathMessage + url.text), [])
    else
      match resolver
      case Unreachable =>
        Outcome(Abort(NotFoundMessage + url.text), [])
      case Reachable(discovery) =>
        var calls := [Discovery(url.text + ResolverPath, Jenkins, ApiVersion)];
        match Check(ResolveContext, discovery)
        case Ok(serviceUrl) => Outcome(Ok(Client(serviceUrl, None)), calls)
        case Abort(message) => Outcome(Abort(message), calls)
  }

  /** `login`. The session is cleared before the server is asked, so what it holds
      afterwards depends on this reply alone: the returned token on success (which
      the server may leave null), nothing on failure. */
  function Login(c: Client, user: string, pass: string, reply: Response<Option<string>>): (o: LoginOutcome)
    ensures o.calls == [LoginCall(user, pass, Lcid)]
    ensures o.client.serviceUrl == c.serviceUrl
    ensures o.result.Ok? <==> reply.successful
    ensures o.result.Abort? ==> o.result.message == reply.errorMessage
    ensures IsLoggedIn(o.client) <==> reply.successful && reply.payload.Some?
    ensures IsLoggedIn(o.client) ==> o.client.session == reply.payload
  {
    var cleared := c.(session := None);
    var calls := [LoginCall(user, pass, Lcid)];
    if !reply.successful then
      LoginOutcome(cleared, Abort(reply.errorMessage), calls)
    else
      LoginOutcome(cleared.(session := reply.payload), Ok(()), calls)
  }

  /** `scan`: the structured submission. */
  function Scan(c: Client, args: ScanArgs, reply: Response<RunId>): (o: Outcome<RunId>)
    requires IsLoggedIn(c)
    ensures o.calls == [ScanCall(c.session.value, args)]
    ensures Checked(ScanContext, reply, o.result)
  {
    Outcome(Check(ScanContext, reply), [ScanCall(c.session.value, args)])
  }

  /** `getProjectsDisplayData`. */
  function GetProjectsDisplayData(c: Client, reply: Response<seq<ProjectDisplayData>>)
    : (o: Outcome<seq<ProjectDisplayData>>)
    requires IsLoggedIn(c)
    ensures o.calls == [ProjectsQuery(c.session.value)]
    ensures Checked(ProjectsContext, reply, o.result)
  {
    Outcome(Check(ProjectsContext, reply), [ProjectsQuery(c.session.value)])
  }

  /** `getPresets`. */
  function GetPresets(c: Client, reply: Response<seq<Preset>>): (o: Outcome<seq<Preset>>)
    requires IsLoggedIn(c)
    ensures o.calls == [PresetsQuery(c.session.value)]
    ensures Checked(PresetsContext, reply, o.result)
  {
    Outcome(Check(PresetsContext, reply), [PresetsQuery(c.session.value)])
  }

  /** `getSourceEncodings`: source encodings are "configuration sets" to the server. */
  function GetSourceEncodings(c: Client, reply: Response<seq<ConfigurationSet>>)
    : (o: Outcome<seq<ConfigurationSet>>)
    requires IsLoggedIn(c)
    ensures o.calls == [ConfigurationSetsQuery(c.session.value)]
    ensures Checked(ConfigurationsContext, reply, o.result)
  {
    Outcome(Check(ConfigurationsContext, reply), [ConfigurationSetsQuery(c.session.value)])
  }

  /** The reply of a call the client hands back unchecked, with the calls made. */
  datatype NameCheck = NameCheck(reply: Response<()>, calls: seq<Call>)

  /** `validateProjectName`: the one session-scoped call whose reply is handed back
      without consulting its success flag; the group id is always empty. */
  function ValidateProjectName(c: Client, projectName: string, reply: Response<()>)
    : (o: NameCheck)
    requires IsLoggedIn(c)
    ensures o.reply == reply
    ensures o.calls == [ProjectNameCheck(c.session.value, projectName, "")]
  {
    NameCheck(reply, [ProjectNameCheck(c.session.value, projectName, "")])
  }

  /** A failed re-login does not leave the session of an earlier successful login behind. */
  lemma FailedReloginClearsSession(c: Client, user: string, pass: string,
                                   first: Response<Option<string>>, second: Response<Option<string>>)
    requires Login(c, user, pass, first).result.Ok?
    requires !second.successful
    ensures !IsLoggedIn(Login(Login(c, user, pass, first).client, user, pass, second).client)
  {
  }

  /** The session after `login` does not depend on the session before it. */
  lemma LoginIgnoresPriorSession(c1: Client, c2: Client, user: string, pass: string,
                                 reply: Response<Option<string>>)
    requires c1.serviceUrl == c2.serviceUrl
    ensures Login(c1, user, pass, reply) == Login(c2, user, pass, reply)
  {
  }
}
