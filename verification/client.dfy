/** One Microsoft Graph client (`MsGraphClient`): its configuration with
    defaults filled in, the lazily resolved token repository, the access token
    lookup, request preparation and the "send mail" call. The error logger is
    modelled by the list of messages each operation hands to it, in order. */
module GraphClient {
  import opened Wrappers
  import opened Php
  import opened OrderedMap
  import opened Json
  import opened Mime
  import opened MessageBuilder
  import Decimal

  type Config = OMap<Value>

  /** A token repository, known only by its identity. */
  datatype Repo = Repo(handle: nat)

  /** What turns the token key into a repository on first use: the
      constructor's own closure, which calls the configured
      `token_repo_factory`, or a closure passed as option `token_repo`. */
  datatype Resolver = FactoryLookup | ResolverCallable(id: nat)

  /** The token repository slot: a resolver until a resolution succeeds,
      the repository from then on. */
  datatype TokenBinding = Unresolved(resolver: Resolver) | Resolved(repo: Repo)

  /** Option `token_repo`: a repository instance or a closure producing one. */
  datatype TokenRepoOption = RepoInstance(repo: Repo) | RepoClosure(id: nat)

  /** Construction options shared by all clients of a manager (the
      `error_log` callback is the log itself and is not represented). */
  datatype Options = Options(tokenRepo: Option<TokenRepoOption>)

  /** The collaborators outside the model. `call(id, arg)` is what invoking
      callable `id` with `arg` returns, when that is a token repository;
      `token(repo, key, ttl)` is the repository's token record for `key`, if
      any. Passing a different `Env` to a later call models a world that has
      changed in between. */
  datatype Env = Env(
    call: (nat, Value) -> Option<Repo>,
    token: (Repo, Value, Value) -> Option<map<string, string>>)

  datatype Client = Client(name: string, config: Config, binding: TokenBinding)

  const DefaultTokenTtl := 120
  const DefaultTextSubtype := "html"

  function Defaults(name: string): (d: Config)
    ensures Keys(d) == ["token_key", "token_ttl", "text_subtype"]
  {
    [("token_key", Str(name)), ("token_ttl", Int(DefaultTokenTtl)), ("text_subtype", Str(DefaultTextSubtype))]
  }

  /** The constructor. The configuration is the caller's merged over the
      defaults; the token slot holds the `token_repo` option, or the
      factory-calling closure when that option is absent. */
  function NewClient(name: string, config: Config, options: Options): (c: Client)
    ensures c.name == name
    ensures DefaultsApplied(name, config, c.config)
    ensures options.tokenRepo.None? ==> c.binding == Unresolved(FactoryLookup)
    ensures options.tokenRepo.Some? && options.tokenRepo.value.RepoInstance? ==>
      c.binding == Resolved(options.tokenRepo.value.repo)
    ensures options.tokenRepo.Some? && options.tokenRepo.value.RepoClosure? ==>
      c.binding == Unresolved(ResolverCallable(options.tokenRepo.value.id))
  {
    MergeDefaults(name, config);
    var binding := match options.tokenRepo
      case None => Unresolved(FactoryLookup)
      case Some(RepoInstance(r)) => Resolved(r)
      case Some(RepoClosure(id)) => Unresolved(ResolverCallable(id));
    Client(name, Merge(Defaults(name), config), binding)
  }

  /** `merged` is `config` with `token_key` (the client name), `token_ttl`
      (120) and `text_subtype` ("html") filled in where the caller left them
      out: the caller's values win, every other key is kept, and the three
      default keys come first. */
  ghost predicate DefaultsApplied(name: string, config: Config, merged: Config) {
    && Get(merged, "token_key") == (if Has(config, "token_key") then Get(config, "token_key") else Some(Str(name)))
    && Get(merged, "token_ttl") == (if Has(config, "token_ttl") then Get(config, "token_ttl") else Some(Int(120)))
    && Get(merged, "text_subtype") == (if Has(config, "text_subtype") then Get(config, "text_subtype") else Some(Str("html")))
    && (forall k :: Has(config, k) ==> Get(merged, k) == Get(config, k))
    && (forall k :: Has(merged, k) <==> Has(config, k) || k in ["token_key", "token_ttl", "text_subtype"])
    && Keys(merged)[..3] == ["token_key", "token_ttl", "text_subtype"]
  }

  lemma MergeDefaults(name: string, config: Config)
    ensures DefaultsApplied(name, config, Merge(Defaults(name), config))
  {
    var d := Defaults(name);
    var merged := Merge(d, config);
    DefaultLookups(name);
    MergeHas(d, config);
    assert Keys(merged)[..3] == Keys(d);
  }

  lemma DefaultLookups(name: string)
    ensures Get(Defaults(name), "token_key") == Some(Str(name))
    ensures Get(Defaults(name), "token_ttl") == Some(Int(120))
    ensures Get(Defaults(name), "text_subtype") == Some(Str("html"))
  {
    var d := Defaults(name);
    assert d[0].0 == "token_key" && d[1].0 == "token_ttl" && d[2].0 == "text_subtype";
  }

  /** `$this->config[$k]`, null when the key is missing. */
  function Setting(c: Client, k: string): Value {
    Get(c.config, k).Coalesce(Null)
  }

  /** What a resolver yields for the client's token key. The constructor's
      closure calls `token_repo_factory` only when that setting is a callable
      (callables are always truthy) and yields nothing otherwise; a closure
      given as option is called directly. */
  function Resolve(c: Client, r: Resolver, env: Env): (repo: Option<Repo>)
    ensures r.ResolverCallable? ==> repo == env.call(r.id, Setting(c, "token_key"))
    ensures r.FactoryLookup? ==>
      var f := Setting(c, "token_repo_factory");
      && (f.Callable? ==> repo == env.call(f.id, Setting(c, "token_key")))
      && (!f.Callable? ==> repo.None?)
  {
    match r
    case FactoryLookup =>
      var factory := Setting(c, "token_repo_factory");
      if Truthy(factory) && IsCallable(factory) then env.call(factory.id, Setting(c, "token_key")) else None
    case ResolverCallable(id) => env.call(id, Setting(c, "token_key"))
  }

  /** The client after an operation, what it logged, and what it returned. */
  datatype Step<T> = Step(client: Client, log: seq<string>, value: T)

  function NoRepositoryMessage(name: string): string {
    "no token repository for MSGraphClient: " + name
  }

  /** `getTokenRepository`. */
  function TokenRepository(c: Client, env: Env): (s: Step<Option<Repo>>)
    ensures s.client.name == c.name && s.client.config == c.config
    ensures c.binding.Resolved? ==> s == Step(c, [], Some(c.binding.repo))
    ensures s.value.Some? ==> s.client.binding == Resolved(s.value.value) && s.log == []
    ensures s.value.None? ==> s.client == c && s.log == [NoRepositoryMessage(c.name)]
    ensures c.binding.Unresolved? ==> s.value == Resolve(c, c.binding.resolver, env)
  {
    match c.binding
    case Resolved(repo) => Step(c, [], Some(repo))
    case Unresolved(resolver) =>
      match Resolve(c, resolver, env)
      case Some(repo) => Step(c.(binding := Resolved(repo)), [], Some(repo))
      case None => Step(c, [NoRepositoryMessage(c.name)], None)
  }

  /** Once a resolution succeeds the repository is kept: later lookups return
      it whatever the outside world does, without logging. */
  lemma ResolutionIsCached(c: Client, env: Env, later: Env)
    requires TokenRepository(c, env).value.Some?
    ensures var s := TokenRepository(c, env);
      TokenRepository(s.client, later) == Step(s.client, [], s.value)
  {
  }

  /** A failed resolution is not remembered: the next lookup tries the same
      resolver again, exactly as the first one did. */
  lemma FailedResolutionIsRetried(c: Client, env: Env, later: Env)
    requires TokenRepository(c, env).value.None?
    ensures TokenRepository(TokenRepository(c, env).client, later) == TokenRepository(c, later)
  {
  }

  /** `getAccessToken`: the `access_token` entry of the repository's token
      for the configured key and lifetime. */
  function AccessToken(c: Client, env: Env): (s: Step<Option<string>>)
    ensures var t := TokenRepository(c, env);
      && s.client == t.client && s.log == t.log
      && (t.value.None? ==> s.value.None?)
      && (t.value.Some? ==>
            var record := env.token(t.value.value, Setting(c, "token_key"), Setting(c, "token_ttl"));
            s.value == if record.Some? && "access_token" in record.value then Some(record.value["access_token"]) else None)
  {
    var t := TokenRepository(c, env);
    match t.value
    case None => Step(t.client, t.log, None)
    case Some(repo) =>
      var record := env.token(repo, Setting(t.client, "token_key"), Setting(t.client, "token_ttl"));
      var token := match record
        case Some(entries) => if "access_token" in entries then Some(entries["access_token"]) else None
        case None => None;
      Step(t.client, t.log, token)
  }

  /** A Graph request as handed to the HTTP layer. */
  datatype Request = Request(
    verb: string,
    endpoint: string,
    accessToken: Option<string>,
    timeout: Option<Value>,
    body: Option<Json>)

  /** `prepareRequest`: a request carrying the access token, with a timeout
      only when the configured `timeout` is present and truthy. */
  function PrepareRequest(c: Client, env: Env, verb: string, endpoint: string): (s: Step<Request>)
    ensures var t := AccessToken(c, env);
      s.client == t.client && s.log == t.log && s.value.accessToken == t.value
    ensures s.value.verb == verb && s.value.endpoint == endpoint && s.value.body.None?
    ensures s.value.timeout.Some? <==> Has(c.config, "timeout") && Truthy(Get(c.config, "timeout").value)
    ensures s.value.timeout.Some? ==> Get(c.config, "timeout") == s.value.timeout
  {
    var t := AccessToken(c, env);
    var timeout := Setting(c, "timeout");
    Step(t.client, t.log, Request(verb, endpoint, t.value, if Truthy(timeout) then Some(timeout) else None, None))
  }

  const SendMailEndpoint := "/me/sendMail"
  const AcceptedStatus := 202

  /** Why `sendEmail` raised. */
  datatype SendError =
    | Untranslatable(cause: BuildError)  // the message builder rejected the e-mail
    | SendFailed(status: int)            // `GraphException('failed to send email')`

  function SendFailedMessage(status: int): string {
    "failed to send email with MS Graph: status=" + Decimal.IntToString(status)
  }

  /** The request body: the message object and the save flag. */
  function SendMailBody(m: GraphMessage, save: bool): Json {
    JObject([("message", MessageJson(m)), ("saveToSentItems", JBool(save))])
  }

  /** The client after a send, what it logged, the request it posted (if it
      got that far) and how the send ended. */
  datatype Sent = Sent(client: Client, log: seq<string>, posted: Option<Request>, outcome: Result<(), SendError>)

  /** `sendEmail`. `transport` is the status code the HTTP layer answers a
      posted request with. */
  function SendEmail(c: Client, env: Env, e: Email, save: bool, transport: Request -> int): (r: Sent)
    ensures BuildMessage(e).Failure? ==>
      r == Sent(c, [], None, Failure(Untranslatable(BuildMessage(e).error)))
    ensures BuildMessage(e).Success? ==>
      var prep := PrepareRequest(c, env, "POST", SendMailEndpoint);
      var req := prep.value.(body := Some(SendMailBody(BuildMessage(e).value, save)));
      && r.posted == Some(req)
      && r.client == prep.client
      && (r.outcome.Success? <==> transport(req) == 202)
      && (r.outcome.Failure? ==> r.outcome.error == SendFailed(transport(req)))
      && r.log == prep.log + (if transport(req) == 202 then [] else [SendFailedMessage(transport(req))])
  {
    match BuildMessage(e)
    case Failure(err) => Sent(c, [], None, Failure(Untranslatable(err)))
    case Success(message) =>
      var prep := PrepareRequest(c, env, "POST", SendMailEndpoint);
      var req := prep.value.(body := Some(SendMailBody(message, save)));
      var status := transport(req);
      if status != AcceptedStatus then
        Sent(prep.client, prep.log + [SendFailedMessage(status)], Some(req), Failure(SendFailed(status)))
      else
        Sent(prep.client, prep.log, Some(req), Success(()))
  }

  /** With the repository already bound, a send logs nothing when the answer
      is 202 and exactly one message naming the status otherwise. */
  lemma SendLogsOnlyFailures(c: Client, env: Env, e: Email, save: bool, transport: Request -> int)
    requires c.binding.Resolved? && BuildMessage(e).Success?
    ensures var r := SendEmail(c, env, e, save, transport);
      && r.posted.Some?
      && (r.outcome.Success? ==> r.log == [])
      && (r.outcome.Failure? ==> r.log == [SendFailedMessage(transport(r.posted.value))])
  {
  }
}
