/** The registry of named clients (`MsGraphManager`): configurations in
    insertion order, each replaced by the client built from it on first use,
    and an optional default name. */
module GraphManager {
  import opened Wrappers
  import opened OrderedMap
  import opened Mime
  import opened GraphClient

  /** A registry slot: a configuration not yet used, or the client built from it. */
  datatype Entry = Configured(config: Config) | Built(client: Client)

  datatype Manager = Manager(options: Options, dispatches: OMap<Entry>, default: Option<string>)

  /** The default, when set, names a registered entry. */
  predicate Valid(m: Manager) {
    m.default.Some? ==> Has(m.dispatches, m.default.value)
  }

  function NewManager(options: Options): (m: Manager)
    ensures Valid(m) && m.dispatches == [] && m.default.None?
  {
    Manager(options, [], None)
  }

  /** `configure`: stores `config` under `name`, replacing whatever was there
      (a built client too), and makes `name` the default when asked. */
  function ConfigureDispatch(m: Manager, name: string, config: Config, isDefault: bool): (r: Manager)
    requires Valid(m)
    ensures Valid(r)
    ensures r.options == m.options
    ensures Get(r.dispatches, name) == Some(Configured(config))
    ensures forall k :: k != name ==> Get(r.dispatches, k) == Get(m.dispatches, k)
    ensures Has(m.dispatches, name) ==> Keys(r.dispatches) == Keys(m.dispatches)
    ensures !Has(m.dispatches, name) ==> Keys(r.dispatches) == Keys(m.dispatches) + [name]
    ensures r.default == if isDefault then Some(name) else m.default
  {
    var dispatches := Put(m.dispatches, name, Configured(config));
    assert Get(dispatches, name).Some?;
    m.(dispatches := dispatches, default := if isDefault then Some(name) else m.default)
  }

  /** The name `get` looks up: the one asked for, else the default, else the
      first registered name, else none. */
  function ResolveName(m: Manager, name: Option<string>): (r: Option<string>)
    requires Valid(m)
    ensures name.Some? ==> r == name
    ensures name.None? && m.default.Some? ==> r == m.default
    ensures name.None? && m.default.None? && |m.dispatches| > 0 ==> r == Some(m.dispatches[0].0)
    ensures r.None? <==> name.None? && |m.dispatches| == 0
    ensures name.None? && r.Some? ==> Has(m.dispatches, r.value)
  {
    match name
    case Some(n) => Some(n)
    case None =>
      match m.default
      case Some(d) => Some(d)
      case None => if |m.dispatches| > 0 then Some(m.dispatches[0].0) else None
  }

  /** The registry after a lookup and the client found, if any. */
  datatype Lookup = Lookup(manager: Manager, client: Option<Client>)

  /** `get`: the client under the resolved name, building and storing it on
      the first lookup of a configured name. */
  function GetClient(m: Manager, name: Option<string>): (r: Lookup)
    requires Valid(m)
    ensures Valid(r.manager)
    ensures r.manager.options == m.options && r.manager.default == m.default
    ensures Keys(r.manager.dispatches) == Keys(m.dispatches)
    ensures var n := ResolveName(m, name);
      && (r.client.None? <==> n.None? || !Has(m.dispatches, n.value))
      && (r.client.None? ==> r.manager == m)
      && (r.client.Some? ==>
            && Get(r.manager.dispatches, n.value) == Some(Built(r.client.value))
            && (forall k :: k != n.value ==> Get(r.manager.dispatches, k) == Get(m.dispatches, k))
            && match Get(m.dispatches, n.value).value
               case Built(c) => r.client.value == c && r.manager == m
               case Configured(config) => r.client.value == NewClient(n.value, config, m.options))
  {
    match ResolveName(m, name)
    case None => Lookup(m, None)
    case Some(n) =>
      var entry: Option<Entry> := Get(m.dispatches, n);
      if entry.None? then Lookup(m, None)
      else match entry.value
        case Built(c) => Lookup(m, Some(c))
        case Configured(config) =>
          var c := NewClient(n, config, m.options);
          Lookup(m.(dispatches := Put(m.dispatches, n, Built(c))), Some(c))
  }

  /** Looking the same name up again returns the client built the first time
      and changes nothing. */
  lemma GetClientMemoises(m: Manager, name: Option<string>)
    requires Valid(m) && GetClient(m, name).client.Some?
    ensures var first := GetClient(m, name);
      GetClient(first.manager, name) == first
  {
  }

  /** Why the manager's `sendEmail` raised. */
  datatype DispatchError =
    | NoClient                      // no client under the default name: a call on null
    | ClientError(cause: SendError)

  /** The registry after a send, what was logged and how the send ended. */
  datatype Dispatched = Dispatched(manager: Manager, log: seq<string>, outcome: Result<(), DispatchError>)

  /** `sendEmail`: sends through the default client. The client's state after
      the send (its token binding) stays in the registry, as the object would. */
  function SendViaDefault(m: Manager, env: Env, e: Email, save: bool, transport: Request -> int): (r: Dispatched)
    requires Valid(m)
    ensures Valid(r.manager)
    ensures var l := GetClient(m, None);
      && (l.client.None? ==> r == Dispatched(m, [], Failure(NoClient)))
      && (l.client.Some? ==>
            var s := GraphClient.SendEmail(l.client.value, env, e, save, transport);
            && r.log == s.log
            && (r.outcome.Success? <==> s.outcome.Success?)
            && (s.outcome.Failure? ==> r.outcome == Failure(ClientError(s.outcome.error)))
            && Get(r.manager.dispatches, ResolveName(m, None).value) == Some(Built(s.client))
            && (forall k :: k != ResolveName(m, None).value ==> Get(r.manager.dispatches, k) == Get(m.dispatches, k))
            && Keys(r.manager.dispatches) == Keys(m.dispatches))
    ensures r.manager.options == m.options && r.manager.default == m.default
  {
    var l := GetClient(m, None);
    match l.client
    case None => Dispatched(m, [], Failure(NoClient))
    case Some(c) =>
      var n := ResolveName(m, None).value;
      var s := GraphClient.SendEmail(c, env, e, save, transport);
      var after := l.manager.(dispatches := Put(l.manager.dispatches, n, Built(s.client)));
      var outcome := match s.outcome
        case Success(_) => Success(())
        case Failure(err) => Failure(ClientError(err));
      Dispatched(after, s.log, outcome)
  }

  /** The registry as the mutable object callers hold. */
  class MsGraphManager {
    var state: Manager

    ghost predicate Inv()
      reads this
    {
      Valid(state)
    }

    constructor(options: Options)
      ensures Inv() && state == NewManager(options)
    {
      state := NewManager(options);
    }

    /** `configure` returns the manager itself so calls can be chained. */
    method Configure(name: string, config: Config, isDefault: bool) returns (self: MsGraphManager)
      requires Inv()
      modifies this
      ensures Inv() && self == this
      ensures state == ConfigureDispatch(old(state), name, config, isDefault)
    {
      state := ConfigureDispatch(state, name, config, isDefault);
      self := this;
    }

    method Get(name: Option<string>) returns (c: Option<Client>)
      requires Inv()
      modifies this
      ensures Inv()
      ensures GetClient(old(state), name) == Lookup(state, c)
    {
      var l := GetClient(state, name);
      state := l.manager;
      c := l.client;
    }

    method SendEmail(env: Env, e: Email, save: bool, transport: Request -> int)
      returns (log: seq<string>, outcome: Result<(), DispatchError>)
      requires Inv()
      modifies this
      ensures Inv()
      ensures SendViaDefault(old(state), env, e, save, transport) == Dispatched(state, log, outcome)
    {
      var d := SendViaDefault(state, env, e, save, transport);
      state := d.manager;
      log := d.log;
      outcome := d.outcome;
    }
  }
}
