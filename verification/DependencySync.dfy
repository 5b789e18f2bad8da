/** Bringing the declared dependencies of services in line with their application configuration. */
module DependencySync {
  import opened Collections
  import opened Options

  /** The value of a top-level application key; a mapping may name its provider's registration key. */
  datatype Entry = Null | Scalar | Mapping(consulKey: string)

  type Application = map<string, Entry>

  datatype Dependency = Dependency(localService: string, binding: string, port: string, extras: nat)

  datatype Service = Service(
    identity: string,
    providerAliases: seq<string>,
    rpcPort: int,
    consumerBindings: seq<string>,
    bindings: seq<string>,
    dependencies: map<string, Dependency>)

  datatype Resolution = Resolution(mode: string, extras: nat)

  /** The routes of an environment: for each owner, one per dependency alias. */
  type Routes = map<string, map<string, Resolution>>

  datatype Manifest = Manifest(services: map<string, Service>, environments: map<string, Routes>)

  datatype Found = Preserved | Unreadable | Read(application: Application)

  /** A scanned repository, matched to the service it belongs to. */
  datatype Scan = Scan(name: string, facts: set<string>, found: Found)

  const LOCAL := "local"
  const REMOTE := Resolution("remote", 0)

  /** Sorting turns a set of names into one fixed sequence of them. */
  ghost predicate Sorts(sorted: set<string> -> seq<string>) {
    forall s :: SortedIs(sorted(s), s)
  }

  ghost predicate SortedIs(q: seq<string>, s: set<string>) {
    && (forall x :: x in q <==> x in s)
    && (forall i, j | 0 <= i < j < |q| :: q[i] != q[j])
  }

  predicate EndsWithRpc(key: string) {
    |key| >= 3 && key[|key| - 3..] == "Rpc"
  }

  function Effective(s: Service): seq<string> {
    if s.consumerBindings != [] then s.consumerBindings else s.bindings
  }

  predicate Known(s: Service, facts: set<string>, key: string) {
    key in facts || key in Effective(s) || exists alias | alias in s.dependencies ::
      s.dependencies[alias].binding == key
  }

  /** Keys that stand for bindings: the known ones, and mappings named like RPC clients. */
  predicate Candidate(s: Service, facts: set<string>, app: Application, key: string) {
    key in app && app[key] != Null && (Known(s, facts, key) || (app[key].Mapping? && EndsWithRpc(key)))
  }

  predicate WellTyped(s: Service, facts: set<string>, app: Application) {
    forall key | key in app && Candidate(s, facts, app, key) :: app[key].Mapping?
  }

  /** The active bindings with the registration key each one names. */
  function Active(s: Service, facts: set<string>, app: Application): map<string, string> {
    map key | key in app && app[key].Mapping? && Candidate(s, facts, app, key) :: app[key].consulKey
  }

  function IdentityOf(m: Manifest, name: string): string {
    if name in m.services then m.services[name].identity else ""
  }

  /** A bound dependency goes when its binding is gone, or names another provider. */
  predicate Dropped(m: Manifest, active: map<string, string>, alias: string, d: Dependency) {
    d.binding != "" && (
      || d.binding !in active
      || (active[d.binding] != ""
        && IdentityOf(m, if d.localService == "" then alias else d.localService) != active[d.binding]))
  }

  function Removed(m: Manifest, s: Service, active: map<string, string>): set<string> {
    set alias | alias in s.dependencies && Dropped(m, active, alias, s.dependencies[alias])
  }

  function Kept(m: Manifest, s: Service, active: map<string, string>): map<string, Dependency> {
    map alias | alias in s.dependencies && !Dropped(m, active, alias, s.dependencies[alias]) :: s.dependencies[alias]
  }

  predicate Bound(deps: map<string, Dependency>, binding: string) {
    binding != "" && exists alias | alias in deps :: deps[alias].binding == binding
  }

  predicate Provides(m: Manifest, provider: string, binding: string, identity: string) {
    provider in m.services && if identity != "" then m.services[provider].identity == identity
      else binding in m.services[provider].providerAliases
  }

  function Providers(m: Manifest, names: seq<string>, binding: string, identity: string): seq<string> {
    if names == [] then []
    else
      var init, last := names[..|names| - 1], names[|names| - 1];
      Providers(m, init, binding, identity) + if Provides(m, last, binding, identity) then [last] else []
  }

  /** One unbound active binding: bound to its provider, left remote, or an error. */
  function Bind(m: Manifest, names: seq<string>, kept: map<string, Dependency>, deps: map<string, Dependency>,
    binding: string, identity: string): Option<map<string, Dependency>> {
    var providers := Providers(m, names, binding, identity);
    if Bound(kept, binding) then Some(deps)
    else if |providers| > 1 then None
    else if providers == [] then Some(deps)
    else
      var provider := providers[0];
      var alias := if provider in deps then binding else provider;
      if provider !in m.services || m.services[provider].rpcPort == 0 || alias in deps then None
      else Some(deps[alias := Dependency(provider, binding, "rpc", 0)])
  }

  function BindAll(m: Manifest, names: seq<string>, kept: map<string, Dependency>, active: map<string, string>,
    bindings: seq<string>): Option<map<string, Dependency>>
    requires forall b | b in bindings :: b in active
  {
    if bindings == [] then Some(kept)
    else
      var init, last := bindings[..|bindings| - 1], bindings[|bindings| - 1];
      var deps := BindAll(m, names, kept, active, init);
      if deps.None? then None else Bind(m, names, kept, deps.value, last, active[last])
  }

  /** The routes of one owner: removed aliases lose theirs, bound ones get a remote one outside `local`. */
  function Routed(env: string, entries: map<string, Resolution>, removed: set<string>,
    deps: map<string, Dependency>): map<string, Resolution> {
    var left := entries - removed;
    if env == LOCAL then left
    else (map alias | alias in deps && deps[alias].binding != "" && alias !in left :: REMOTE) + left
  }

  function EntriesOf(routes: Routes, name: string): map<string, Resolution> {
    if name in routes then routes[name] else map[]
  }

  function RoutesOf(env: string, routes: Routes, name: string, removed: set<string>,
    deps: map<string, Dependency>): Routes {
    var entries := Routed(env, EntriesOf(routes, name), removed, deps);
    if name in routes || entries != map[] then routes[name := entries] else routes
  }

  /** What one scan makes of the manifest. */
  function SyncOne(m: Manifest, scan: Scan, sorted: set<string> -> seq<string>): Option<Manifest>
    requires Sorts(sorted)
  {
    if scan.name !in m.services || scan.found.Preserved? then Some(m)
    else if scan.found.Unreadable? then None
    else
      var s := m.services[scan.name];
      var app := scan.found.application;
      if !WellTyped(s, scan.facts, app) then None
      else
        var active := Active(s, scan.facts, app);
        var bindings := sorted(active.Keys);
        assert SortedIs(bindings, active.Keys);
        var deps := BindAll(m, sorted(m.services.Keys), Kept(m, s, active), active, bindings);
        if deps.None? then None
        else
          var removed := Removed(m, s, active);
          Some(Manifest(
            m.services[scan.name := s.(consumerBindings := bindings, bindings := [], dependencies := deps.value)],
            map env | env in m.environments :: RoutesOf(env, m.environments[env], scan.name, removed, deps.value)))
  }

  function SyncAll(m: Manifest, scans: seq<Scan>, sorted: set<string> -> seq<string>): Option<Manifest>
    requires Sorts(sorted)
  {
    if scans == [] then Some(m)
    else
      var init := SyncAll(m, scans[..|scans| - 1], sorted);
      if init.None? then None else SyncOne(init.value, scans[|scans| - 1], sorted)
  }

  // ---- What binding adds ----

  /** Each added dependency binds an active binding to the one service that provides it. */
  predicate Added(m: Manifest, names: seq<string>, active: map<string, string>, d: Dependency) {
    && d.binding in active && d.localService in m.services && Provides(m, d.localService, d.binding, active[d.binding])
    && Providers(m, names, d.binding, active[d.binding]) == [d.localService]
  }

  lemma {:induction false} ProvidersProvide(m: Manifest, names: seq<string>, binding: string, identity: string, i: nat)
    requires i < |Providers(m, names, binding, identity)|
    ensures Provides(m, Providers(m, names, binding, identity)[i], binding, identity)
  {
    var init := names[..|names| - 1];
    if i < |Providers(m, init, binding, identity)| { ProvidersProvide(m, init, binding, identity, i); }
  }

  lemma {:induction false} BindAllGrows(m: Manifest, names: seq<string>, kept: map<string, Dependency>,
    active: map<string, string>, bindings: seq<string>)
    requires (forall b | b in bindings :: b in active) && BindAll(m, names, kept, active, bindings).Some?
    ensures var deps := BindAll(m, names, kept, active, bindings).value;
      && (forall alias | alias in kept :: alias in deps && deps[alias] == kept[alias])
      && (forall alias | alias in deps && alias !in kept ::
        deps[alias].binding in bindings && Added(m, names, active, deps[alias]))
  {
    hide Added, Bound;
    if bindings != [] {
      var init, last := bindings[..|bindings| - 1], bindings[|bindings| - 1];
      BindAllGrows(m, names, kept, active, init);
      assert forall b | b in init :: b in bindings;
      BindGrows(m, names, kept, BindAll(m, names, kept, active, init).value, active, last);
    }
  }

  lemma BindGrows(m: Manifest, names: seq<string>, kept: map<string, Dependency>, deps: map<string, Dependency>,
    active: map<string, string>, binding: string)
    requires binding in active && Bind(m, names, kept, deps, binding, active[binding]).Some?
    ensures var more := Bind(m, names, kept, deps, binding, active[binding]).value;
      && (forall alias | alias in deps :: alias in more && more[alias] == deps[alias])
      && (forall alias | alias in more && alias !in deps ::
        more[alias].binding == binding && Added(m, names, active, more[alias]))
      && (more == deps || exists alias :: alias in more && alias !in deps)
      && (more == deps <==> Bound(kept, binding) || Providers(m, names, binding, active[binding]) == [])
  {
    if Providers(m, names, binding, active[binding]) != [] { ProvidersProvide(m, names, binding, active[binding], 0); }
  }

  /** Every binding with a provider is bound in the end, the nameless one excepted. */
  lemma {:induction false} BindAllBinds(m: Manifest, names: seq<string>, kept: map<string, Dependency>,
    active: map<string, string>, bindings: seq<string>, b: string)
    requires (forall x | x in bindings :: x in active) && BindAll(m, names, kept, active, bindings).Some?
    requires b in bindings && b != "" && Providers(m, names, b, active[b]) != []
    ensures Bound(BindAll(m, names, kept, active, bindings).value, b)
  {
    var init, last := bindings[..|bindings| - 1], bindings[|bindings| - 1];
    var deps := BindAll(m, names, kept, active, init).value;
    var more := BindAll(m, names, kept, active, bindings).value;
    BindAllGrows(m, names, kept, active, init);
    BindGrows(m, names, kept, deps, active, last);
    if last == b {
      if Bound(kept, b) {
        var alias :| alias in kept && kept[alias].binding == b;
        assert more[alias].binding == b;
      } else {
        var alias :| alias in more && alias !in deps;
        assert more[alias].binding == b;
      }
    } else {
      BindAllBinds(m, names, kept, active, init, b);
      var alias :| alias in deps && deps[alias].binding == b;
      assert more[alias].binding == b;
    }
  }

  // ---- What a synchronized service looks like ----

  /** Every bound dependency names an active binding. */
  lemma BoundIsActive(m: Manifest, scan: Scan, sorted: set<string> -> seq<string>, alias: string)
    requires Sorts(sorted) && SyncOne(m, scan, sorted).Some? && scan.name in m.services && scan.found.Read?
    ensures var s := SyncOne(m, scan, sorted).value.services[scan.name];
      alias in s.dependencies && s.dependencies[alias].binding != "" ==>
        s.dependencies[alias].binding in Active(m.services[scan.name], scan.facts, scan.found.application)
  {
    var s := m.services[scan.name];
    var active := Active(s, scan.facts, scan.found.application);
    assert SortedIs(sorted(active.Keys), active.Keys);
    BindAllGrows(m, sorted(m.services.Keys), Kept(m, s, active), active, sorted(active.Keys));
  }

  /** The routes of the other owners are left alone. */
  lemma OtherRoutesStay(m: Manifest, scan: Scan, sorted: set<string> -> seq<string>, env: string, owner: string)
    requires Sorts(sorted) && SyncOne(m, scan, sorted).Some? && env in m.environments && owner != scan.name
    ensures var after := SyncOne(m, scan, sorted).value;
      env in after.environments && EntriesOf(after.environments[env], owner) == EntriesOf(m.environments[env], owner)
      && (owner in after.environments[env] <==> owner in m.environments[env])
  {
  }

  /** The bindings a synchronized service ends up with: the mappings it knows, or that are named like RPC clients. */
  lemma BindingsExact(m: Manifest, scan: Scan, sorted: set<string> -> seq<string>, key: string)
    requires Sorts(sorted) && SyncOne(m, scan, sorted).Some? && scan.name in m.services && scan.found.Read?
    ensures var s, app, t := m.services[scan.name], scan.found.application,
        SyncOne(m, scan, sorted).value.services[scan.name];
      && t.bindings == []
      && (key in t.consumerBindings <==>
        && key in app && app[key].Mapping?
        && (|| (|key| >= 3 && key[|key| - 3..] == "Rpc")
            || key in scan.facts
            || (if s.consumerBindings == [] then key in s.bindings else key in s.consumerBindings)
            || exists alias | alias in s.dependencies :: s.dependencies[alias].binding == key))
  {
    SyncedService(m, scan, sorted);
  }

  /** A declared dependency whose binding is no longer there, or is served under another registration key. */
  ghost predicate Stale(m: Manifest, scan: Scan, bindings: seq<string>, alias: string)
    requires scan.name in m.services && scan.found.Read?
  {
    alias in m.services[scan.name].dependencies &&
    var d, app := m.services[scan.name].dependencies[alias], scan.found.application;
    var provider := if d.localService != "" then d.localService else alias;
    && d.binding != ""
    && (d.binding in bindings ==>
          && d.binding in app && app[d.binding].Mapping? && app[d.binding].consulKey != ""
          && !(provider in m.services && m.services[provider].identity == app[d.binding].consulKey))
  }

  ghost predicate Retained(m: Manifest, scan: Scan, bindings: seq<string>, alias: string)
    requires scan.name in m.services && scan.found.Read?
  {
    alias in m.services[scan.name].dependencies && !Stale(m, scan, bindings, alias)
  }

  /** Some retained dependency has this binding already. */
  ghost predicate Held(m: Manifest, scan: Scan, bindings: seq<string>, b: string)
    requires scan.name in m.services && scan.found.Read?
  {
    b != "" && exists alias | Retained(m, scan, bindings, alias) ::
      m.services[scan.name].dependencies[alias].binding == b
  }

  /** The service provides the binding: it is registered under the key the application names, or lists an alias. */
  predicate Serves(m: Manifest, provider: string, b: string, app: Application) {
    && provider in m.services && b in app && app[b].Mapping?
    && if app[b].consulKey == "" then b in m.services[provider].providerAliases
       else m.services[provider].identity == app[b].consulKey
  }

  ghost predicate OnlyServer(m: Manifest, provider: string, b: string, app: Application) {
    Serves(m, provider, b, app) && forall x | Serves(m, x, b, app) :: x == provider
  }

  lemma StaleIsDropped(m: Manifest, scan: Scan, sorted: set<string> -> seq<string>, alias: string)
    requires Sorts(sorted) && scan.name in m.services && scan.found.Read?
    requires alias in m.services[scan.name].dependencies
    ensures var s := m.services[scan.name];
      var active := Active(s, scan.facts, scan.found.application);
      Stale(m, scan, sorted(active.Keys), alias) <==> Dropped(m, active, alias, s.dependencies[alias])
  {
    var active := Active(m.services[scan.name], scan.facts, scan.found.application);
    assert SortedIs(sorted(active.Keys), active.Keys);
  }

  lemma {:induction false} ProvidersExact(m: Manifest, names: seq<string>, b: string, identity: string, x: string)
    ensures x in Providers(m, names, b, identity) <==> x in names && Provides(m, x, b, identity)
  {
    if names != [] {
      var init, last := names[..|names| - 1], names[|names| - 1];
      assert x in names <==> x in init || x == last;
      ProvidersExact(m, init, b, identity, x);
    }
  }

  /** Dependencies that are not stale stay, and the new ones are these. */
  ghost predicate NewDependency(m: Manifest, scan: Scan, bindings: seq<string>, alias: string, d: Dependency)
    requires scan.name in m.services && scan.found.Read?
  {
    && d == Dependency(d.localService, d.binding, "rpc", 0) && alias in {d.localService, d.binding}
    && d.binding in bindings && !Held(m, scan, bindings, d.binding)
    && OnlyServer(m, d.localService, d.binding, scan.found.application)
    && m.services[d.localService].rpcPort != 0
  }

  /**
   The dependencies of a synchronized service, exactly: what is not stale stays as it was, everything
   else is new, and a named binding that nothing retained holds is bound to its one provider.
   */
  lemma DependenciesExact(m: Manifest, scan: Scan, sorted: set<string> -> seq<string>)
    requires Sorts(sorted) && SyncOne(m, scan, sorted).Some? && scan.name in m.services && scan.found.Read?
    ensures var s, t := m.services[scan.name], SyncOne(m, scan, sorted).value.services[scan.name];
      && (forall alias | Retained(m, scan, t.consumerBindings, alias) ::
            alias in t.dependencies && t.dependencies[alias] == s.dependencies[alias])
      && (forall alias | alias in t.dependencies && !Retained(m, scan, t.consumerBindings, alias) ::
            NewDependency(m, scan, t.consumerBindings, alias, t.dependencies[alias]))
      && (forall b, provider | b in t.consumerBindings && b != "" && !Held(m, scan, t.consumerBindings, b)
            && Serves(m, provider, b, scan.found.application) ::
            exists alias | alias in t.dependencies :: t.dependencies[alias] == Dependency(provider, b, "rpc", 0))
  {
    SyncedService(m, scan, sorted);
    var s, t, app := m.services[scan.name], SyncOne(m, scan, sorted).value.services[scan.name], scan.found.application;
    hide SyncOne, Sorts;
    var active := Active(s, scan.facts, app);
    var names, bindings := sorted(m.services.Keys), sorted(active.Keys);
    var kept := Kept(m, s, active);
    SortsEvery(sorted, m.services.Keys);
    BindAllGrows(m, names, kept, active, bindings);
    BindAllShapes(m, names, kept, active, bindings);
    forall alias ensures alias in kept <==> Retained(m, scan, bindings, alias) {
      KeptIsRetained(m, scan, sorted, alias);
    }
    forall b | b in active ensures Bound(kept, b) <==> Held(m, scan, bindings, b) {
      BoundIsHeld(m, scan, sorted, b);
    }
    hide Stale, Retained, Held, BindAll, Bound, Kept;
    forall alias | alias in t.dependencies && !Retained(m, scan, bindings, alias)
      ensures NewDependency(m, scan, bindings, alias, t.dependencies[alias])
    {
      var d := t.dependencies[alias];
      assert alias !in kept;
      ServersExact(m, names, d.binding, scan.found.application);
      assert d.localService in Providers(m, names, d.binding, active[d.binding]);
    }
    forall b, provider | b in bindings && b != "" && !Held(m, scan, bindings, b) && Serves(m, provider, b, app)
      ensures exists alias | alias in t.dependencies :: t.dependencies[alias] == Dependency(provider, b, "rpc", 0)
    {
      ServersExact(m, names, b, app);
      assert provider in Providers(m, names, b, active[b]);
      BindAllBinds(m, names, kept, active, bindings, b);
      var alias := BoundAlias(t.dependencies, b);
      if alias in kept { StillBound(kept, alias, b); }
      var d := t.dependencies[alias];
      assert Providers(m, names, b, active[b]) == [d.localService] by { hide Providers, Provides; }
    }
  }

  lemma StillBound(deps: map<string, Dependency>, alias: string, b: string)
    requires b != "" && alias in deps && deps[alias].binding == b
    ensures Bound(deps, b)
  {
  }

  lemma BoundAlias(deps: map<string, Dependency>, b: string) returns (alias: string)
    requires Bound(deps, b)
    ensures alias in deps && deps[alias].binding == b
  {
    alias :| alias in deps && deps[alias].binding == b;
  }

  lemma ServersExact(m: Manifest, names: seq<string>, b: string, app: Application)
    requires (forall x :: x in names <==> x in m.services) && b in app && app[b].Mapping?
    ensures forall x :: Serves(m, x, b, app) <==> x in Providers(m, names, b, app[b].consulKey)
  {
    forall x { ProvidersExact(m, names, b, app[b].consulKey, x); }
  }

  lemma KeptIsRetained(m: Manifest, scan: Scan, sorted: set<string> -> seq<string>, alias: string)
    requires Sorts(sorted) && scan.name in m.services && scan.found.Read?
    ensures var s := m.services[scan.name];
      var active := Active(s, scan.facts, scan.found.application);
      alias in Kept(m, s, active) <==> Retained(m, scan, sorted(active.Keys), alias)
  {
    hide Stale, Dropped, Active;
    if alias in m.services[scan.name].dependencies { StaleIsDropped(m, scan, sorted, alias); }
  }

  lemma BoundIsHeld(m: Manifest, scan: Scan, sorted: set<string> -> seq<string>, b: string)
    requires Sorts(sorted) && scan.name in m.services && scan.found.Read?
    ensures var s := m.services[scan.name];
      var active := Active(s, scan.facts, scan.found.application);
      Bound(Kept(m, s, active), b) <==> Held(m, scan, sorted(active.Keys), b)
  {
    hide Stale, Dropped, Active;
    var s := m.services[scan.name];
    var active := Active(s, scan.facts, scan.found.application);
    forall alias ensures alias in Kept(m, s, active) <==> Retained(m, scan, sorted(active.Keys), alias) {
      KeptIsRetained(m, scan, sorted, alias);
    }
    hide Retained;
    if Bound(Kept(m, s, active), b) {
      var alias := BoundAlias(Kept(m, s, active), b);
      assert Retained(m, scan, sorted(active.Keys), alias);
    }
    if Held(m, scan, sorted(active.Keys), b) {
      var alias :| Retained(m, scan, sorted(active.Keys), alias) && s.dependencies[alias].binding == b;
      StillBound(Kept(m, s, active), alias, b);
    }
  }

  /** What binding adds has this shape, under the name of its provider or of its binding. */
  lemma {:induction false} BindAllShapes(m: Manifest, names: seq<string>, kept: map<string, Dependency>,
    active: map<string, string>, bindings: seq<string>)
    requires (forall b | b in bindings :: b in active) && BindAll(m, names, kept, active, bindings).Some?
    ensures var deps := BindAll(m, names, kept, active, bindings).value;
      forall alias | alias in deps && alias !in kept ::
        var d := deps[alias];
        && d.binding in bindings && d == Dependency(d.localService, d.binding, "rpc", 0)
        && alias in {d.localService, d.binding} && !Bound(kept, d.binding)
        && d.localService in m.services && m.services[d.localService].rpcPort != 0
  {
    hide Bound, Providers;
    if bindings != [] {
      var init, last := bindings[..|bindings| - 1], bindings[|bindings| - 1];
      BindAllShapes(m, names, kept, active, init);
      assert forall b :: b in bindings <==> b in init || b == last;
    }
  }

  /** The routes of a synchronized service, exactly. */
  lemma RoutesExact(m: Manifest, scan: Scan, sorted: set<string> -> seq<string>, env: string, alias: string)
    requires Sorts(sorted) && SyncOne(m, scan, sorted).Some? && scan.name in m.services && scan.found.Read?
    requires env in m.environments
    ensures var after := SyncOne(m, scan, sorted).value;
      var t := after.services[scan.name];
      && env in after.environments
      && var before, entries := EntriesOf(m.environments[env], scan.name),
        EntriesOf(after.environments[env], scan.name);
      var stays := alias in before && !Stale(m, scan, t.consumerBindings, alias);
      && (alias in entries <==>
            stays || (env != "local" && alias in t.dependencies && t.dependencies[alias].binding != ""))
      && (alias in entries ==> entries[alias] == if stays then before[alias] else Resolution("remote", 0))
  {
    SyncedService(m, scan, sorted);
    var s := m.services[scan.name];
    var active := Active(s, scan.facts, scan.found.application);
    hide Stale, Active, BindAll, Kept, Dropped;
    if alias in s.dependencies {
      StaleIsDropped(m, scan, sorted, alias);
    } else {
      NotDeclared(m, scan, sorted(active.Keys), alias);
    }
    var after := SyncOne(m, scan, sorted).value;
    assert after.environments[env] ==
      RoutesOf(env, m.environments[env], scan.name, Removed(m, s, active), after.services[scan.name].dependencies);
    assert alias in Removed(m, s, active) <==> Stale(m, scan, sorted(active.Keys), alias) by { hide SyncOne, RoutesOf; }
    hide SyncOne;
  }

  lemma NotDeclared(m: Manifest, scan: Scan, bindings: seq<string>, alias: string)
    requires scan.name in m.services && scan.found.Read? && alias !in m.services[scan.name].dependencies
    ensures !Stale(m, scan, bindings, alias)
  {
  }

  // ---- What is refused ----

  /** A binding that counts is no mapping. */
  ghost predicate Misshapen(m: Manifest, scan: Scan)
    requires scan.name in m.services && scan.found.Read?
  {
    var s, app := m.services[scan.name], scan.found.application;
    exists key | key in app ::
      && app[key] == Scalar
      && (|| key in scan.facts
          || (if s.consumerBindings == [] then key in s.bindings else key in s.consumerBindings)
          || exists alias | alias in s.dependencies :: s.dependencies[alias].binding == key)
  }

  /** A binding nothing retained holds has several providers, or one without an RPC port. */
  ghost predicate Unservable(m: Manifest, scan: Scan, bindings: seq<string>)
    requires scan.name in m.services && scan.found.Read?
  {
    var app := scan.found.application;
    exists b, x | b in bindings && !Held(m, scan, bindings, b) && Serves(m, x, b, app) ::
      m.services[x].rpcPort == 0 || !OnlyServer(m, x, b, app)
  }

  /** The name of a binding is taken by a retained dependency or a service, and its provider's by another one. */
  ghost predicate Crowded(m: Manifest, scan: Scan, bindings: seq<string>)
    requires scan.name in m.services && scan.found.Read?
  {
    exists b | b in bindings && !Held(m, scan, bindings, b) ::
      Retained(m, scan, bindings, b) || b in m.services
  }

  /** A readable application is refused for these reasons only; the first two are refused always. */
  lemma RefusedFor(m: Manifest, scan: Scan, sorted: set<string> -> seq<string>)
    requires Sorts(sorted) && scan.name in m.services && scan.found.Read?
    ensures var bindings := sorted(Active(m.services[scan.name], scan.facts, scan.found.application).Keys);
      && (Misshapen(m, scan) || Unservable(m, scan, bindings) ==> SyncOne(m, scan, sorted).None?)
      && (SyncOne(m, scan, sorted).None? ==>
            Misshapen(m, scan) || Unservable(m, scan, bindings) || Crowded(m, scan, bindings))
  {
    var s, app := m.services[scan.name], scan.found.application;
    var active := Active(s, scan.facts, app);
    SortsEvery(sorted, active.Keys);
    SortsEvery(sorted, m.services.Keys);
    MisshapenIsIllTyped(m, scan);
    hide WellTyped, Misshapen, Active, Unservable, Crowded, BindAll, Kept, SortedIs;
    UnservableRefused(m, scan, sorted);
    BindingRefused(m, scan, sorted);
  }

  lemma UnservableRefused(m: Manifest, scan: Scan, sorted: set<string> -> seq<string>)
    requires Sorts(sorted) && scan.name in m.services && scan.found.Read?
    requires SortedIs(sorted(m.services.Keys), m.services.Keys)
    ensures var active := Active(m.services[scan.name], scan.facts, scan.found.application);
      SortedIs(sorted(active.Keys), active.Keys) &&
      (Unservable(m, scan, sorted(active.Keys)) ==>
        BindAll(m, sorted(m.services.Keys), Kept(m, m.services[scan.name], active), active, sorted(active.Keys)).None?)
  {
    var s, app := m.services[scan.name], scan.found.application;
    var active := Active(s, scan.facts, app);
    SortsEvery(sorted, active.Keys);
    var names, bindings, kept := sorted(m.services.Keys), sorted(active.Keys), Kept(m, s, active);
    hide Kept, Held, Bound, Sorts, BindAll, Active, SortedIs, Serves;
    if Unservable(m, scan, bindings) {
      var b, x :| b in bindings && !Held(m, scan, bindings, b) && Serves(m, x, b, app)
        && (m.services[x].rpcPort == 0 || !OnlyServer(m, x, b, app));
      assert b in active && b in app && app[b].Mapping? && active[b] == app[b].consulKey by {
        ActiveIs(s, scan.facts, app, b);
      }
      BoundIsHeld(m, scan, sorted, b);
      ServersExact(m, names, b, app);
      UnservableFails(m, names, kept, active, bindings, b, x, app);
    }
  }

  lemma ActiveIs(s: Service, facts: set<string>, app: Application, b: string)
    ensures b in Active(s, facts, app) ==> b in app && app[b].Mapping? && Active(s, facts, app)[b] == app[b].consulKey
  {
  }

  lemma BindingRefused(m: Manifest, scan: Scan, sorted: set<string> -> seq<string>)
    requires Sorts(sorted) && scan.name in m.services && scan.found.Read?
    requires SortedIs(sorted(m.services.Keys), m.services.Keys)
    ensures var active := Active(m.services[scan.name], scan.facts, scan.found.application);
      var bindings := sorted(active.Keys);
      SortedIs(bindings, active.Keys) &&
      (BindAll(m, sorted(m.services.Keys), Kept(m, m.services[scan.name], active), active, bindings).None? ==>
        Unservable(m, scan, bindings) || Crowded(m, scan, bindings))
  {
    var s, app := m.services[scan.name], scan.found.application;
    var active := Active(s, scan.facts, app);
    SortsEvery(sorted, active.Keys);
    var names, bindings, kept := sorted(m.services.Keys), sorted(active.Keys), Kept(m, s, active);
    if BindAll(m, names, kept, active, bindings).None? {
      hide Kept, Held, Bound, Sorts, BindAll, Retained;
      var b, x := FailingBinding(m, names, kept, active, bindings);
      BoundIsHeld(m, scan, sorted, b);
      KeptIsRetained(m, scan, sorted, b);
      ServersExact(m, names, b, app);
      hide Serves, Providers;
      assert Serves(m, x, b, app);
      if m.services[x].rpcPort != 0 && !(b in kept || b in m.services) { assert !OnlyServer(m, x, b, app); }
    }
  }

  lemma MisshapenIsIllTyped(m: Manifest, scan: Scan)
    requires scan.name in m.services && scan.found.Read?
    ensures Misshapen(m, scan) <==> !WellTyped(m.services[scan.name], scan.facts, scan.found.application)
  {
    var s, app := m.services[scan.name], scan.found.application;
    if Misshapen(m, scan) {
      var key :| key in app && app[key] == Scalar && Known(s, scan.facts, key);
      assert Candidate(s, scan.facts, app, key);
    }
    if !WellTyped(s, scan.facts, app) {
      var key :| key in app && Candidate(s, scan.facts, app, key) && !app[key].Mapping?;
    }
  }

  lemma UnservableFails(m: Manifest, names: seq<string>, kept: map<string, Dependency>, active: map<string, string>,
    bindings: seq<string>, b: string, x: string, app: Application)
    requires (forall b | b in bindings :: b in active) && b in bindings
    requires !Bound(kept, b) && b in app && app[b].Mapping? && active[b] == app[b].consulKey
    requires forall y :: Serves(m, y, b, app) <==> y in Providers(m, names, b, active[b])
    requires Serves(m, x, b, app) && (m.services[x].rpcPort == 0 || !OnlyServer(m, x, b, app))
    ensures BindAll(m, names, kept, active, bindings).None?
  {
    hide Bound, Providers, Serves;
    var i :| 0 <= i < |bindings| && bindings[i] == b;
    var some := bindings[..i + 1];
    var providers := Providers(m, names, b, active[b]);
    if |providers| == 1 {
      assert forall y | y in providers :: y == providers[0];
      assert x == providers[0];
    }
    assert some[..|some| - 1] == bindings[..i];
    PrefixBound(m, names, kept, active, bindings, i + 1);
  }

  lemma {:induction false} ProvidersDiffer(m: Manifest, names: seq<string>, b: string, identity: string)
    requires forall i, j | 0 <= i < j < |names| :: names[i] != names[j]
    ensures var ps := Providers(m, names, b, identity); forall i, j | 0 <= i < j < |ps| :: ps[i] != ps[j]
  {
    if names != [] {
      var init, last := names[..|names| - 1], names[|names| - 1];
      ProvidersDiffer(m, init, b, identity);
      ProvidersExact(m, init, b, identity, last);
      assert last !in init;
    }
  }

  lemma {:induction false} FailingBinding(m: Manifest, names: seq<string>, kept: map<string, Dependency>,
    active: map<string, string>, bindings: seq<string>) returns (b: string, x: string)
    requires (forall b | b in bindings :: b in active) && BindAll(m, names, kept, active, bindings).None?
    requires SortedIs(names, m.services.Keys) && forall i, j | 0 <= i < j < |bindings| :: bindings[i] != bindings[j]
    ensures b in bindings && !Bound(kept, b) && x in Providers(m, names, b, active[b]) && x in m.services
    ensures m.services[x].rpcPort == 0 || b in kept || b in m.services
      || exists y :: y in Providers(m, names, b, active[b]) && y != x
  {
    var init, last := bindings[..|bindings| - 1], bindings[|bindings| - 1];
    if BindAll(m, names, kept, active, init).None? {
      b, x := FailingBinding(m, names, kept, active, init);
    } else {
      b, x := last, Providers(m, names, last, active[last])[0];
      ProvidersExact(m, names, b, active[b], x);
      ProvidersDiffer(m, names, b, active[b]);
      BindAllShapes(m, names, kept, active, init);
      assert b !in init;
      var ps := Providers(m, names, b, active[b]);
      if |ps| > 1 { assert ps[1] in ps && ps[1] != x; }
    }
  }

  // ---- The second run ----

  /** The parts of a manifest that synchronization reads of other services, and never writes. */
  ghost predicate SameFacts(m: Manifest, n: Manifest) {
    && m.services.Keys == n.services.Keys
    && forall x | x in m.services ::
      && n.services[x].identity == m.services[x].identity
      && n.services[x].providerAliases == m.services[x].providerAliases
      && n.services[x].rpcPort == m.services[x].rpcPort
  }

  lemma {:induction false} SameProviders(m: Manifest, n: Manifest, names: seq<string>, binding: string,
    identity: string)
    requires SameFacts(m, n)
    ensures Providers(n, names, binding, identity) == Providers(m, names, binding, identity)
  {
    if names != [] { SameProviders(m, n, names[..|names| - 1], binding, identity); }
  }

  lemma {:induction false} SameBindings(m: Manifest, n: Manifest, names: seq<string>, kept: map<string, Dependency>,
    active: map<string, string>, bindings: seq<string>)
    requires SameFacts(m, n) && forall b | b in bindings :: b in active
    ensures BindAll(n, names, kept, active, bindings) == BindAll(m, names, kept, active, bindings)
  {
    if bindings != [] {
      var init, last := bindings[..|bindings| - 1], bindings[|bindings| - 1];
      SameBindings(m, n, names, kept, active, init);
      SameProviders(m, n, names, last, active[last]);
    }
  }

  /** Binding again, with everything kept, adds something exactly for the nameless binding with a provider. */
  lemma {:induction false} BindAgain(m: Manifest, names: seq<string>, deps: map<string, Dependency>,
    active: map<string, string>, bindings: seq<string>)
    requires forall b | b in bindings :: b in active
    requires forall b | b in bindings && b != "" :: Bound(deps, b) || Providers(m, names, b, active[b]) == []
    ensures BindAll(m, names, deps, active, bindings) == Some(deps) <==>
      !("" in bindings && Providers(m, names, "", active[""]) != [])
    ensures BindAll(m, names, deps, active, bindings).Some? ==>
      forall alias | alias in deps :: alias in BindAll(m, names, deps, active, bindings).value
  {
    hide Bound;
    if bindings != [] {
      var init, last := bindings[..|bindings| - 1], bindings[|bindings| - 1];
      assert forall b :: b in bindings <==> b in init || b == last;
      BindAgain(m, names, deps, active, init);
      var before := BindAll(m, names, deps, active, init);
      assert !Bound(deps, "") by { NamelessUnbound(deps); }
      if before.Some? && Bind(m, names, deps, before.value, last, active[last]).Some? {
        BindGrows(m, names, deps, before.value, active, last);
      }
      if before.Some? && before.value != deps {
        BindAllGrows(m, names, deps, active, init);
        var alias := NewAlias(deps, before.value);
      }
    }
  }

  lemma NamelessUnbound(deps: map<string, Dependency>)
    ensures !Bound(deps, "")
  {
  }

  lemma NewAlias(deps: map<string, Dependency>, more: map<string, Dependency>) returns (alias: string)
    requires (forall x | x in deps :: x in more && more[x] == deps[x]) && more != deps
    ensures alias in more && alias !in deps
  {
    assert more.Keys <= deps.Keys ==> more == deps;
    alias :| alias in more && alias !in deps;
  }

  /** The application has a nameless mapping that counts as a binding and that some service provides. */
  ghost predicate Nameless(m: Manifest, scan: Scan, sorted: set<string> -> seq<string>) {
    && scan.name in m.services && scan.found.Read?
    && var active := Active(m.services[scan.name], scan.facts, scan.found.application);
    "" in active && Providers(m, sorted(m.services.Keys), "", active[""]) != []
  }

  /** The synchronized service finds the same bindings active. */
  lemma ActiveAgain(s: Service, t: Service, facts: set<string>, app: Application)
    requires WellTyped(s, facts, app)
    requires forall key :: key in t.consumerBindings <==> key in Active(s, facts, app)
    requires t.bindings == []
    requires forall alias | alias in t.dependencies ::
      (alias in s.dependencies && t.dependencies[alias] == s.dependencies[alias])
        || t.dependencies[alias].binding in Active(s, facts, app)
    ensures WellTyped(t, facts, app) && Active(t, facts, app) == Active(s, facts, app)
  {
    forall key | key in app ensures Candidate(t, facts, app, key) <==> Candidate(s, facts, app, key) {
      if Known(t, facts, key) && key !in facts && key !in Effective(t) {
        var alias :| alias in t.dependencies && t.dependencies[alias].binding == key;
        if key !in Active(s, facts, app) { assert alias in s.dependencies && s.dependencies[alias].binding == key; }
      }
      if key in Active(s, facts, app) { assert key in Effective(t); }
    }
  }

  /** The same service, with the same facts about the others, is synchronized the same way. */
  ghost predicate Settled(m: Manifest, scan: Scan, sorted: set<string> -> seq<string>)
    requires Sorts(sorted)
  {
    SyncOne(m, scan, sorted) == Some(m)
  }

  lemma SyncKeepsFacts(m: Manifest, scan: Scan, sorted: set<string> -> seq<string>)
    requires Sorts(sorted) && SyncOne(m, scan, sorted).Some?
    ensures var n := SyncOne(m, scan, sorted).value;
      && SameFacts(m, n) && n.environments.Keys == m.environments.Keys
      && (forall x | x in m.services && x != scan.name :: n.services[x] == m.services[x])
      && (forall env, x | env in m.environments && x != scan.name ::
            (x in n.environments[env] <==> x in m.environments[env])
            && (x in m.environments[env] ==> n.environments[env][x] == m.environments[env][x]))
  {
  }

  /** A dependency that was kept or added is not dropped by a second look. */
  lemma NotDropped(m: Manifest, n: Manifest, names: seq<string>, active: map<string, string>, alias: string,
    d: Dependency)
    requires SameFacts(m, n) && "" !in m.services && (!Dropped(m, active, alias, d) || Added(m, names, active, d))
    ensures !Dropped(n, active, alias, d)
  {
    hide Providers;
    SameIdentity(m, n, if d.localService == "" then alias else d.localService);
  }

  /** What synchronizing a readable service yields. */
  lemma SyncedService(m: Manifest, scan: Scan, sorted: set<string> -> seq<string>)
    requires Sorts(sorted) && SyncOne(m, scan, sorted).Some? && scan.name in m.services && scan.found.Read?
    ensures var s, app, n := m.services[scan.name], scan.found.application, SyncOne(m, scan, sorted).value;
      var t, active := n.services[scan.name], Active(s, scan.facts, app);
      && WellTyped(s, scan.facts, app) && SortedIs(sorted(active.Keys), active.Keys)
      && t.bindings == [] && t.consumerBindings == sorted(active.Keys)
      && BindAll(m, sorted(m.services.Keys), Kept(m, s, active), active, sorted(active.Keys)) == Some(t.dependencies)
  {
    hide BindAll, Kept, Active, WellTyped;
    assert SortedIs(sorted(Active(m.services[scan.name], scan.facts, scan.found.application).Keys),
      Active(m.services[scan.name], scan.facts, scan.found.application).Keys);
  }

  /** What the second look at a synchronized service starts from. */
  lemma SecondLook(m: Manifest, scan: Scan, sorted: set<string> -> seq<string>)
    requires Sorts(sorted) && SyncOne(m, scan, sorted).Some? && scan.name in m.services && scan.found.Read?
    requires "" !in m.services
    ensures var n, app := SyncOne(m, scan, sorted).value, scan.found.application;
      var s, t := m.services[scan.name], n.services[scan.name];
      var active := Active(s, scan.facts, app);
      && SameFacts(m, n) && t.bindings == [] && t.consumerBindings == sorted(active.Keys)
      && WellTyped(t, scan.facts, app) && Active(t, scan.facts, app) == active
      && Removed(n, t, active) == {} && Kept(n, t, active) == t.dependencies
      && (forall b | b in sorted(active.Keys) && b != "" ::
        Bound(t.dependencies, b) || Providers(m, sorted(m.services.Keys), b, active[b]) == [])
  {
    SyncKeepsFacts(m, scan, sorted);
    SyncedService(m, scan, sorted);
    var n, app := SyncOne(m, scan, sorted).value, scan.found.application;
    hide SyncOne, Sorts;
    var s, t := m.services[scan.name], n.services[scan.name];
    var active := Active(s, scan.facts, app);
    var names, bindings := sorted(m.services.Keys), sorted(active.Keys);
    BindAllGrows(m, names, Kept(m, s, active), active, bindings);
    KeptAgain(m, n, s, t, names, active, bindings);
    assert WellTyped(t, scan.facts, app) && Active(t, scan.facts, app) == active by {
      hide Added, Providers, Dropped;
      AddedActive(m, s, t, names, active, bindings);
      ActiveAgain(s, t, scan.facts, app);
    }
    hide Active, WellTyped, BindAll, Kept, Added;
    forall b | b in bindings && b != "" && Providers(m, names, b, active[b]) != [] ensures Bound(t.dependencies, b) {
      BindAllBinds(m, names, Kept(m, s, active), active, bindings, b);
    }
  }

  lemma AddedActive(m: Manifest, s: Service, t: Service, names: seq<string>, active: map<string, string>,
    bindings: seq<string>)
    requires forall b | b in bindings :: b in active
    requires BindAll(m, names, Kept(m, s, active), active, bindings) == Some(t.dependencies)
    ensures forall alias | alias in t.dependencies ::
      (alias in s.dependencies && t.dependencies[alias] == s.dependencies[alias])
        || t.dependencies[alias].binding in active
  {
    BindAllGrows(m, names, Kept(m, s, active), active, bindings);
  }

  lemma KeptAgain(m: Manifest, n: Manifest, s: Service, t: Service, names: seq<string>, active: map<string, string>,
    bindings: seq<string>)
    requires SameFacts(m, n) && "" !in m.services && (forall b | b in bindings :: b in active)
    requires BindAll(m, names, Kept(m, s, active), active, bindings) == Some(t.dependencies)
    ensures Removed(n, t, active) == {} && Kept(n, t, active) == t.dependencies
  {
    BindAllGrows(m, names, Kept(m, s, active), active, bindings);
    hide BindAll, Added;
    forall alias | alias in t.dependencies ensures !Dropped(n, active, alias, t.dependencies[alias]) {
      assert alias in Kept(m, s, active) ==> !Dropped(m, active, alias, t.dependencies[alias]) by { hide Dropped; }
      NotDropped(m, n, names, active, alias, t.dependencies[alias]);
    }
    hide Dropped;
  }

  lemma SameIdentity(m: Manifest, n: Manifest, name: string)
    requires SameFacts(m, n)
    ensures IdentityOf(n, name) == IdentityOf(m, name)
  {
  }

  lemma RoutesSettle(env: string, routes: Routes, name: string, removed: set<string>, deps: map<string, Dependency>)
    ensures var once := RoutesOf(env, routes, name, removed, deps); RoutesOf(env, once, name, {}, deps) == once
  {
    var once := RoutesOf(env, routes, name, removed, deps);
    var entries := Routed(env, EntriesOf(routes, name), removed, deps);
    assert EntriesOf(once, name) == entries;
    assert Routed(env, entries, {}, deps) == entries;
    if name in once { assert once[name := entries] == once; }
  }

  /** One service: synchronizing again changes nothing, the nameless binding with a provider excepted. */
  lemma SecondRunSettles(m: Manifest, scan: Scan, sorted: set<string> -> seq<string>)
    requires Sorts(sorted) && SyncOne(m, scan, sorted).Some? && "" !in m.services
    ensures var n := SyncOne(m, scan, sorted).value;
      (Settled(n, scan, sorted) <==> !Nameless(n, scan, sorted))
        && (Nameless(n, scan, sorted) <==> Nameless(m, scan, sorted))
  {
    var n := SyncOne(m, scan, sorted).value;
    if scan.name in m.services && scan.found.Read? {
      var app, names := scan.found.application, sorted(m.services.Keys);
      var s, t := m.services[scan.name], n.services[scan.name];
      var active := Active(s, scan.facts, app);
      var bindings := sorted(active.Keys);
      assert SortedIs(bindings, active.Keys);
      SecondLook(m, scan, sorted);
      SameBindings(m, n, names, t.dependencies, active, bindings);
      BindAgain(m, names, t.dependencies, active, bindings);
      if "" in active { SameProviders(m, n, names, "", active[""]); }
      SettlesWith(m, n, scan, sorted);
    }
  }

  lemma SettlesWith(m: Manifest, n: Manifest, scan: Scan, sorted: set<string> -> seq<string>)
    requires Sorts(sorted) && SyncOne(m, scan, sorted) == Some(n) && scan.name in m.services && scan.found.Read?
    requires "" !in m.services
    ensures var t := n.services[scan.name];
      var active := Active(t, scan.facts, scan.found.application);
      SortedIs(sorted(active.Keys), active.Keys) &&
      (Settled(n, scan, sorted) <==>
        BindAll(n, sorted(n.services.Keys), t.dependencies, active, sorted(active.Keys)) == Some(t.dependencies))
  {
    var app := scan.found.application;
    var t := n.services[scan.name];
    var active := Active(t, scan.facts, app);
    assert SortedIs(sorted(active.Keys), active.Keys);
    SecondLook(m, scan, sorted);
    var deps := BindAll(n, sorted(n.services.Keys), t.dependencies, active, sorted(active.Keys));
    if deps == Some(t.dependencies) {
      forall env | env in n.environments
        ensures RoutesOf(env, n.environments[env], scan.name, {}, t.dependencies) == n.environments[env]
      {
        RoutesSettle(env, m.environments[env], scan.name, Removed(m, m.services[scan.name], active), t.dependencies);
      }
      var again := SyncOne(n, scan, sorted).value;
      assert again.services == n.services;
      assert again.environments == n.environments;
    } else if deps.Some? {
      assert SyncOne(n, scan, sorted).value.services[scan.name].dependencies != t.dependencies;
    }
  }

  // ---- Whole runs ----

  predicate DistinctNames(scans: seq<Scan>) {
    forall i, j | 0 <= i < j < |scans| :: scans[i].name != scans[j].name
  }

  /** Synchronizing another service leaves a settled one settled. */
  lemma StaysSettled(m: Manifest, scan: Scan, other: Scan, sorted: set<string> -> seq<string>)
    requires Sorts(sorted) && SyncOne(m, other, sorted).Some? && scan.name != other.name
    ensures var n := SyncOne(m, other, sorted).value;
      (Settled(n, scan, sorted) <==> Settled(m, scan, sorted))
        && (Nameless(n, scan, sorted) <==> Nameless(m, scan, sorted))
  {
    var n := SyncOne(m, other, sorted).value;
    SyncKeepsFacts(m, other, sorted);
    if scan.name in m.services && scan.found.Read? {
      var s, app := m.services[scan.name], scan.found.application;
      var active := Active(s, scan.facts, app);
      if "" in active { SameProviders(m, n, sorted(m.services.Keys), "", active[""]); }
      SameStep(m, n, scan, sorted);
    }
  }

  /** A service looks the same from two manifests that agree on it and on the facts about the others. */
  lemma SameStep(m: Manifest, n: Manifest, scan: Scan, sorted: set<string> -> seq<string>)
    requires Sorts(sorted) && SameFacts(m, n) && scan.name in m.services && scan.found.Read?
    requires n.services[scan.name] == m.services[scan.name] && n.environments.Keys == m.environments.Keys
    requires forall env | env in m.environments ::
      (scan.name in n.environments[env] <==> scan.name in m.environments[env])
      && (scan.name in m.environments[env] ==> n.environments[env][scan.name] == m.environments[env][scan.name])
    ensures Settled(n, scan, sorted) <==> Settled(m, scan, sorted)
  {
    var s, app := m.services[scan.name], scan.found.application;
    if WellTyped(s, scan.facts, app) {
      var active := Active(s, scan.facts, app);
      var names, bindings := sorted(m.services.Keys), sorted(active.Keys);
      assert SortedIs(bindings, active.Keys);
      forall alias | alias in s.dependencies
        ensures Dropped(n, active, alias, s.dependencies[alias]) <==> Dropped(m, active, alias, s.dependencies[alias])
      {
        var d := s.dependencies[alias];
        SameIdentity(m, n, if d.localService == "" then alias else d.localService);
      }
      assert Kept(n, s, active) == Kept(m, s, active) && Removed(n, s, active) == Removed(m, s, active);
      SameBindings(m, n, names, Kept(m, s, active), active, bindings);
      var deps := BindAll(m, names, Kept(m, s, active), active, bindings);
      if deps.Some? {
        var t := s.(consumerBindings := bindings, bindings := [], dependencies := deps.value);
        var removed := Removed(m, s, active);
        UnchangedExactly(m, scan, t, removed, deps.value, SyncOne(m, scan, sorted).value);
        UnchangedExactly(n, scan, t, removed, deps.value, SyncOne(n, scan, sorted).value);
        forall env | env in m.environments
          ensures OwnerSettled(env, n.environments[env], scan.name, removed, deps.value) <==>
            OwnerSettled(env, m.environments[env], scan.name, removed, deps.value)
        {
        }
      }
    }
  }

  /** The routes of one owner are already what synchronization makes of them. */
  predicate OwnerSettled(env: string, routes: Routes, name: string, removed: set<string>,
    deps: map<string, Dependency>) {
    Routed(env, EntriesOf(routes, name), removed, deps) == EntriesOf(routes, name)
  }

  lemma UnchangedExactly(m: Manifest, scan: Scan, t: Service, removed: set<string>, deps: map<string, Dependency>,
    n: Manifest)
    requires scan.name in m.services
    requires n == Manifest(m.services[scan.name := t], map env | env in m.environments ::
      RoutesOf(env, m.environments[env], scan.name, removed, deps))
    ensures n == m <==> m.services[scan.name] == t && forall env | env in m.environments ::
      OwnerSettled(env, m.environments[env], scan.name, removed, deps)
  {
    forall env | env in m.environments
      ensures RoutesOf(env, m.environments[env], scan.name, removed, deps) == m.environments[env]
          <==> OwnerSettled(env, m.environments[env], scan.name, removed, deps)
    {
      var routes := m.environments[env];
      var entries := Routed(env, EntriesOf(routes, scan.name), removed, deps);
      if scan.name in routes { assert routes[scan.name := routes[scan.name]] == routes; }
    }
    assert m.services[scan.name := m.services[scan.name]] == m.services;
    if n == m {
      assert m.services[scan.name] == n.services[scan.name] == t;
      forall env | env in m.environments
        ensures RoutesOf(env, m.environments[env], scan.name, removed, deps) == m.environments[env]
      {
        assert n.environments[env] == m.environments[env];
      }
    }
    if m.services[scan.name] == t && forall env | env in m.environments ::
      OwnerSettled(env, m.environments[env], scan.name, removed, deps) {
      assert n.environments == m.environments;
    }
  }

  /** After a run every service is settled, the ones with a nameless provided binding excepted. */
  lemma {:induction false} RunSettles(m: Manifest, scans: seq<Scan>, sorted: set<string> -> seq<string>, i: nat)
    requires Sorts(sorted) && DistinctNames(scans) && SyncAll(m, scans, sorted).Some? && "" !in m.services
    requires i < |scans|
    ensures var n := SyncAll(m, scans, sorted).value;
      "" !in n.services && (Settled(n, scans[i], sorted) <==> !Nameless(n, scans[i], sorted))
  {
    hide SyncOne, Settled, Nameless;
    var k := |scans| - 1;
    var before := SyncAll(m, scans[..k], sorted).value;
    RunKeepsNames(m, scans[..k], sorted);
    SyncKeepsFacts(before, scans[k], sorted);
    if i == k {
      SecondRunSettles(before, scans[k], sorted);
    } else {
      assert scans[..k][i] == scans[i];
      RunSettles(m, scans[..k], sorted, i);
      StaysSettled(before, scans[i], scans[k], sorted);
    }
  }

  lemma {:induction false} RunKeepsNames(m: Manifest, scans: seq<Scan>, sorted: set<string> -> seq<string>)
    requires Sorts(sorted) && SyncAll(m, scans, sorted).Some?
    ensures var n := SyncAll(m, scans, sorted).value;
      n.services.Keys == m.services.Keys && n.environments.Keys == m.environments.Keys
  {
    if scans != [] {
      RunKeepsNames(m, scans[..|scans| - 1], sorted);
      SyncKeepsFacts(SyncAll(m, scans[..|scans| - 1], sorted).value, scans[|scans| - 1], sorted);
    }
  }

  /** Two manifests agree on one service and its routes. */
  ghost predicate Alike(m: Manifest, n: Manifest, x: string) {
    && (x in m.services <==> x in n.services) && (x in m.services ==> n.services[x] == m.services[x])
    && n.environments.Keys == m.environments.Keys
    && forall env | env in m.environments ::
      && (x in n.environments[env] <==> x in m.environments[env])
      && (x in m.environments[env] ==> n.environments[env][x] == m.environments[env][x])
  }

  lemma {:induction false} OthersAlike(m: Manifest, scans: seq<Scan>, sorted: set<string> -> seq<string>, x: string)
    requires Sorts(sorted) && SyncAll(m, scans, sorted).Some? && forall i | 0 <= i < |scans| :: scans[i].name != x
    ensures Alike(m, SyncAll(m, scans, sorted).value, x)
  {
    if scans != [] {
      OthersAlike(m, scans[..|scans| - 1], sorted, x);
      SyncKeepsFacts(SyncAll(m, scans[..|scans| - 1], sorted).value, scans[|scans| - 1], sorted);
    }
  }

  lemma AlikeEverywhere(m: Manifest, n: Manifest)
    requires forall x :: Alike(m, n, x)
    ensures m == n
  {
    assert Alike(m, n, "");
    forall x ensures x in m.services <==> x in n.services { assert Alike(m, n, x); }
    forall x | x in m.services ensures m.services[x] == n.services[x] { assert Alike(m, n, x); }
    assert m.services == n.services;
    forall env | env in m.environments ensures m.environments[env] == n.environments[env] {
      forall x ensures x in m.environments[env] <==> x in n.environments[env] { assert Alike(m, n, x); }
      forall x | x in m.environments[env]
        ensures m.environments[env][x] == n.environments[env][x]
      {
        assert Alike(m, n, x);
      }
    }
    assert m.environments == n.environments;
  }

  /** A run leaves a manifest as it was just when each of its services was settled before. */
  lemma {:induction false} RunIsIdle(m: Manifest, scans: seq<Scan>, sorted: set<string> -> seq<string>)
    requires Sorts(sorted) && DistinctNames(scans)
    ensures SyncAll(m, scans, sorted) == Some(m) <==> forall i | 0 <= i < |scans| :: Settled(m, scans[i], sorted)
  {
    if scans != [] {
      var k := |scans| - 1;
      var init := scans[..k];
      assert forall i | 0 <= i < k :: init[i] == scans[i];
      RunIsIdle(m, init, sorted);
      if SyncAll(m, scans, sorted) == Some(m) {
        var v := SyncAll(m, init, sorted).value;
        SyncKeepsFacts(v, scans[k], sorted);
        forall x ensures Alike(m, v, x) {
          if x == scans[k].name { OthersAlike(m, init, sorted, x); }
        }
        AlikeEverywhere(m, v);
      }
    }
  }

  /**
   Synchronization reaches a fixed point: a second run over its own result changes nothing, unless
   some application has a nameless mapping that counts as a binding and that a service provides.
   */
  lemma SecondRunIsIdle(m: Manifest, scans: seq<Scan>, sorted: set<string> -> seq<string>)
    requires Sorts(sorted) && DistinctNames(scans) && SyncAll(m, scans, sorted).Some? && "" !in m.services
    ensures var n := SyncAll(m, scans, sorted).value;
      SyncAll(n, scans, sorted) == Some(n) <==> forall i | 0 <= i < |scans| :: !Nameless(n, scans[i], sorted)
  {
    var n := SyncAll(m, scans, sorted).value;
    RunIsIdle(n, scans, sorted);
    forall i | 0 <= i < |scans| ensures Settled(n, scans[i], sorted) <==> !Nameless(n, scans[i], sorted) {
      RunSettles(m, scans, sorted, i);
    }
  }

  /** Such an application exists: its service is changed again by every further run. */
  lemma NamelessExample(sorted: set<string> -> seq<string>)
    requires Sorts(sorted)
    ensures var s := Service("", [""], 1, [], [], map[]);
      var m := Manifest(map["a" := s], map[]);
      var scan := Scan("a", {""}, Read(map["" := Mapping("")]));
      SyncOne(m, scan, sorted).Some? && !Settled(SyncOne(m, scan, sorted).value, scan, sorted)
  {
    var s := Service("", [""], 1, [], [], map[]);
    var m := Manifest(map["a" := s], map[]);
    var app := map["" := Mapping("")];
    var scan := Scan("a", {""}, Read(app));
    var active := Active(s, {""}, app);
    assert active == map["" := ""];
    OnlyName(sorted, "a");
    OnlyName(sorted, "");
    assert m.services.Keys == {"a"} && active.Keys == {""};
    assert Kept(m, s, active) == map[];
    assert Providers(m, ["a"], "", "") == ["a"] by { assert ["a"][..0] == []; }
    assert BindAll(m, ["a"], map[], active, [""]) == Bind(m, ["a"], map[], map[], "", "") by { assert [""][..0] == []; }
    SecondRunSettles(m, scan, sorted);
  }

  lemma OnlyName(sorted: set<string> -> seq<string>, x: string)
    requires Sorts(sorted)
    ensures sorted({x}) == [x]
  {
    SortedSize(sorted({x}), {x});
    assert x in sorted({x});
  }

  lemma {:induction false} SortedSize(q: seq<string>, s: set<string>)
    requires SortedIs(q, s)
    ensures |q| == |s|
  {
    if q == [] {
      assert s == {} by { assert forall x :: x !in s; }
    } else {
      var init, last := q[..|q| - 1], q[|q| - 1];
      assert q == init + [last];
      assert SortedIs(init, s - {last}) by { assert forall i | 0 <= i < |init| :: init[i] == q[i]; }
      SortedSize(init, s - {last});
    }
  }

  // ---- The loops ----

  /** Reads the bindings off the application, in whatever order its keys come. */
  method ActiveBindings(s: Service, facts: set<string>, app: Application)
    returns (ok: bool, active: map<string, string>)
    ensures ok <==> WellTyped(s, facts, app)
    ensures ok ==> active == Active(s, facts, app)
  {
    active := map[];
    var pending := app.Keys;
    while pending != {}
      invariant pending <= app.Keys
      invariant forall key | key in app && key !in pending && Candidate(s, facts, app, key) :: app[key].Mapping?
      invariant active.Keys == set key | key in app && key !in pending && app[key].Mapping?
        && Candidate(s, facts, app, key)
      invariant forall key | key in active :: key in app && app[key].Mapping? && active[key] == app[key].consulKey
    {
      var key := AnyOf(pending);
      if Candidate(s, facts, app, key) {
        if !app[key].Mapping? { return false, active; }
        active := active[key := app[key].consulKey];
      }
      pending := pending - {key};
    }
    ok := true;
  }

  /** Sorts the declared dependencies into those that stay and those that go. */
  method KeepDependencies(m: Manifest, s: Service, active: map<string, string>)
    returns (kept: map<string, Dependency>, bound: set<string>, removed: set<string>)
    ensures kept == Kept(m, s, active) && removed == Removed(m, s, active)
    ensures forall b :: b in bound <==> Bound(kept, b)
  {
    kept, bound, removed := map[], {}, {};
    var pending := s.dependencies.Keys;
    while pending != {}
      invariant pending <= s.dependencies.Keys
      invariant kept == map alias | alias in s.dependencies && alias !in pending
        && !Dropped(m, active, alias, s.dependencies[alias]) :: s.dependencies[alias]
      invariant removed == set alias | alias in s.dependencies && alias !in pending
        && Dropped(m, active, alias, s.dependencies[alias])
      invariant forall b :: b in bound <==> Bound(kept, b)
    {
      var alias := AnyOf(pending);
      var d := s.dependencies[alias];
      if Dropped(m, active, alias, d) {
        removed := removed + {alias};
      } else {
        ghost var before := kept;
        kept := kept[alias := d];
        if d.binding != "" { bound := bound + {d.binding}; }
        BoundMore(before, alias, d);
      }
      pending := pending - {alias};
    }
  }

  lemma BoundMore(deps: map<string, Dependency>, alias: string, d: Dependency)
    requires alias !in deps
    ensures forall b :: Bound(deps[alias := d], b) <==> Bound(deps, b) || (b != "" && d.binding == b)
  {
    var more := deps[alias := d];
    forall b ensures Bound(more, b) <==> Bound(deps, b) || (b != "" && d.binding == b) {
      if Bound(deps, b) {
        var x :| x in deps && deps[x].binding == b;
        assert more[x].binding == b;
      }
      if b != "" && d.binding == b { assert more[alias].binding == b; }
    }
  }

  /** Binds what is active and not yet bound, in sorted order. */
  method BindProviders(m: Manifest, names: seq<string>, kept: map<string, Dependency>, bound: set<string>,
    active: map<string, string>, bindings: seq<string>)
    returns (deps: Option<map<string, Dependency>>)
    requires (forall b | b in bindings :: b in active) && forall b :: b in bound <==> Bound(kept, b)
    ensures deps == BindAll(m, names, kept, active, bindings)
  {
    var updated := kept;
    for index := 0 to |bindings|
      invariant BindAll(m, names, kept, active, bindings[..index]) == Some(updated)
    {
      var binding := bindings[index];
      assert bindings[..index + 1][..index] == bindings[..index];
      var more := BindOne(m, names, kept, bound, updated, binding, active[binding]);
      if more.None? {
        PrefixBound(m, names, kept, active, bindings, index + 1);
        return None;
      }
      updated := more.value;
    }
    assert bindings[..|bindings|] == bindings;
    deps := Some(updated);
  }

  lemma {:induction false} PrefixBound(m: Manifest, names: seq<string>, kept: map<string, Dependency>,
    active: map<string, string>, bindings: seq<string>, i: nat)
    requires (forall b | b in bindings :: b in active) && i <= |bindings|
    requires BindAll(m, names, kept, active, bindings[..i]).None?
    ensures BindAll(m, names, kept, active, bindings).None?
  {
    if i == |bindings| { assert bindings[..i] == bindings; } else {
      assert bindings[..|bindings| - 1][..i] == bindings[..i];
      PrefixBound(m, names, kept, active, bindings[..|bindings| - 1], i);
    }
  }

  method BindOne(m: Manifest, names: seq<string>, ghost kept: map<string, Dependency>, bound: set<string>,
    deps: map<string, Dependency>, binding: string, identity: string)
    returns (more: Option<map<string, Dependency>>)
    requires forall b :: b in bound <==> Bound(kept, b)
    ensures more == Bind(m, names, kept, deps, binding, identity)
  {
    if binding in bound { return Some(deps); }
    var providers: seq<string> := [];
    for index := 0 to |names|
      invariant providers == Providers(m, names[..index], binding, identity)
    {
      assert names[..index + 1][..index] == names[..index];
      if Provides(m, names[index], binding, identity) { providers := providers + [names[index]]; }
    }
    assert names[..|names|] == names;
    if |providers| > 1 { return None; }
    if providers == [] { return Some(deps); }
    var provider := providers[0];
    if provider !in m.services || m.services[provider].rpcPort == 0 { return None; }
    var alias := provider;
    if alias in deps { alias := binding; }
    if alias in deps { return None; }
    more := Some(deps[alias := Dependency(provider, binding, "rpc", 0)]);
  }

  /** Rewrites the routes of a service in every environment. */
  method UpdateRoutes(environments: map<string, Routes>, name: string, removed: set<string>,
    deps: map<string, Dependency>) returns (updated: map<string, Routes>)
    ensures updated == map env | env in environments :: RoutesOf(env, environments[env], name, removed, deps)
  {
    updated := environments;
    var pending := environments.Keys;
    while pending != {}
      invariant pending <= environments.Keys && updated.Keys == environments.Keys
      invariant forall env | env in environments ::
        updated[env] == if env in pending then environments[env]
          else RoutesOf(env, environments[env], name, removed, deps)
    {
      var env := AnyOf(pending);
      var routes := updated[env];
      var entries := EntriesOf(routes, name) - removed;
      if env != LOCAL { entries := AddRemoteRoutes(entries, deps); }
      if name in routes || entries != map[] { updated := updated[env := routes[name := entries]]; }
      pending := pending - {env};
    }
  }

  /** Gives every bound dependency without a route a remote one. */
  method AddRemoteRoutes(entries: map<string, Resolution>, deps: map<string, Dependency>)
    returns (all: map<string, Resolution>)
    ensures all == (map alias | alias in deps && deps[alias].binding != "" && alias !in entries :: REMOTE) + entries
  {
    all := entries;
    var pending := deps.Keys;
    while pending != {}
      invariant pending <= deps.Keys
      invariant all == (map alias | alias in deps && alias !in pending && deps[alias].binding != ""
        && alias !in entries :: REMOTE) + entries
    {
      var alias := AnyOf(pending);
      if deps[alias].binding != "" && alias !in all { all := all[alias := REMOTE]; }
      pending := pending - {alias};
    }
  }

  /**
   Synchronizes one scan after the other. Although maps are walked in arbitrary order throughout,
   the result is the one `SyncAll` determines.
   */
  method SynchronizeApplicationDependencies(manifest: Manifest, scanned: seq<Scan>, sorted: set<string> -> seq<string>)
    returns (result: Option<Manifest>, changed: seq<string>)
    requires Sorts(sorted)
    ensures result == SyncAll(manifest, scanned, sorted)
    ensures result.Some? ==> forall name | name in manifest.services && name !in changed ::
      name in result.value.services && result.value.services[name] == manifest.services[name]
  {
    hide WellTyped, Active, Kept, Removed, BindAll, Sorts;
    var m := manifest;
    changed := [];
    for index := 0 to |scanned|
      invariant SyncAll(manifest, scanned[..index], sorted) == Some(m)
      invariant forall name | name in manifest.services && name !in changed ::
        name in m.services && m.services[name] == manifest.services[name]
    {
      var facts := scanned[index];
      assert scanned[..index + 1][..index] == scanned[..index];
      if SyncOne(m, facts, sorted).None? { PrefixSynced(manifest, scanned, sorted, index + 1); }
      if facts.name in m.services && !facts.found.Preserved? {
        if facts.found.Unreadable? { return None, changed; }
        var service := m.services[facts.name];
        var ok, active := ActiveBindings(service, facts.facts, facts.found.application);
        if !ok { return None, changed; }
        var bindings := sorted(active.Keys);
        SortsEvery(sorted, active.Keys);
        var kept, bound, removed := KeepDependencies(m, service, active);
        var deps := BindProviders(m, sorted(m.services.Keys), kept, bound, active, bindings);
        if deps.None? { return None, changed; }
        var updated := service.(consumerBindings := bindings, bindings := [], dependencies := deps.value);
        var environments := UpdateRoutes(m.environments, facts.name, removed, deps.value);
        if updated != service || environments != m.environments { changed := changed + [facts.name]; }
        assert m.services[facts.name := service] == m.services;
        m := Manifest(m.services[facts.name := updated], environments);
      }
    }
    assert scanned[..|scanned|] == scanned;
    result := Some(m);
  }

  lemma SortsEvery(sorted: set<string> -> seq<string>, s: set<string>)
    requires Sorts(sorted)
    ensures SortedIs(sorted(s), s)
  {
  }

  lemma {:induction false} PrefixSynced(m: Manifest, scans: seq<Scan>, sorted: set<string> -> seq<string>, i: nat)
    requires Sorts(sorted) && i <= |scans| && SyncAll(m, scans[..i], sorted).None?
    ensures SyncAll(m, scans, sorted).None?
  {
    if i == |scans| { assert scans[..i] == scans; } else {
      assert scans[..|scans| - 1][..i] == scans[..i];
      PrefixSynced(m, scans[..|scans| - 1], sorted, i);
    }
  }
}
