/** Planning the configuration of one service: its patches layer by layer, and what the repository may lend it. */
module ConfigPlan {
  import opened Collections
  import opened Options
  import opened YamlNodes
  import opened YamlPaths
  import opened YamlLayers
  import BindingFallbacks
  import DependencySync
  import RpcRoutes

  /** What a routing rule writes at a dependency's binding, with its templates expanded for the dependency. */
  datatype Rule = Rule(mode: string, value: string -> Tree)

  datatype Policy = Policy(patches: seq<Patch>, servers: map<string, seq<Patch>>, localRule: Rule, remoteRule: Rule)

  /** A dependency and the mode it was resolved to, empty when it was not. */
  datatype Dependency = Dependency(binding: string, resolved: string)

  datatype Service = Service(kinds: seq<string>, patches: seq<Patch>, consumerBindings: seq<string>,
    dependencies: map<string, Dependency>)

  datatype Route = Route(dependency: string, binding: string, local: bool, mode: string)

  const NOTHING := Tree(ScalarKind, "!!str", "", [])

  predicate Rewrites(mode: string) {
    mode != "" && mode != "preserve"
  }

  function RuleFor(policy: Policy, d: Dependency): Rule {
    if d.resolved == "local" then policy.localRule else policy.remoteRule
  }

  function RouteOf(policy: Policy, name: string, d: Dependency): Route {
    Route(name, d.binding, d.resolved == "local", RuleFor(policy, d).mode)
  }

  // ---- The layers ----

  function ServerPatches(servers: map<string, seq<Patch>>, kinds: seq<string>): seq<Patch> {
    if kinds == [] then []
    else
      var kind := kinds[|kinds| - 1];
      ServerPatches(servers, kinds[..|kinds| - 1]) + if kind in servers then servers[kind] else []
  }

  function RoutesOf(policy: Policy, service: Service, names: seq<string>): seq<Route>
    requires forall name | name in names :: name in service.dependencies
  {
    if names == [] then []
    else
      var name := names[|names| - 1];
      var d := service.dependencies[name];
      RoutesOf(policy, service, names[..|names| - 1]) + if d.binding == "" then [] else [RouteOf(policy, name, d)]
  }

  function RoutePatches(policy: Policy, service: Service, names: seq<string>, file: string,
    split: string -> Path): seq<Patch>
    requires forall name | name in names :: name in service.dependencies
  {
    if names == [] then []
    else
      var name := names[|names| - 1];
      var d := service.dependencies[name];
      var rule := RuleFor(policy, d);
      RoutePatches(policy, service, names[..|names| - 1], file, split)
      + if d.binding == "" || !Rewrites(rule.mode) then [] else [Patch(file, split(d.binding), rule.value(name), false)]
  }

  function DisabledPath(binding: string, split: string -> Path): Path {
    split(binding + ".discovType")
  }

  /** Empties the discovery type of every disabled binding that is there. */
  function DisabledPatches(file: string, disabled: seq<string>, split: string -> Path): seq<Patch> {
    if disabled == [] then []
    else
      DisabledPatches(file, disabled[..|disabled| - 1], split)
      + [Patch(file, DisabledPath(disabled[|disabled| - 1], split), NOTHING, true)]
  }

  function Layers(policy: Policy, service: Service, names: seq<string>, disabled: seq<string>, file: string,
    split: string -> Path): seq<seq<Patch>>
    requires forall name | name in names :: name in service.dependencies
  {
    [policy.patches, ServerPatches(policy.servers, service.kinds), service.patches,
     RoutePatches(policy, service, names, file, split), DisabledPatches(file, disabled, split)]
  }

  function Flatten(layers: seq<seq<Patch>>): (r: seq<Patch>)
    ensures (forall k | 0 <= k < |layers| :: PatchesFit(layers[k])) <==> PatchesFit(r)
  {
    if layers == [] then []
    else
      var init, last := layers[..|layers| - 1], layers[|layers| - 1];
      FitsAdded(Flatten(init), last);
      assert (forall k | 0 <= k < |layers| :: PatchesFit(layers[k])) <==>
        (forall k | 0 <= k < |init| :: PatchesFit(init[k])) && PatchesFit(last);
      Flatten(init) + last
  }

  lemma FitsAdded(a: seq<Patch>, b: seq<Patch>)
    ensures PatchesFit(a + b) <==> PatchesFit(a) && PatchesFit(b)
  {
    if PatchesFit(a + b) {
      assert forall i | 0 <= i < |a| :: (a + b)[i] == a[i];
      assert forall i | 0 <= i < |b| :: (a + b)[|a| + i] == b[i];
    }
  }

  lemma FlattenMore(layers: seq<seq<Patch>>, l: seq<Patch>)
    ensures Flatten(layers + [l]) == Flatten(layers) + l
  {
    assert (layers + [l])[..|layers|] == layers;
  }

  lemma FlattenFive(a: seq<Patch>, b: seq<Patch>, c: seq<Patch>, d: seq<Patch>, e: seq<Patch>)
    ensures Flatten([a, b, c, d, e]) == a + b + c + d + e
  {
    hide Flatten;
    assert [a, b, c, d] + [e] == [a, b, c, d, e] && [a, b, c] + [d] == [a, b, c, d];
    assert [a, b] + [c] == [a, b, c] && [a] + [b] == [a, b];
    FlattenMore([a, b, c, d], e);
    FlattenMore([a, b, c], d);
    FlattenMore([a, b], c);
    FlattenMore([a], b);
    assert Flatten([a]) == a by { OneLayer(a); }
  }

  lemma OneLayer(a: seq<Patch>)
    ensures Flatten([a]) == a
  {
    assert Flatten([a]) == [] + a;
  }

  method AppendServers(before: seq<Patch>, servers: map<string, seq<Patch>>, kinds: seq<string>)
    returns (patches: seq<Patch>)
    ensures patches == before + ServerPatches(servers, kinds)
  {
    patches := before;
    for index := 0 to |kinds|
      invariant patches == before + ServerPatches(servers, kinds[..index])
    {
      assert kinds[..index + 1][..index] == kinds[..index];
      if kinds[index] in servers { patches := patches + servers[kinds[index]]; }
    }
    assert kinds[..|kinds|] == kinds;
  }

  method AppendRoutes(before: seq<Patch>, policy: Policy, service: Service, names: seq<string>, file: string,
    split: string -> Path)
    returns (patches: seq<Patch>, routes: seq<Route>)
    requires forall name | name in names :: name in service.dependencies
    ensures patches == before + RoutePatches(policy, service, names, file, split)
    ensures routes == RoutesOf(policy, service, names)
  {
    patches, routes := before, [];
    for index := 0 to |names|
      invariant routes == RoutesOf(policy, service, names[..index])
      invariant patches == before + RoutePatches(policy, service, names[..index], file, split)
    {
      var name := names[index];
      assert names[..index + 1][..index] == names[..index];
      var d := service.dependencies[name];
      if d.binding != "" {
        var rule := RuleFor(policy, d);
        routes := routes + [RouteOf(policy, name, d)];
        if Rewrites(rule.mode) { patches := patches + [Patch(file, split(d.binding), rule.value(name), false)]; }
      }
    }
    assert names[..|names|] == names;
  }

  method AppendDisabled(before: seq<Patch>, file: string, disabled: seq<string>, split: string -> Path)
    returns (patches: seq<Patch>)
    ensures patches == before + DisabledPatches(file, disabled, split)
  {
    patches := before;
    for index := 0 to |disabled|
      invariant patches == before + DisabledPatches(file, disabled[..index], split)
    {
      assert disabled[..index + 1][..index] == disabled[..index];
      patches := patches + [Patch(file, DisabledPath(disabled[index], split), NOTHING, true)];
    }
    assert disabled[..|disabled|] == disabled;
  }

  /** Collects the patches of policy, servers, service, routes and disabled bindings, in this order. */
  method PlanPatches(policy: Policy, service: Service, disabled: seq<string>, file: string, split: string -> Path,
    sorted: set<string> -> seq<string>)
    returns (patches: seq<Patch>, routes: seq<Route>)
    requires DependencySync.Sorts(sorted)
    ensures DependencySync.SortedIs(sorted(service.dependencies.Keys), service.dependencies.Keys)
    ensures patches == Flatten(Layers(policy, service, sorted(service.dependencies.Keys), disabled, file, split))
    ensures routes == RoutesOf(policy, service, sorted(service.dependencies.Keys))
    ensures forall r :: r in routes <==>
      && r.dependency in service.dependencies
      && var d := service.dependencies[r.dependency];
      && d.binding != "" && r.binding == d.binding && (r.local <==> d.resolved == "local")
      && r.mode == if d.resolved == "local" then policy.localRule.mode else policy.remoteRule.mode
  {
    DependencySync.SortsEvery(sorted, service.dependencies.Keys);
    var names := sorted(service.dependencies.Keys);
    hide Flatten, RoutePatches, ServerPatches, DisabledPatches, RoutesOf, DependencySync.Sorts;
    forall r ensures r in RoutesOf(policy, service, names) <==>
      && r.dependency in service.dependencies && service.dependencies[r.dependency].binding != ""
      && r == RouteOf(policy, r.dependency, service.dependencies[r.dependency])
    {
      RoutesExactly(policy, service, names, r);
    }
    patches := AppendServers(policy.patches, policy.servers, service.kinds);
    patches, routes := AppendRoutes(patches + service.patches, policy, service, names, file, split);
    patches := AppendDisabled(patches, file, disabled, split);
    FlattenFive(policy.patches, ServerPatches(policy.servers, service.kinds), service.patches,
      RoutePatches(policy, service, names, file, split), DisabledPatches(file, disabled, split));
  }

  // ---- A later layer wins ----

  lemma {:induction false} FlattenAround(layers: seq<seq<Patch>>, k: nat)
    requires k < |layers|
    ensures Flatten(layers) == Flatten(layers[..k]) + layers[k] + Flatten(layers[k + 1..])
  {
    hide PatchesFit;
    var n := |layers| - 1;
    if k == n {
      assert layers[k + 1..] == [];
    } else {
      hide Flatten;
      var init, rest := layers[..n], layers[k + 1..n];
      LayersAround(layers, k);
      FlattenAround(init, k);
      FlattenMore(init, layers[n]);
      FlattenMore(rest, layers[n]);
      Regroup(Flatten(layers[..k]) + layers[k], Flatten(rest), layers[n]);
    }
  }

  lemma LayersAround(layers: seq<seq<Patch>>, k: nat)
    requires k < |layers| - 1
    ensures var n := |layers| - 1;
      layers[..n][..k] == layers[..k] && layers[..n][k] == layers[k] && layers[..n][k + 1..] == layers[k + 1..n]
      && layers[..n] + [layers[n]] == layers && layers[k + 1..n] + [layers[n]] == layers[k + 1..]
  {
  }

  lemma Regroup(a: seq<Patch>, b: seq<Patch>, c: seq<Patch>)
    ensures a + b + c == a + (b + c)
  {
  }

  lemma {:induction false} FlattenFinds(layers: seq<seq<Patch>>, x: Patch) returns (l: nat, j: nat)
    requires x in Flatten(layers)
    ensures l < |layers| && j < |layers[l]| && layers[l][j] == x
  {
    var n := |layers| - 1;
    if x in layers[n] {
      l := n;
      j :| 0 <= j < |layers[n]| && layers[n][j] == x;
    } else {
      l, j := FlattenFinds(layers[..n], x);
    }
  }

  /** Patch (l, j) comes after patch (k, i): in a later layer, or later in the same one. */
  predicate Later(l: nat, j: nat, k: nat, i: nat) {
    k < l || (k == l && i < j)
  }

  predicate LaterApart(layers: seq<seq<Patch>>, k: nat, i: nat, l: nat, j: nat)
    requires k < |layers| && i < |layers[k]| && l < |layers| && j < |layers[l]|
  {
    Later(l, j, k, i) ==> !Overlap(layers[k][i].file, layers[k][i].path, layers[l][j].file, layers[l][j].path)
  }

  /** An unconditional patch is what the file says in the end, unless a later patch or layer overlaps it. */
  lemma LaterLayerWins(fs: Files, layers: seq<seq<Patch>>, d: Decoder, k: nat, i: nat)
    requires k < |layers| && i < |layers[k]| && !layers[k][i].ifPresent
    requires (forall l | 0 <= l < |layers| :: PatchesFit(layers[l])) && Documents(fs)
    requires ApplyPatches(fs, Flatten(layers), d).Some?
    requires forall l, j | 0 <= l < |layers| && 0 <= j < |layers[l]| :: LaterApart(layers, k, i, l, j)
    ensures var us := ApplyPatches(fs, Flatten(layers), d).value;
      layers[k][i].file in us && Read(us[layers[k][i].file], layers[k][i].path) == At(layers[k][i].value)
  {
    hide Overlap, Flatten, ApplyPatches, PatchesFit, Documents, Read;
    var ps, before, rest := Flatten(layers), Flatten(layers[..k]), Flatten(layers[k + 1..]);
    FlattenAround(layers, k);
    var at := |before| + i;
    assert ps[at] == layers[k][i];
    forall n | at < n < |ps| ensures !Overlap(ps[at].file, ps[at].path, ps[n].file, ps[n].path) {
      var l, j := k, n - |before|;
      if j >= |layers[k]| {
        assert ps[n] == rest[j - |layers[k]|];
        l, j := FlattenFinds(layers[k + 1..], ps[n]);
        l := l + k + 1;
      }
      assert layers[l][j] == ps[n];
      assert LaterApart(layers, k, i, l, j);
    }
    PrefixFits(ps, at);
    if ApplyPatches(fs, ps[..at], d).None? { PrefixPatches(fs, ps, d, at); }
    LaterPatchWins(fs, ps, d, at);
  }

  lemma PrefixFits(ps: seq<Patch>, n: nat)
    requires PatchesFit(ps) && n <= |ps|
    ensures PatchesFit(ps[..n])
  {
  }

  // ---- Disabled bindings have the last word ----

  /** A disabled place is empty, or not there. */
  predicate Emptied(t: Tree, p: Path)
    requires |p| > 0
  {
    Read(t, p).At? ==> Read(t, p).tree == NOTHING
  }

  /** Everything on the way to a value is a mapping. */
  lemma {:induction false} MappingsOnTheWay(t: Tree, p: Path, q: Path)
    requires 0 < |q| < |p| && q <= p && Read(t, p).At?
    ensures Read(t, q).At? && Read(t, q).tree.kind == MappingKind
    decreases |q|
  {
    if |q| > 1 { MappingsOnTheWay(t.children[Position(t.children, p[0], 0) + 1], p[1..], q[1..]); }
  }

  /** Nothing is below a value that is no mapping. */
  lemma {:induction false} NothingBelow(t: Tree, p: Path, q: Path)
    requires 0 < |p| < |q| && p <= q && Read(t, p).At? && Read(t, p).tree.kind != MappingKind
    ensures Read(t, q) == Blocked
    decreases |p|
  {
    if |p| > 1 { NothingBelow(t.children[Position(t.children, p[0], 0) + 1], p[1..], q[1..]); }
  }

  /** Emptying what is there at `p` leaves other emptied places emptied, and lets nothing appear anywhere. */
  lemma EmptyingKeeps(t: Tree, p: Path, q: Path)
    requires |p| > 0 && |q| > 0 && Paired(t) && t.kind == MappingKind && Read(t, p).At?
    requires Write(t, p, NOTHING, Patching).Some?
    ensures var u := Write(t, p, NOTHING, Patching).value;
      && Emptied(u, p)
      && (Emptied(t, q) ==> Emptied(u, q))
      && (Read(u, q).At? ==> Read(t, q).At?)
  {
    var u := Write(t, p, NOTHING, Patching).value;
    ReadBack(t, p, NOTHING, Patching);
    if !Comparable(p, q) {
      ReadElsewhere(t, p, NOTHING, Patching, q);
    } else if p != q && p <= q {
      NothingBelow(u, p, q);
    } else if p != q {
      MappingsOnTheWay(t, p, q);
      MappingsOnTheWay(u, p, q);
    }
  }

  lemma DisabledStep(fs: Files, p: Patch, d: Decoder, q: Path)
    requires |p.path| > 0 && |q| > 0 && Documents(fs) && p == Patch(p.file, p.path, NOTHING, true)
    requires PatchFile(fs, p, d).Some?
    ensures p.file in fs && PatchFile(fs, p, d).value.Keys == fs.Keys
    ensures var t, u := fs[p.file], PatchFile(fs, p, d).value[p.file];
      && Emptied(u, p.path)
      && (Emptied(t, q) ==> Emptied(u, q))
      && (Read(u, q).At? ==> Read(t, q).At?)
  {
    if Read(fs[p.file], p.path).At? { EmptyingKeeps(fs[p.file], p.path, q); }
  }

  ghost predicate Splits(split: string -> Path) {
    forall s :: |split(s)| > 0
  }

  lemma {:induction false} DisabledFit(before: seq<Patch>, file: string, disabled: seq<string>, split: string -> Path)
    requires PatchesFit(before) && Splits(split)
    ensures PatchesFit(before + DisabledPatches(file, disabled, split))
  {
    if disabled == [] {
      assert before + [] == before;
    } else {
      var n := |disabled| - 1;
      DisabledFit(before, file, disabled[..n], split);
      var last := [Patch(file, DisabledPath(disabled[n], split), NOTHING, true)];
      FitsAdded(before + DisabledPatches(file, disabled[..n], split), last);
      assert before + DisabledPatches(file, disabled[..n], split) + last ==
        before + DisabledPatches(file, disabled, split);
    }
  }

  /**
   Whatever the earlier layers wrote: once the patches of the disabled bindings went through, each of
   their discovery types is empty or not there, and nothing is there that was not there before them.
   */
  lemma {:induction false} DisabledHaveLastWord(fs: Files, before: seq<Patch>, file: string, disabled: seq<string>,
    split: string -> Path, d: Decoder, q: Path)
    requires PatchesFit(before) && Splits(split) && Documents(fs) && |q| > 0 && disabled != []
    requires PatchesFit(before + DisabledPatches(file, disabled, split))
    requires ApplyPatches(fs, before + DisabledPatches(file, disabled, split), d).Some?
    ensures var us := ApplyPatches(fs, before + DisabledPatches(file, disabled, split), d).value;
      && file in us && ApplyPatches(fs, before, d).Some? && file in ApplyPatches(fs, before, d).value
      && (forall b | b in disabled :: Emptied(us[file], DisabledPath(b, split)))
      && (Read(us[file], q).At? ==> Read(ApplyPatches(fs, before, d).value[file], q).At?)
  {
    hide PatchFile, PatchesFit, Documents, Emptied, Read;
    var n := |disabled| - 1;
    var init := DisabledPatches(file, disabled[..n], split);
    var ps := before + DisabledPatches(file, disabled, split);
    assert ps[..|ps| - 1] == before + init;
    DisabledFit(before, file, disabled[..n], split);
    var middle := ApplyPatches(fs, before + init, d).value;
    PatchesKeepDocuments(fs, before + init, d);
    var last := ps[|ps| - 1];
    assert last == Patch(file, DisabledPath(disabled[n], split), NOTHING, true);
    DisabledStep(middle, last, d, q);
    if n == 0 {
      assert before + init == before;
    } else {
      DisabledHaveLastWord(fs, before, file, disabled[..n], split, d, q);
    }
    forall b | b in disabled ensures Emptied(ApplyPatches(fs, ps, d).value[file], DisabledPath(b, split)) {
      if b != disabled[n] {
        assert b in disabled[..n];
        DisabledStep(middle, last, d, DisabledPath(b, split));
      }
    }
  }

  /** In a planned configuration every disabled binding ends up without a discovery type. */
  lemma PlannedDisabled(fs: Files, policy: Policy, service: Service, names: seq<string>, disabled: seq<string>,
    file: string, split: string -> Path, d: Decoder, b: string)
    requires (forall name | name in names :: name in service.dependencies) && b in disabled && Splits(split)
    requires Documents(fs)
    requires PatchesFit(Flatten(Layers(policy, service, names, disabled, file, split)))
    requires ApplyPatches(fs, Flatten(Layers(policy, service, names, disabled, file, split)), d).Some?
    ensures var us := ApplyPatches(fs, Flatten(Layers(policy, service, names, disabled, file, split)), d).value;
      file in us && Emptied(us[file], DisabledPath(b, split))
  {
    hide Flatten, PatchesFit, RoutePatches, ServerPatches, DisabledPatches;
    var server, routed := ServerPatches(policy.servers, service.kinds),
      RoutePatches(policy, service, names, file, split);
    var before := policy.patches + server + service.patches + routed;
    FlattenFive(policy.patches, server, service.patches, routed, DisabledPatches(file, disabled, split));
    FitsAdded(before, DisabledPatches(file, disabled, split));
    DisabledHaveLastWord(fs, before, file, disabled, split, d, DisabledPath(b, split));
  }

  // ---- What the planned configuration reads ----

  /** The dependency's binding is written by the rule that applies to it. */
  predicate Rerouted(policy: Policy, d: Dependency) {
    && d.binding != ""
    && ((d.resolved == "local" && policy.localRule.mode !in {"", "preserve"})
        || (d.resolved != "local" && policy.remoteRule.mode !in {"", "preserve"}))
  }

  /** No rerouted dependency and no disabled binding overlaps this place. */
  ghost predicate Spared(f: string, p: Path, policy: Policy, service: Service, names: seq<string>,
    disabled: seq<string>, file: string, split: string -> Path)
    requires forall name | name in names :: name in service.dependencies
  {
    && (forall name | name in names && Rerouted(policy, service.dependencies[name]) ::
          !Overlap(f, p, file, split(service.dependencies[name].binding)))
    && forall b | b in disabled :: !Overlap(f, p, file, split(b + ".discovType"))
  }

  ghost predicate ApartFrom(x: Patch, ps: seq<Patch>) {
    forall y | y in ps :: !Overlap(x.file, x.path, y.file, y.path)
  }

  lemma LastWins(fs: Files, before: seq<Patch>, x: Patch, after: seq<Patch>, d: Decoder)
    requires PatchesFit(before + [x] + after) && Documents(fs) && !x.ifPresent
    requires ApplyPatches(fs, before + [x] + after, d).Some? && ApartFrom(x, after)
    ensures var us := ApplyPatches(fs, before + [x] + after, d).value;
      x.file in us && |x.path| > 0 && Read(us[x.file], x.path) == At(x.value)
  {
    hide Overlap, ApplyPatches, PatchesFit, Documents, Read;
    var ps, at := before + [x] + after, |before|;
    PrefixFits(ps, at);
    assert ps[at] == x;
    assert |x.path| > 0 by { FitsAt(ps, at); }
    if ApplyPatches(fs, ps[..at], d).None? { PrefixPatches(fs, ps, d, at); }
    forall n | at < n < |ps| ensures !Overlap(ps[at].file, ps[at].path, ps[n].file, ps[n].path) {
      assert ps[n] == after[n - at - 1];
    }
    LaterPatchWins(fs, ps, d, at);
  }

  lemma FitsAt(ps: seq<Patch>, i: nat)
    requires PatchesFit(ps) && i < |ps|
    ensures |ps[i].path| > 0
  {
  }

  lemma {:induction false} RoutesApart(x: Patch, policy: Policy, service: Service, names: seq<string>, file: string,
    split: string -> Path)
    requires forall name | name in names :: name in service.dependencies
    requires forall name | name in names && Rerouted(policy, service.dependencies[name]) ::
      !Overlap(x.file, x.path, file, split(service.dependencies[name].binding))
    ensures ApartFrom(x, RoutePatches(policy, service, names, file, split))
  {
    if names != [] {
      assert names[|names| - 1] in names;
      RoutesApart(x, policy, service, names[..|names| - 1], file, split);
    }
  }

  lemma {:induction false} DisabledApart(x: Patch, disabled: seq<string>, file: string, split: string -> Path)
    requires forall b | b in disabled :: !Overlap(x.file, x.path, file, split(b + ".discovType"))
    ensures ApartFrom(x, DisabledPatches(file, disabled, split))
  {
    if disabled != [] { DisabledApart(x, disabled[..|disabled| - 1], file, split); }
  }

  lemma {:induction false} ServersApart(x: Patch, servers: map<string, seq<Patch>>, kinds: seq<string>)
    requires forall k | k in kinds && k in servers :: ApartFrom(x, servers[k])
    ensures ApartFrom(x, ServerPatches(servers, kinds))
  {
    if kinds != [] {
      assert kinds[|kinds| - 1] in kinds;
      ServersApart(x, servers, kinds[..|kinds| - 1]);
    }
  }

  lemma {:induction false} RoutesSplit(policy: Policy, service: Service, names: seq<string>, file: string,
    split: string -> Path, i: nat)
    requires (forall name | name in names :: name in service.dependencies) && i < |names|
    ensures RoutePatches(policy, service, names, file, split) ==
      RoutePatches(policy, service, names[..i], file, split)
      + RoutePatches(policy, service, [names[i]], file, split)
      + RoutePatches(policy, service, names[i + 1..], file, split)
  {
    var n := |names| - 1;
    RoutesStep(policy, service, names, file, split);
    hide RoutePatches;
    if i == n {
      NoRoutes(policy, service, names[i + 1..], file, split);
    } else {
      var rest := names[i + 1..];
      RoutesSplit(policy, service, names[..n], file, split, i);
      NamesAround(names, i);
      RoutesStep(policy, service, rest, file, split);
      Regroup(RoutePatches(policy, service, names[..i], file, split)
        + RoutePatches(policy, service, [names[i]], file, split),
        RoutePatches(policy, service, rest[..|rest| - 1], file, split),
        RoutePatches(policy, service, [names[n]], file, split));
    }
  }

  lemma NamesAround(names: seq<string>, i: nat)
    requires i < |names| - 1
    ensures var n, rest := |names| - 1, names[i + 1..];
      names[..n][..i] == names[..i] && names[..n][i] == names[i] && names[..n][i + 1..] == rest[..|rest| - 1]
      && rest[|rest| - 1] == names[n]
  {
  }

  lemma NoRoutes(policy: Policy, service: Service, names: seq<string>, file: string, split: string -> Path)
    requires names == []
    ensures RoutePatches(policy, service, names, file, split) == []
  {
  }

  lemma RoutesStep(policy: Policy, service: Service, names: seq<string>, file: string, split: string -> Path)
    requires (forall name | name in names :: name in service.dependencies) && names != []
    ensures RoutePatches(policy, service, names, file, split) ==
      RoutePatches(policy, service, names[..|names| - 1], file, split)
      + RoutePatches(policy, service, [names[|names| - 1]], file, split)
  {
    assert [names[|names| - 1]][..0] == [];
  }

  lemma {:induction false} ServersSplit(servers: map<string, seq<Patch>>, kinds: seq<string>, k: nat)
    requires k < |kinds| && kinds[k] in servers
    ensures ServerPatches(servers, kinds) ==
      ServerPatches(servers, kinds[..k]) + servers[kinds[k]] + ServerPatches(servers, kinds[k + 1..])
  {
    var n := |kinds| - 1;
    if k == n {
      assert kinds[k + 1..] == [];
    } else {
      ServersSplit(servers, kinds[..n], k);
      assert kinds[..n][..k] == kinds[..k] && kinds[..n][k + 1..] == kinds[k + 1..][..n - k - 1];
    }
  }

  /** Everything a plan is applied to and made from; `patches` is what `PlanPatches` collects. */
  ghost predicate Planned(fs: Files, policy: Policy, service: Service, names: seq<string>, disabled: seq<string>,
    file: string, split: string -> Path, patches: seq<Patch>, d: Decoder)
  {
    && (forall name | name in names :: name in service.dependencies)
    && Splits(split) && Documents(fs) && PatchesFit(patches) && ApplyPatches(fs, patches, d).Some?
    && patches == Flatten(Layers(policy, service, names, disabled, file, split))
  }

  lemma PlannedIs(fs: Files, policy: Policy, service: Service, names: seq<string>, disabled: seq<string>, file: string,
    split: string -> Path, patches: seq<Patch>, d: Decoder)
    requires Planned(fs, policy, service, names, disabled, file, split, patches, d)
    ensures patches == policy.patches + ServerPatches(policy.servers, service.kinds) + service.patches
      + RoutePatches(policy, service, names, file, split) + DisabledPatches(file, disabled, split)
  {
    hide Flatten, PatchesFit, RoutePatches, ServerPatches, DisabledPatches;
    FlattenFive(policy.patches, ServerPatches(policy.servers, service.kinds), service.patches,
      RoutePatches(policy, service, names, file, split), DisabledPatches(file, disabled, split));
  }

  /**
   A dependency that is resolved to a local service reads what the local rule gives for it, and any
   other what the remote rule gives, if that rule writes and nothing later overlaps.
   */
  lemma PlannedRoute(fs: Files, policy: Policy, service: Service, names: seq<string>, disabled: seq<string>,
    file: string, split: string -> Path, patches: seq<Patch>, d: Decoder, i: nat)
    requires Planned(fs, policy, service, names, disabled, file, split, patches, d) && i < |names|
    requires service.dependencies[names[i]].binding != ""
    requires Spared(file, split(service.dependencies[names[i]].binding), policy, service, names[i + 1..], disabled,
      file, split)
    ensures var us, dependency := ApplyPatches(fs, patches, d).value, service.dependencies[names[i]];
      && (dependency.resolved == "local" && policy.localRule.mode !in {"", "preserve"} ==>
            file in us && Read(us[file], split(dependency.binding)) == At(policy.localRule.value(names[i])))
      && (dependency.resolved != "local" && policy.remoteRule.mode !in {"", "preserve"} ==>
            file in us && Read(us[file], split(dependency.binding)) == At(policy.remoteRule.value(names[i])))
  {
    hide Overlap, ApplyPatches, PatchesFit, Documents, Read, ServerPatches, DisabledPatches, Flatten, RoutePatches;
    var name, dependency := names[i], service.dependencies[names[i]];
    if Rerouted(policy, dependency) {
      var value := if dependency.resolved == "local" then policy.localRule.value(name)
        else policy.remoteRule.value(name);
      var x := Patch(file, split(dependency.binding), value, false);
      PlannedIs(fs, policy, service, names, disabled, file, split, patches, d);
      RoutesSplit(policy, service, names, file, split, i);
      assert RoutePatches(policy, service, [name], file, split) == [x] by {
        OneRoute(policy, service, name, file, split);
      }
      var before := policy.patches + ServerPatches(policy.servers, service.kinds) + service.patches
        + RoutePatches(policy, service, names[..i], file, split);
      var later, last := RoutePatches(policy, service, names[i + 1..], file, split),
        DisabledPatches(file, disabled, split);
      assert patches == before + [x] + (later + last);
      RoutesApart(x, policy, service, names[i + 1..], file, split);
      DisabledApart(x, disabled, file, split);
      LastWins(fs, before, x, later + last, d);
    }
  }

  lemma OneRoute(policy: Policy, service: Service, name: string, file: string, split: string -> Path)
    requires name in service.dependencies && Rerouted(policy, service.dependencies[name])
    ensures var d := service.dependencies[name];
      RoutePatches(policy, service, [name], file, split) ==
        [Patch(file, split(d.binding),
          if d.resolved == "local" then policy.localRule.value(name) else policy.remoteRule.value(name), false)]
  {
    assert [name][..0] == [];
  }

  /** Everywhere else, and where the rule preserves, the patches of policy, servers and service have the last word. */
  lemma PlannedElsewhere(fs: Files, policy: Policy, service: Service, names: seq<string>, disabled: seq<string>,
    file: string, split: string -> Path, patches: seq<Patch>, d: Decoder, f: string, q: Path)
    requires Planned(fs, policy, service, names, disabled, file, split, patches, d) && f in fs && |q| > 0
    requires Spared(f, q, policy, service, names, disabled, file, split)
    ensures var given := policy.patches + ServerPatches(policy.servers, service.kinds) + service.patches;
      && PatchesFit(given) && ApplyPatches(fs, given, d).Some? && f in ApplyPatches(fs, given, d).value
      && f in ApplyPatches(fs, patches, d).value
      && Read(ApplyPatches(fs, patches, d).value[f], q) == Read(ApplyPatches(fs, given, d).value[f], q)
  {
    hide Overlap, ApplyPatches, PatchesFit, Documents, Read, ServerPatches, DisabledPatches, Flatten, RoutePatches,
      Layers, ApartFrom;
    var given := policy.patches + ServerPatches(policy.servers, service.kinds) + service.patches;
    var x := Patch(f, q, NOTHING, false);
    var routed, last := RoutePatches(policy, service, names, file, split), DisabledPatches(file, disabled, split);
    PlannedIs(fs, policy, service, names, disabled, file, split, patches, d);
    RoutesApart(x, policy, service, names, file, split);
    DisabledApart(x, disabled, file, split);
    BothApart(x, routed, last);
    assert patches == given + (routed + last) by { Regroup(given, routed, last); }
    FitsAdded(given, routed + last);
    ReadsAsGiven(fs, given, routed + last, d, f, q);
  }

  lemma BothApart(x: Patch, a: seq<Patch>, b: seq<Patch>)
    requires ApartFrom(x, a) && ApartFrom(x, b)
    ensures ApartFrom(x, a + b)
  {
  }

  lemma {:induction false} ReadsAsGiven(fs: Files, given: seq<Patch>, more: seq<Patch>, d: Decoder, f: string, q: Path)
    requires PatchesFit(given + more) && PatchesFit(given) && Documents(fs) && f in fs && |q| > 0
    requires ApplyPatches(fs, given + more, d).Some? && ApartFrom(Patch(f, q, NOTHING, false), more)
    ensures ApplyPatches(fs, given, d).Some? && f in ApplyPatches(fs, given, d).value
    ensures f in ApplyPatches(fs, given + more, d).value
    ensures Read(ApplyPatches(fs, given + more, d).value[f], q) == Read(ApplyPatches(fs, given, d).value[f], q)
  {
    hide PatchesFit, Documents, Read, Overlap, Write;
    if more == [] {
      assert given + more == given;
      KeepsFiles(fs, given, d);
    } else {
      var init, last := more[..|more| - 1], more[|more| - 1];
      assert given + more == (given + init) + [last] && (given + more)[..|given + more| - 1] == given + init;
      FitsAdded(given + init, [last]);
      ReadsAsGiven(fs, given, init, d, f, q);
      var us := ApplyPatches(fs, given + init, d).value;
      PatchesKeepDocuments(fs, given + init, d);
      FitsOne(last);
      assert [last][..0] == [];
      assert ApplyPatches(us, [last], d) == PatchFile(us, last, d);
      assert !Overlap(f, q, last.file, last.path) by { assert last in more; }
      PatchesElsewhere(us, [last], d, f, q);
    }
  }

  lemma FitsOne(x: Patch)
    requires PatchesFit([x])
    ensures |x.path| > 0
  {
    assert [x][0] == x;
  }

  lemma {:induction false} KeepsFiles(fs: Files, ps: seq<Patch>, d: Decoder)
    requires PatchesFit(ps) && ApplyPatches(fs, ps, d).Some?
    ensures ApplyPatches(fs, ps, d).value.Keys == fs.Keys
  {
    if ps != [] { KeepsFiles(fs, ps[..|ps| - 1], d); }
  }

  /** A patch of the service wins over those of the servers and the policy. */
  lemma PlannedServicePatch(fs: Files, policy: Policy, service: Service, names: seq<string>, disabled: seq<string>,
    file: string, split: string -> Path, patches: seq<Patch>, d: Decoder, i: nat)
    requires Planned(fs, policy, service, names, disabled, file, split, patches, d)
    requires i < |service.patches| && !service.patches[i].ifPresent
    requires ApartFrom(service.patches[i], service.patches[i + 1..])
    requires Spared(service.patches[i].file, service.patches[i].path, policy, service, names, disabled, file, split)
    ensures var us, x := ApplyPatches(fs, patches, d).value, service.patches[i];
      x.file in us && |x.path| > 0 && Read(us[x.file], x.path) == At(x.value)
  {
    hide Overlap, ApplyPatches, PatchesFit, Documents, Read, ServerPatches, DisabledPatches, Flatten, RoutePatches;
    var x := service.patches[i];
    PlannedIs(fs, policy, service, names, disabled, file, split, patches, d);
    RoutesApart(x, policy, service, names, file, split);
    DisabledApart(x, disabled, file, split);
    var before := policy.patches + ServerPatches(policy.servers, service.kinds) + service.patches[..i];
    var after := service.patches[i + 1..] + RoutePatches(policy, service, names, file, split)
      + DisabledPatches(file, disabled, split);
    assert patches == before + [x] + after;
    LastWins(fs, before, x, after, d);
  }

  /** A patch of a server kind wins over those of earlier kinds and the policy. */
  lemma PlannedServerPatch(fs: Files, policy: Policy, service: Service, names: seq<string>, disabled: seq<string>,
    file: string, split: string -> Path, patches: seq<Patch>, d: Decoder, k: nat, i: nat)
    requires Planned(fs, policy, service, names, disabled, file, split, patches, d)
    requires k < |service.kinds| && service.kinds[k] in policy.servers && i < |policy.servers[service.kinds[k]]|
    requires var own := policy.servers[service.kinds[k]];
      && !own[i].ifPresent && ApartFrom(own[i], own[i + 1..]) && ApartFrom(own[i], service.patches)
      && (forall later | later in service.kinds[k + 1..] && later in policy.servers ::
            ApartFrom(own[i], policy.servers[later]))
      && Spared(own[i].file, own[i].path, policy, service, names, disabled, file, split)
    ensures var us, x := ApplyPatches(fs, patches, d).value, policy.servers[service.kinds[k]][i];
      x.file in us && |x.path| > 0 && Read(us[x.file], x.path) == At(x.value)
  {
    hide Overlap, ApplyPatches, PatchesFit, Documents, Read, ServerPatches, DisabledPatches, Flatten, RoutePatches;
    var own := policy.servers[service.kinds[k]];
    var x := own[i];
    PlannedIs(fs, policy, service, names, disabled, file, split, patches, d);
    ServersSplit(policy.servers, service.kinds, k);
    ServersApart(x, policy.servers, service.kinds[k + 1..]);
    RoutesApart(x, policy, service, names, file, split);
    DisabledApart(x, disabled, file, split);
    var before := policy.patches + ServerPatches(policy.servers, service.kinds[..k]) + own[..i];
    var after := own[i + 1..] + ServerPatches(policy.servers, service.kinds[k + 1..]) + service.patches
      + RoutePatches(policy, service, names, file, split) + DisabledPatches(file, disabled, split);
    assert own == own[..i] + [x] + own[i + 1..];
    assert patches == before + [x] + after;
    LastWins(fs, before, x, after, d);
  }

  /** A patch of the policy stands where nothing later overlaps it. */
  lemma PlannedPolicyPatch(fs: Files, policy: Policy, service: Service, names: seq<string>, disabled: seq<string>,
    file: string, split: string -> Path, patches: seq<Patch>, d: Decoder, i: nat)
    requires Planned(fs, policy, service, names, disabled, file, split, patches, d)
    requires i < |policy.patches| && !policy.patches[i].ifPresent
    requires ApartFrom(policy.patches[i], policy.patches[i + 1..])
    requires ApartFrom(policy.patches[i], service.patches)
    requires forall kind | kind in service.kinds && kind in policy.servers ::
      ApartFrom(policy.patches[i], policy.servers[kind])
    requires Spared(policy.patches[i].file, policy.patches[i].path, policy, service, names, disabled, file, split)
    ensures var us, x := ApplyPatches(fs, patches, d).value, policy.patches[i];
      x.file in us && |x.path| > 0 && Read(us[x.file], x.path) == At(x.value)
  {
    hide Overlap, ApplyPatches, PatchesFit, Documents, Read, ServerPatches, DisabledPatches, Flatten, RoutePatches;
    var x := policy.patches[i];
    PlannedIs(fs, policy, service, names, disabled, file, split, patches, d);
    ServersApart(x, policy.servers, service.kinds);
    RoutesApart(x, policy, service, names, file, split);
    DisabledApart(x, disabled, file, split);
    var before := policy.patches[..i];
    var after := policy.patches[i + 1..] + ServerPatches(policy.servers, service.kinds) + service.patches
      + RoutePatches(policy, service, names, file, split) + DisabledPatches(file, disabled, split);
    assert patches == before + [x] + after;
    LastWins(fs, before, x, after, d);
  }

  // ---- What may be borrowed from the repository ----

  predicate Asked(service: Service, b: string) {
    b in service.consumerBindings || DependedOn(service, b, service.dependencies.Keys)
  }

  predicate DependedOn(service: Service, b: string, names: set<string>)
    requires names <= service.dependencies.Keys
  {
    exists name | name in names :: b != "" && service.dependencies[name].binding == b
  }

  predicate NotDisabled(service: Service, b: string, names: set<string>)
    requires names <= service.dependencies.Keys
  {
    forall name | name in names && service.dependencies[name].binding == b ::
      service.dependencies[name].resolved != "disabled"
  }

  /** A dependency that is switched off, or bound and led to a local service or rewritten by the remote rule. */
  predicate Overridden(policy: Policy, d: Dependency) {
    || d.resolved == "disabled"
    || (d.binding != "" && (d.resolved == "local" || policy.remoteRule.mode !in {"", "preserve"}))
  }

  predicate Wanted(policy: Policy, service: Service, disabled: seq<string>, b: string) {
    && Asked(service, b) && b !in disabled
    && forall name | name in service.dependencies && service.dependencies[name].binding == b ::
      !Overridden(policy, service.dependencies[name])
  }

  /** The first declaration of every binding in `bindings`, in the order of the declarations. */
  function Borrowed(declared: seq<string>, bindings: set<string>): seq<string> {
    if declared == [] then []
    else if declared[0] in bindings then [declared[0]] + Borrowed(declared[1..], bindings - {declared[0]})
    else Borrowed(declared[1..], bindings)
  }

  lemma {:induction false} BorrowedExactly(declared: seq<string>, bindings: set<string>)
    ensures forall b :: b in Borrowed(declared, bindings) <==> b in declared && b in bindings
    ensures forall i, j | 0 <= i < j < |Borrowed(declared, bindings)| ::
      Borrowed(declared, bindings)[i] != Borrowed(declared, bindings)[j]
  {
    if declared != [] {
      BorrowedExactly(declared[1..], if declared[0] in bindings then bindings - {declared[0]} else bindings);
    }
  }

  /** The declarations keep their order. */
  lemma {:induction false} BorrowedInOrder(declared: seq<string>, bindings: set<string>, i: nat, j: nat)
    requires i < j < |Borrowed(declared, bindings)|
    ensures First(declared, Borrowed(declared, bindings), i, j)
  {
    var kept, rest := Borrowed(declared, bindings), declared[1..];
    if declared[0] in bindings {
      var more := Borrowed(rest, bindings - {declared[0]});
      BorrowedExactly(rest, bindings - {declared[0]});
      assert kept[j] == more[j - 1] && kept[j] in more;
      if i == 0 {
        assert declared[0] == kept[0] && kept[j] !in declared[..1];
      } else {
        BorrowedInOrder(rest, bindings - {declared[0]}, i - 1, j - 1);
        FirstLater(declared, more, i - 1, j - 1);
        assert First(declared, kept, i, j) <==> First(declared, more, i - 1, j - 1);
      }
    } else {
      BorrowedExactly(rest, bindings);
      assert kept[j] in bindings by { assert kept[j] in kept; }
      BorrowedInOrder(rest, bindings, i, j);
      FirstLater(declared, kept, i, j);
    }
  }

  /** Some declaration of the one comes before every declaration of the other. */
  ghost predicate First(declared: seq<string>, kept: seq<string>, i: nat, j: nat)
    requires i < j < |kept|
  {
    exists n | 0 <= n < |declared| :: declared[n] == kept[i] && kept[j] !in declared[..n + 1]
  }

  lemma FirstLater(declared: seq<string>, kept: seq<string>, i: nat, j: nat)
    requires i < j < |kept| && declared != [] && kept[j] != declared[0] && First(declared[1..], kept, i, j)
    ensures First(declared, kept, i, j)
  {
    var n :| 0 <= n < |declared[1..]| && declared[1..][n] == kept[i] && kept[j] !in declared[1..][..n + 1];
    assert declared[..n + 2] == [declared[0]] + declared[1..][..n + 1];
    assert declared[n + 1] == kept[i];
  }

  /** The bindings of the routes that write to the configuration, or lead to a local service. */
  lemma {:induction false} RoutesExactly(policy: Policy, service: Service, names: seq<string>, r: Route)
    requires forall name | name in names :: name in service.dependencies
    ensures r in RoutesOf(policy, service, names) <==>
      r.dependency in names && service.dependencies[r.dependency].binding != ""
        && r == RouteOf(policy, r.dependency, service.dependencies[r.dependency])
  {
    if names != [] { RoutesExactly(policy, service, names[..|names| - 1], r); }
  }

  predicate Steers(r: Route) {
    r.local || Rewrites(r.mode)
  }

  /** What the service asks for, less what is switched off. */
  method AskedBindings(service: Service, disabled: seq<string>) returns (bindings: set<string>)
    ensures forall b :: b in bindings <==>
      Asked(service, b) && b !in disabled && NotDisabled(service, b, service.dependencies.Keys)
  {
    bindings := set b | b in service.consumerBindings;
    var pending := service.dependencies.Keys;
    while pending != {}
      invariant pending <= service.dependencies.Keys
      invariant forall b :: b in bindings <==>
        b in service.consumerBindings || DependedOn(service, b, service.dependencies.Keys - pending)
    {
      var name := AnyOf(pending);
      if service.dependencies[name].binding != "" { bindings := bindings + {service.dependencies[name].binding}; }
      pending := pending - {name};
    }
    ghost var asked := bindings;
    pending := service.dependencies.Keys;
    while pending != {}
      invariant pending <= service.dependencies.Keys
      invariant forall b :: b in bindings <==>
        b in asked && NotDisabled(service, b, service.dependencies.Keys - pending)
    {
      var name := AnyOf(pending);
      if service.dependencies[name].resolved == "disabled" {
        bindings := bindings - {service.dependencies[name].binding};
      }
      pending := pending - {name};
    }
    bindings := bindings - set b | b in disabled;
  }

  /** Asks the repository for every binding the service wants and nothing else provides. */
  method PlanFallbacks(policy: Policy, service: Service, disabled: seq<string>, names: seq<string>,
    routes: seq<Route>, declared: seq<string>)
    returns (fallbacks: seq<string>)
    requires forall name :: name in names <==> name in service.dependencies
    requires routes == RoutesOf(policy, service, names)
    ensures forall b :: b in fallbacks <==> b in declared && Wanted(policy, service, disabled, b)
    ensures forall i, j | 0 <= i < j < |fallbacks| :: fallbacks[i] != fallbacks[j]
    ensures fallbacks == Borrowed(declared, set b | b in declared && Wanted(policy, service, disabled, b))
  {
    var bindings := AskedBindings(service, disabled);
    ghost var asked := bindings;
    for index := 0 to |routes|
      invariant forall b :: b in bindings <==>
        b in asked && forall i | 0 <= i < index && Steers(routes[i]) :: routes[i].binding != b
    {
      if Steers(routes[index]) { bindings := bindings - {routes[index].binding}; }
    }
    forall b ensures b in bindings <==> Wanted(policy, service, disabled, b) {
      SteeredExactly(policy, service, names, routes, b);
    }
    ghost var wanted := bindings;
    fallbacks := [];
    for index := 0 to |declared|
      invariant Borrowed(declared, wanted) == fallbacks + Borrowed(declared[index..], bindings)
    {
      var key := declared[index];
      assert declared[index..][0] == key && declared[index..][1..] == declared[index + 1..];
      if key in bindings {
        fallbacks := fallbacks + [key];
        bindings := bindings - {key};
      }
    }
    assert fallbacks + Borrowed([], bindings) == fallbacks && declared[|declared|..] == [];
    BorrowedExactly(declared, wanted);
    SameBorrowed(declared, wanted, set b | b in declared && Wanted(policy, service, disabled, b));
  }

  lemma {:induction false} SameBorrowed(declared: seq<string>, a: set<string>, b: set<string>)
    requires forall x | x in declared :: x in a <==> x in b
    ensures Borrowed(declared, a) == Borrowed(declared, b)
  {
    if declared != [] {
      if declared[0] in a {
        SameBorrowed(declared[1..], a - {declared[0]}, b - {declared[0]});
      } else {
        SameBorrowed(declared[1..], a, b);
      }
    }
  }

  lemma SteeredExactly(policy: Policy, service: Service, names: seq<string>, routes: seq<Route>, b: string)
    requires forall name :: name in names <==> name in service.dependencies
    requires routes == RoutesOf(policy, service, names)
    ensures (exists i | 0 <= i < |routes| :: Steers(routes[i]) && routes[i].binding == b) <==>
      exists name | name in service.dependencies :: var d := service.dependencies[name];
        d.binding == b && b != "" && (d.resolved == "local" || Rewrites(RuleFor(policy, d).mode))
  {
    forall i | 0 <= i < |routes| ensures routes[i].dependency in service.dependencies
      && service.dependencies[routes[i].dependency].binding != ""
      && routes[i] == RouteOf(policy, routes[i].dependency, service.dependencies[routes[i].dependency])
    {
      RoutesExactly(policy, service, names, routes[i]);
    }
    forall name | name in service.dependencies && service.dependencies[name].binding != ""
      ensures RouteOf(policy, name, service.dependencies[name]) in routes
    {
      RoutesExactly(policy, service, names, RouteOf(policy, name, service.dependencies[name]));
    }
  }

  /**
   Planning and merging together: a binding that is disabled, or that a route steers, is never taken
   from the repository. The merged document says of it what the remote document said.
   */
  lemma OverriddenNotBorrowed(apollo: Tree, repository: Option<Tree>, fs: seq<BindingFallbacks.Fallback>,
    c: RpcRoutes.Checks,
      policy: Policy, service: Service, disabled: seq<string>, b: string)
    requires apollo.kind == MappingKind && |apollo.children| % 2 == 0
    requires BindingFallbacks.Merged(apollo, repository, fs, c).Some?
    requires forall i | 0 <= i < |fs| :: Wanted(policy, service, disabled, fs[i].binding)
    requires b in disabled || exists name | name in service.dependencies ::
      service.dependencies[name].binding == b && Overridden(policy, service.dependencies[name])
    ensures RpcRoutes.MappingValue(BindingFallbacks.Merged(apollo, repository, fs, c).value, b) ==
      RpcRoutes.MappingValue(apollo, b)
  {
    BindingFallbacks.MergeConservative(apollo, repository, fs, c, b);
    assert !Wanted(policy, service, disabled, b);
  }
}
