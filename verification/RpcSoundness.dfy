/** Certification is sound: a certified package never uses a binding that is blank. */
module RpcSoundness {
  import opened Options
  import opened GoSyntax
  import opened GoSemantics
  import opened RpcGuards
  import opened RpcAliases
  import opened RpcCertifier

  // ---- Values in which every configuration of binding b agrees with a profile ----

  predicate FieldWf(p: Package, t: TypeName, f: string, v: Value) {
    if Binding(t, f) in p.bindings then v.VConf? && v.binding == Binding(t, f)
    else !v.VConf? && FieldFits(p, t, f, v)
  }

  ghost predicate Wf(p: Package, b: Binding, profile: Profile, v: Value) {
    match v
    case VStruct(t, fs) => forall f | f in fs :: Wf(p, b, profile, fs[f]) && FieldWf(p, t, f, fs[f])
    case VConf(c, fs) =>
      (forall f | f in fs :: Wf(p, b, profile, fs[f]) && !fs[f].VConf?) && (c == b ==> Agrees(fs, profile))
    case _ => true
  }

  /** A value that is no binding's own configuration. */
  ghost predicate Plainly(p: Package, b: Binding, profile: Profile, v: Value) {
    !v.VConf? && Wf(p, b, profile, v)
  }

  /** A value in which every configuration agrees, except perhaps one that was copied out of its field. */
  ghost predicate Loose(p: Package, b: Binding, profile: Profile, v: Value) {
    Wf(p, b, profile, Detach(v))
  }

  /** A variable whose struct type is a client configuration, holds bindings, or holds a configuration. */
  predicate Entrusted(p: Package, o: Obj) {
    && o in p.objTypes
    && var t := p.objTypes[o];
    t == RPC_CLIENT_CONF || p.IsConfigType(t) || exists k :: k in p.configFields && k.0 == t
  }

  /**
   What opaque code returns: anything but a bare binding, with every configuration in it agreeing. What
   is written through pointers agrees as well where the profile is blank; where it is target-only,
   nothing is known of the variables that configurations are entrusted to.
   */
  ghost predicate WorldAgrees(p: Package, w: World, b: Binding, profile: Profile) {
    && (forall n :: Plainly(p, b, profile, w.value(n)))
    && (forall n, o, v | profile.Blank? || !Entrusted(p, o) ::
          && (Wf(p, b, profile, v) ==> Wf(p, b, profile, w.seen(n, o, v)))
          && (Loose(p, b, profile, v) ==> Loose(p, b, profile, w.seen(n, o, v))))
  }

  /** Variables hold what the tables say: aliases their binding, all others an agreeing value. */
  ghost predicate StoreOk(p: Package, t: Tables, b: Binding, profile: Profile, store: map<Obj, Value>) {
    forall o | o in store ::
      && Fits(p, o, store[o])
      && if o in t.aliases
         then Wf(p, b, profile, store[o]) && store[o].VConf? && store[o].binding == t.aliases[o].binding
         else Loose(p, b, profile, store[o])
  }

  lemma DetachPlain(p: Package, b: Binding, profile: Profile, v: Value)
    requires SensibleTypes(p) && Wf(p, b, profile, v)
    ensures Plainly(p, b, profile, Detach(v)) && TypeOf(Detach(v)) == TypeOf(v)
  {
    if v.VConf? {
      forall f | f in v.fields ensures Wf(p, b, profile, v.fields[f]) && FieldWf(p, RPC_CLIENT_CONF, f, v.fields[f]) {
        assert Binding(RPC_CLIENT_CONF, f).structName == RPC_CLIENT_CONF;
        assert (RPC_CLIENT_CONF, f).0 == RPC_CLIENT_CONF;
      }
    }
  }

  // ---- Expressions the tables resolve evaluate to what they resolve to ----

  lemma {:induction false} MembersEval(p: Package, w: World, t: Tables, b: Binding, profile: Profile, e: Expr,
    st: State, mode: Mode, fuel: nat)
    requires TypedTables(p, t) && StoreOk(p, t, b, profile, Contents(p, w, st)) && ConfigMembers(t, e).Some?
    ensures var r := Eval(p, w, e, st, mode, fuel);
      r.st == st && (r.Ok? ==> r.v.VStruct? && r.v.typ == ConfigMembers(t, e).value && Wf(p, b, profile, r.v))
    decreases e
  {
    if fuel == 0 { return; }
    match e
    case Ident(_, obj) =>
    case Paren(x) => MembersEval(p, w, t, b, profile, x, st, Sub(mode), fuel - 1);
    case Star(x) => MembersEval(p, w, t, b, profile, x, st, Sub(mode), fuel - 1);
    case Unary(_, x) => if fuel > 1 { MembersEval(p, w, t, b, profile, x, st, Sub(mode), fuel - 2); }
    case Selector(_, _) => CarrierEval(p, w, t, b, profile, e, st, mode, fuel);
  }

  lemma {:induction false} CarrierEval(p: Package, w: World, t: Tables, b: Binding, profile: Profile, e: Expr,
    st: State, mode: Mode, fuel: nat)
    requires TypedTables(p, t) && StoreOk(p, t, b, profile, Contents(p, w, st)) && ConfigMembers(t, e).Some?
    requires e.Selector? && fuel > 0
    ensures var r := Eval(p, w, e, st, mode, fuel);
      r.st == st && (r.Ok? ==> r.v.VStruct? && r.v.typ == ConfigMembers(t, e).value && Wf(p, b, profile, r.v))
  {
    hide StoreOk;
    var x, f := e.x, e.sel;
    var o := Unparen(x).obj.value;
    assert TypedCarrier(p, o, f, t.carriers[o][f]);
    UnparenEval(p, w, t, b, profile, x, st, Sub(mode), fuel - 1);
    var r := Eval(p, w, x, st, Sub(mode), fuel - 1);
    if r.Ok? && f in r.v.fields { assert FieldWf(p, r.v.typ, f, r.v.fields[f]); }
  }

  /** A parenthesised variable of a tracked struct type is just read. */
  lemma {:induction false} UnparenEval(p: Package, w: World, t: Tables, b: Binding, profile: Profile, e: Expr,
    st: State, mode: Mode, fuel: nat)
    requires StoreOk(p, t, b, profile, Contents(p, w, st))
    requires var x := Unparen(e); x.Ident? && x.obj.Some? && x.obj.value in p.objTypes
    requires p.objTypes[Unparen(e).obj.value] != RPC_CLIENT_CONF
    ensures var r := Eval(p, w, e, st, mode, fuel);
      r.st == st && (r.Ok? ==> r.v.VStruct? && r.v.typ == p.objTypes[Unparen(e).obj.value] && Wf(p, b, profile, r.v))
    decreases e
  {
    if fuel > 0 && e.Paren? { UnparenEval(p, w, t, b, profile, e.x, st, Sub(mode), fuel - 1); }
  }

  lemma {:induction false} ResolveEval(p: Package, w: World, t: Tables, b: Binding, profile: Profile, e: Expr,
    st: State, mode: Mode, fuel: nat)
    requires TypedTables(p, t) && StoreOk(p, t, b, profile, Contents(p, w, st)) && Resolve(p, t, e).Some?
    ensures var r := Eval(p, w, e, st, mode, fuel);
      var c := Resolve(p, t, e).value;
      && (r.st == st || r.st == st.(used := st.used + {c}))
      && (mode == InCond || (mode == AliasDef && !e.Paren?) ==> r.st == st)
      && (r.Ok? ==> r.v.VConf? && r.v.binding == c && Wf(p, b, profile, r.v))
    decreases e
  {
    if fuel == 0 { return; }
    match e
    case Ident(_, obj) =>
    case Paren(x) => ResolveEval(p, w, t, b, profile, x, st, Sub(mode), fuel - 1);
    case Selector(x, f) =>
      MembersEval(p, w, t, b, profile, x, st, Sub(mode), fuel - 1);
      var r := Eval(p, w, x, st, Sub(mode), fuel - 1);
      if r.Ok? && f in r.v.fields { assert FieldWf(p, r.v.typ, f, r.v.fields[f]); }
  }

  // ---- Verdicts about a binding are right in every agreeing state ----

  lemma FieldEval(p: Package, w: World, t: Tables, b: Binding, profile: Profile, e: Expr, st: State, fuel: nat)
    requires TypedTables(p, t) && StoreOk(p, t, b, profile, Contents(p, w, st))
    requires FieldPath(p, t, e, b).Some? && |FieldPath(p, t, e, b).value| == 1
    requires FieldPath(p, t, e, b).value[0] in ROUTE_FIELDS
    ensures var r := Eval(p, w, e, st, InCond, fuel);
      var f := FieldPath(p, t, e, b).value[0];
      r.st == st && (r.Ok? ==> exists fields :: Wf(p, b, profile, VConf(b, fields)) && f in fields && r.v == fields[f])
  {
    assert e.Selector? && Resolve(p, t, e.x) == Some(b) by {
      var inner := FieldPath(p, t, e.x, b).value;
      assert inner + [e.sel] == FieldPath(p, t, e, b).value;
      assert inner == [];
    }
    if fuel > 0 {
      ResolveEval(p, w, t, b, profile, e.x, st, InCond, fuel - 1);
      var r := Eval(p, w, e.x, st, InCond, fuel - 1);
      if r.Ok? && e.sel in r.v.fields && fuel > 1 {
        assert r.v == VConf(b, r.v.fields);
        assert FieldPath(p, t, e, b).value[0] == e.sel;
      }
    }
  }

  /** Verdicts are given on route fields only. */
  lemma DecidedRoute(profile: Profile, path: seq<string>)
    requires FieldVerdict(profile, Some(path)).0 != Unknown
    ensures 1 <= |path| <= 2 && path[0] in ROUTE_FIELDS
  {
    assert path in {["DiscovType"], ["Target"], ["Endpoints"], ["Endpints"]}
      || path in {["Etcd", "Key"], ["Etcd", "Hosts"], ["Consul", "Key"], ["Consul", "Host"]};
  }

  lemma InnerFieldEval(p: Package, w: World, t: Tables, b: Binding, profile: Profile, e: Expr, st: State, fuel: nat)
    requires TypedTables(p, t) && StoreOk(p, t, b, profile, Contents(p, w, st))
    requires FieldPath(p, t, e, b).Some? && |FieldPath(p, t, e, b).value| == 2
    requires FieldVerdict(profile, FieldPath(p, t, e, b)).0 != Unknown
    ensures SoundAt(Eval(p, w, e, st, InCond, fuel), st, FieldVerdict(profile, FieldPath(p, t, e, b)).0)
  {
    var path := FieldPath(p, t, e, b).value;
    var inner := FieldPath(p, t, e.x, b).value;
    assert path == inner + [e.sel] && |inner| == 1;
    DecidedRoute(profile, path);
    if fuel > 0 {
      FieldEval(p, w, t, b, profile, e.x, st, fuel - 1);
      var r := Eval(p, w, e.x, st, InCond, fuel - 1);
      if r.Ok? {
        var fields :| Wf(p, b, profile, VConf(b, fields)) && inner[0] in fields && r.v == fields[inner[0]];
        assert PathMeans(fields, path, FieldVerdict(profile, Some(path)).0);
        assert FieldWf(p, r.v.typ, e.sel, r.v.fields[e.sel]) by {
          assert Wf(p, b, profile, r.v);
        }
      }
    }
  }

  lemma LookupSound(p: Package, w: World, t: Tables, b: Binding, profile: Profile, st: State)
    requires TypedTables(p, t) && StoreOk(p, t, b, profile, Contents(p, w, st))
    ensures SoundLookup(p, w, st, InCond, BindingLookup(p, t, b, profile))
  {
    var lookup := BindingLookup(p, t, b, profile);
    forall e, fuel: nat | lookup(e).0 != Unknown
      ensures SoundAt(Eval(p, w, e, st, InCond, fuel), st, lookup(e).0)
    {
      var path := FieldPath(p, t, e, b).value;
      if |path| == 2 {
        InnerFieldEval(p, w, t, b, profile, e, st, fuel);
      } else {
        FieldEval(p, w, t, b, profile, e, st, fuel);
        var r := Eval(p, w, e, st, InCond, fuel);
        if r.Ok? {
          var fields :| Wf(p, b, profile, VConf(b, fields)) && path[0] in fields && r.v == fields[path[0]];
          assert PathMeans(fields, path, FieldVerdict(profile, Some(path)).0);
        }
      }
    }
  }

  // ---- Guard helpers and conditions ----

  lemma {:induction false} HelperPathEval(p: Package, w: World, b: Binding, profile: Profile, e: Expr, o: Obj,
    fields: map<string, Value>, st: State, mode: Mode, fuel: nat)
    requires SelectorPath(e, o).Some? && |SelectorPath(e, o).value| <= 1
    requires forall f | f in SelectorPath(e, o).value :: f in ROUTE_FIELDS
    requires o in st.store && Contents(p, w, st)[o] == VStruct(RPC_CLIENT_CONF, fields)
    requires forall f | f in fields :: !fields[f].VConf?
    ensures var r := Eval(p, w, e, st, mode, fuel);
      var path := SelectorPath(e, o).value;
      r.st == st && (r.Ok? ==>
        if path == [] then r.v == Contents(p, w, st)[o] else path[0] in fields && r.v == fields[path[0]])
  {
    if e.Selector? && fuel > 0 {
      assert SelectorPath(e, o).value == SelectorPath(e.x, o).value + [e.sel];
      HelperPathEval(p, w, b, profile, e.x, o, fields, st, Sub(mode), fuel - 1);
    }
  }

  lemma HelperLookupSound(p: Package, w: World, b: Binding, profile: Profile, o: Obj, fields: map<string, Value>,
    st: State, mode: Mode)
    requires SensibleTypes(p) && Wf(p, b, profile, VConf(b, fields))
    requires o in st.store && Contents(p, w, st)[o] == VStruct(RPC_CLIENT_CONF, fields)
    ensures SoundLookup(p, w, st, mode, e => FieldVerdict(profile, SelectorPath(e, o)))
  {
    hide Contents, Wf, Eval;
    var lookup := (e: Expr) => FieldVerdict(profile, SelectorPath(e, o));
    forall e, fuel: nat | lookup(e).0 != Unknown
      ensures SoundAt(Eval(p, w, e, st, mode, fuel), st, lookup(e).0)
    {
      HelperFieldSound(p, w, b, profile, e, o, fields, st, mode, fuel);
    }
  }

  lemma HelperFieldSound(p: Package, w: World, b: Binding, profile: Profile, e: Expr, o: Obj,
    fields: map<string, Value>, st: State, mode: Mode, fuel: nat)
    requires SensibleTypes(p) && Wf(p, b, profile, VConf(b, fields))
    requires o in st.store && Contents(p, w, st)[o] == VStruct(RPC_CLIENT_CONF, fields)
    requires FieldVerdict(profile, SelectorPath(e, o)).0 != Unknown
    ensures SoundAt(Eval(p, w, e, st, mode, fuel), st, FieldVerdict(profile, SelectorPath(e, o)).0)
  {
    hide Contents;
    var path := SelectorPath(e, o).value;
    assert PathMeans(fields, path, FieldVerdict(profile, Some(path)).0);
    DecidedRoute(profile, path);
    if |path| == 1 {
      HelperPathEval(p, w, b, profile, e, o, fields, st, mode, fuel);
    } else if fuel > 0 {
      assert path == SelectorPath(e.x, o).value + [e.sel];
      HelperPathEval(p, w, b, profile, e.x, o, fields, st, Sub(mode), fuel - 1);
      var r := Eval(p, w, e.x, st, Sub(mode), fuel - 1);
      if r.Ok? { PlainSelect(p, w, r.v, e.sel, st, mode, fuel - 1); }
    }
  }

  /** A plain field that is there is just read. */
  lemma PlainSelect(p: Package, w: World, v: Value, f: string, st: State, mode: Mode, fuel: nat)
    requires v.VStruct? && f in v.fields && !v.fields[f].VConf?
    ensures var r := Select(p, w, v, f, st, mode, fuel); r.st == st && (r.Ok? ==> r.v == v.fields[f])
  {
  }

  /** The field paths of a helper take no address. */
  lemma {:induction false} PathSharesNothing(e: Expr, root: Obj, o: Obj)
    requires SelectorPath(e, root).Some?
    ensures !SharesIn(e, o)
  {
    if e.Selector? { PathSharesNothing(e.x, root, o); }
  }

  /** Nor does a condition with a verdict. */
  lemma {:induction false} VerdictSharesNothing(e: Expr, profile: Profile, root: Obj, builtinLen: bool, o: Obj)
    requires Evaluate(e, e => FieldVerdict(profile, SelectorPath(e, root)), builtinLen).0 != Unknown
    ensures !SharesIn(e, o)
    decreases e
  {
    var lookup := (e: Expr) => FieldVerdict(profile, SelectorPath(e, root));
    match e
    case Paren(x) => VerdictSharesNothing(x, profile, root, builtinLen, o);
    case Unary(op, x) =>
      assert op.NotOp?;
      VerdictSharesNothing(x, profile, root, builtinLen, o);
    case Binary(_, x, y) =>
      UndecidedOperand(e, lookup, builtinLen);
      VerdictSharesNothing(x, profile, root, builtinLen, o);
      VerdictSharesNothing(y, profile, root, builtinLen, o);
    case Call(fun, args) =>
      assert fun.Ident? && args.Cons? && args.tail.Nil? && lookup(args.head).0 != Unknown;
      PathSharesNothing(args.head, root, o);
      assert !SharesInAll(args, o);
    case Selector(_, _) => PathSharesNothing(e, root, o);
    case _ =>
  }

  /** The frame in which a helper with a verdict runs. */
  lemma HelperEnters(p: Package, w: World, fn: Function, b: Binding, profile: Profile, fields: map<string, Value>,
    st: State)
    requires IsPredicateHelper(fn) && HelperVerdict(p, fn, profile).0 != Unknown
    ensures var o, frame := fn.params[0].obj, BindParams(fn.params, [VConf(b, fields)]);
      && frame == map[o := VStruct(RPC_CLIENT_CONF, fields)]
      && o in frame && Contents(p, w, Entered(fn, frame, st))[o] == VStruct(RPC_CLIENT_CONF, fields)
  {
    var vs := [VConf(b, fields)];
    assert fn.params[1..] == [] && vs[1..] == [];
    VerdictSharesNothing(fn.body.e, profile, fn.params[0].obj, !p.ShadowsLen(), fn.params[0].obj);
  }

  /** What a helper's verdict promises about calling it with an agreeing configuration. */
  lemma HelperSound(p: Package, w: World, fn: Function, b: Binding, profile: Profile, fields: map<string, Value>,
    st: State, fuel: nat)
    requires SensibleTypes(p) && Wf(p, b, profile, VConf(b, fields))
    requires IsPredicateHelper(fn) && HelperVerdict(p, fn, profile).0 != Unknown
    ensures SoundAt(Invoke(p, w, fn, [VConf(b, fields)], st, fuel), st, HelperVerdict(p, fn, profile).0)
  {
    hide Contents, Wf, BindParams, Eval;
    var o := fn.params[0].obj;
    if fuel > 1 {
      HelperEnters(p, w, fn, b, profile, fields, st);
      var frame := Entered(fn, BindParams(fn.params, [VConf(b, fields)]), st);
      HelperLookupSound(p, w, b, profile, o, fields, frame, Normal);
      EvaluateIsSound(p, w, fn.body.e, frame, Normal, e => FieldVerdict(profile, SelectorPath(e, o)), fuel - 2);
    }
  }

  lemma OneArgument(p: Package, w: World, es: Exprs, st: State, mode: Mode, fuel: nat)
    requires es.Cons? && es.tail.Nil?
    ensures EvalAll(p, w, es, st, mode, fuel) ==
      if fuel < 2 then HaltAll(st) else
      var r := Eval(p, w, es.head, st, mode, fuel - 1); if r.Halt? then HaltAll(r.st) else OkAll([r.v], r.st)
  {
  }

  lemma HelperCallSound(p: Package, w: World, t: Tables, b: Binding, e: Expr, st: State, fuel: nat)
    requires TypedTables(p, t) && StoreOk(p, t, b, Blank, Contents(p, w, st)) && ProvenHelperCall(p, t, e, b)
    ensures SoundAt(Eval(p, w, e, st, InCond, fuel), st, IsFalse)
  {
    if fuel < 2 { return; }
    var fn := p.Callee(e.fun).value;
    OneArgument(p, w, e.args, st, InCond, fuel - 2);
    if fuel > 3 {
      var r := Eval(p, w, e.args.head, st, InCond, fuel - 3);
      ResolveEval(p, w, t, b, Blank, e.args.head, st, InCond, fuel - 3);
      if r.Ok? { HelperSound(p, w, fn, b, Blank, r.v.fields, st, fuel - 2); }
    }
    assert Eval(p, w, e, st, InCond, fuel) == EvalCall(p, w, e, st, InCond, fuel - 1);
  }

  /** A decided condition takes its verdict in every agreeing state, and touches nothing. */
  lemma ConditionSound(p: Package, w: World, t: Tables, b: Binding, cond: Expr, st: State, fuel: nat)
    requires TypedTables(p, t) && StoreOk(p, t, b, Blank, Contents(p, w, st))
    requires Decided(EvaluateCondition(p, t, cond, b).0)
    ensures SoundAt(Eval(p, w, cond, st, InCond, fuel), st, EvaluateCondition(p, t, cond, b).0)
  {
    if ProvenHelperCall(p, t, cond, b) {
      HelperCallSound(p, w, t, b, cond, st, fuel);
    } else {
      LookupSound(p, w, t, b, Blank, st);
      EvaluateIsSound(p, w, cond, st, InCond, BindingLookup(p, t, b, Blank), fuel);
    }
  }
}
