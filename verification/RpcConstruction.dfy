/** Struct literals and addresses: which of them leave every client configuration agreeing with a profile. */
module RpcConstruction {
  import opened Options
  import opened GoSyntax
  import opened GoSemantics
  import opened RpcGuards
  import opened RpcAliases
  import opened RpcSoundness

  // ---- What a literal must not do ----

  /** A literal that fills the field of a binding, by name or by position; `i` counts its elements. */
  predicate FillsBinding(p: Package, typ: TypeName, elts: Exprs, i: nat) {
    elts.Cons? && (Binding(typ, p.KeyOf(typ, elts.key, i)) in p.bindings || FillsBinding(p, typ, elts.tail, i + 1))
  }

  /** A literal that sets field `f`. */
  predicate Sets(p: Package, typ: TypeName, elts: Exprs, i: nat, f: string) {
    elts.Cons? && (p.KeyOf(typ, elts.key, i) == f || Sets(p, typ, elts.tail, i + 1, f))
  }

  /**
   A blank configuration may be left unset, but not filled. A target-only one can only come from where
   it was generated: a literal may neither be a configuration nor leave one unset.
   */
  predicate LiteralKeeps(p: Package, profile: Profile, typ: TypeName, elts: Exprs) {
    match profile
    case Blank => !FillsBinding(p, typ, elts, 0)
    case TargetOnly => !p.IsConfigType(typ) && forall k | k in p.configFields && k.0 == typ ::
      Sets(p, typ, elts, 0, k.1)
  }

  /** The expression selects a field that a binding is called. */
  predicate RunsAlong(p: Package, e: Expr) {
    match e
    case Paren(x) => RunsAlong(p, x)
    case Star(x) => RunsAlong(p, x)
    case Unary(_, x) => RunsAlong(p, x)
    case Selector(x, f) => p.IsBindingField(f) || RunsAlong(p, x)
    case _ => false
  }

  /**
   Through a pointer to a target-only configuration, to something in it or around it, anybody might
   change it out of sight, so that no such address may be taken.
   */
  predicate AddressKeeps(p: Package, profile: Profile, x: Expr) {
    profile.TargetOnly? ==> !RunsAlong(p, x) && (PlaceOf(x).Some? ==> !Entrusted(p, PlaceOf(x).value.0))
  }

  /** Every literal and address in the statement, and in function literals in it, keeps the profile. */
  predicate CodeKeeps(p: Package, profile: Profile, s: Stmt) {
    match s
    case Skip => true
    case Seq(a, b) => CodeKeeps(p, profile, a) && CodeKeeps(p, profile, b)
    case Assign(_, _, lhs, rhs) => CodeKeepsIn(p, profile, lhs) && CodeKeepsIn(p, profile, rhs)
    case ExprStmt(e) => CodeKeepsIn(p, profile, e)
    case IncDec(e) => CodeKeepsIn(p, profile, e)
    case Return(e) => CodeKeepsIn(p, profile, e)
    case If(_, init, cond, body, els) =>
      && CodeKeeps(p, profile, init) && CodeKeepsIn(p, profile, cond)
      && CodeKeeps(p, profile, body) && CodeKeeps(p, profile, els)
    case For(cond, body) => CodeKeepsIn(p, profile, cond) && CodeKeeps(p, profile, body)
  }

  predicate CodeKeepsIn(p: Package, profile: Profile, e: Expr) {
    match e
    case Ident(_, _) => true
    case StringLit(_, _) => true
    case IntLit(_) => true
    case Paren(x) => CodeKeepsIn(p, profile, x)
    case Star(x) => CodeKeepsIn(p, profile, x)
    case Unary(op, x) => (op.AddrOp? ==> AddressKeeps(p, profile, x)) && CodeKeepsIn(p, profile, x)
    case Selector(x, _) => CodeKeepsIn(p, profile, x)
    case Binary(_, x, y) => CodeKeepsIn(p, profile, x) && CodeKeepsIn(p, profile, y)
    case Call(fun, args) => CodeKeepsIn(p, profile, fun) && CodeKeepsInAll(p, profile, args)
    case Composite(typ, elts) => LiteralKeeps(p, profile, typ, elts) && CodeKeepsInAll(p, profile, elts)
    case FuncLit(body) => CodeKeeps(p, profile, body)
    case Other(parts) => CodeKeepsInAll(p, profile, parts)
  }

  predicate CodeKeepsInAll(p: Package, profile: Profile, es: Exprs) {
    es.Cons? ==> CodeKeepsIn(p, profile, es.head) && CodeKeepsInAll(p, profile, es.tail)
  }

  /** Code that keeps the target-only profile shares no variable that a configuration is entrusted to. */
  lemma {:induction false} SharedElsewhere(p: Package, s: Stmt, o: Obj)
    requires CodeKeeps(p, TargetOnly, s) && Shares(s, o)
    ensures !Entrusted(p, o)
    decreases s
  {
    match s
    case Seq(a, b) => if Shares(a, o) { SharedElsewhere(p, a, o); } else { SharedElsewhere(p, b, o); }
    case Assign(_, _, lhs, rhs) =>
      if SharesIn(lhs, o) { SharedElsewhereIn(p, lhs, o); } else { SharedElsewhereIn(p, rhs, o); }
    case ExprStmt(e) => SharedElsewhereIn(p, e, o);
    case IncDec(e) => SharedElsewhereIn(p, e, o);
    case Return(e) => SharedElsewhereIn(p, e, o);
    case If(_, init, cond, body, els) =>
      if Shares(init, o) { SharedElsewhere(p, init, o); }
      else if SharesIn(cond, o) { SharedElsewhereIn(p, cond, o); }
      else if Shares(body, o) { SharedElsewhere(p, body, o); }
      else { SharedElsewhere(p, els, o); }
    case For(cond, body) =>
      if SharesIn(cond, o) { SharedElsewhereIn(p, cond, o); } else { SharedElsewhere(p, body, o); }
  }

  lemma {:induction false} SharedElsewhereIn(p: Package, e: Expr, o: Obj)
    requires CodeKeepsIn(p, TargetOnly, e) && SharesIn(e, o)
    ensures !Entrusted(p, o)
    decreases e
  {
    match e
    case Paren(x) => SharedElsewhereIn(p, x, o);
    case Star(x) => SharedElsewhereIn(p, x, o);
    case Unary(op, x) => if SharesIn(x, o) { SharedElsewhereIn(p, x, o); }
    case Selector(x, _) => SharedElsewhereIn(p, x, o);
    case Binary(_, x, y) => if SharesIn(x, o) { SharedElsewhereIn(p, x, o); } else { SharedElsewhereIn(p, y, o); }
    case Call(fun, args) =>
      if SharesIn(fun, o) { SharedElsewhereIn(p, fun, o); } else { SharedElsewhereInAll(p, args, o); }
    case Composite(_, elts) => SharedElsewhereInAll(p, elts, o);
    case FuncLit(body) => SharedElsewhere(p, body, o);
    case Other(parts) => SharedElsewhereInAll(p, parts, o);
  }

  lemma {:induction false} SharedElsewhereInAll(p: Package, es: Exprs, o: Obj)
    requires CodeKeepsInAll(p, TargetOnly, es) && SharesInAll(es, o)
    ensures !Entrusted(p, o)
    decreases es
  {
    if SharesIn(es.head, o) { SharedElsewhereIn(p, es.head, o); } else { SharedElsewhereInAll(p, es.tail, o); }
  }

  // ---- What a literal builds ----

  /** A field with a value that agrees with the profile. */
  ghost predicate FieldOk(p: Package, b: Binding, profile: Profile, typ: TypeName, f: string, v: Value) {
    Wf(p, b, profile, v) && FieldWf(p, typ, f, v)
  }

  function Length(es: Exprs): nat {
    if es.Nil? then 0 else 1 + Length(es.tail)
  }

  lemma {:induction false} EvalAllLength(p: Package, w: World, es: Exprs, st: State, mode: Mode, fuel: nat)
    ensures EvalAll(p, w, es, st, mode, fuel).OkAll? ==> |EvalAll(p, w, es, st, mode, fuel).vs| == Length(es)
    decreases fuel
  {
    if fuel > 0 && es.Cons? {
      var r := Eval(p, w, es.head, st, mode, fuel - 1);
      if r.Ok? { EvalAllLength(p, w, es.tail, r.st, mode, fuel - 1); }
    }
  }

  lemma ZeroClientWf(p: Package, b: Binding, profile: Profile)
    requires SensibleTypes(p)
    ensures forall f | f in ZeroClient() :: FieldOk(p, b, profile, RPC_CLIENT_CONF, f, ZeroClient()[f])
  {
    forall typ, f | typ in LIBRARY_TYPES ensures Binding(typ, f) !in p.bindings && (typ, f) !in p.configFields {
      assert Binding(typ, f).structName == typ;
      assert (typ, f).0 == typ;
    }
    forall typ, f, v: Value | typ in LIBRARY_TYPES && !v.VConf? ensures FieldWf(p, typ, f, v) {
      assert Binding(typ, f) !in p.bindings && (typ, f) !in p.configFields;
    }
    assert Wf(p, b, profile, VStr("")) && Wf(p, b, profile, VList(0));
  }

  lemma ZeroClientBlank()
    ensures Agrees(ZeroClient(), Blank)
  {
    forall path | FieldVerdict(Blank, Some(path)).0 != Unknown
      ensures PathMeans(ZeroClient(), path, FieldVerdict(Blank, Some(path)).0)
    {
    }
  }

  lemma ZeroBindingsBlank(p: Package, b: Binding, typ: TypeName)
    requires SensibleTypes(p)
    ensures forall f | f in ZeroBindings(p, typ) :: FieldOk(p, b, Blank, typ, f, ZeroBindings(p, typ)[f])
  {
    ZeroClientWf(p, b, Blank);
    ZeroClientBlank();
    forall c | c in p.bindings ensures Wf(p, b, Blank, VConf(c, ZeroClient())) {
    }
  }

  lemma ZeroFieldsBlank(p: Package, b: Binding, typ: TypeName)
    requires SensibleTypes(p)
    ensures forall f | f in ZeroFields(p, typ) :: FieldOk(p, b, Blank, typ, f, ZeroFields(p, typ)[f])
  {
    ZeroClientWf(p, b, Blank);
    ZeroBindingsBlank(p, b, typ);
    forall k | k in p.configFields && k.0 == typ
      ensures FieldOk(p, b, Blank, typ, k.1, VStruct(p.configFields[k], ZeroBindings(p, p.configFields[k])))
    {
      ZeroBindingsBlank(p, b, p.configFields[k]);
      assert Binding(typ, k.1).structName == typ && Binding(typ, k.1).field == k.1 && k == (typ, k.1);
    }
  }

  /** The fields that are not yet in order: configurations that no element from `i` on sets. */
  predicate Unset(p: Package, profile: Profile, typ: TypeName, elts: Exprs, i: nat, f: string) {
    profile.TargetOnly? && (typ, f) in p.configFields && !Sets(p, typ, elts, i, f)
  }

  lemma ZeroFieldsOk(p: Package, b: Binding, profile: Profile, typ: TypeName)
    requires SensibleTypes(p) && (profile.TargetOnly? ==> !p.IsConfigType(typ))
    ensures forall f | f in ZeroFields(p, typ) ::
      Unset(p, profile, typ, Nil, 0, f) || FieldOk(p, b, profile, typ, f, ZeroFields(p, typ)[f])
  {
    if profile.Blank? {
      ZeroFieldsBlank(p, b, typ);
    } else {
      ZeroClientWf(p, b, profile);
      forall c | c in p.bindings ensures c.structName != typ {
        assert !p.IsConfigType(typ);
      }
      assert ZeroBindings(p, typ) == map[];
    }
  }

  lemma {:induction false} BuildOk(p: Package, b: Binding, profile: Profile, typ: TypeName, elts: Exprs, i: nat,
    vs: seq<Value>)
    requires SensibleTypes(p) && |vs| == Length(elts) && forall v | v in vs :: Loose(p, b, profile, v)
    requires Build(p, typ, elts, i, vs).Some?
    requires if profile.Blank? then !FillsBinding(p, typ, elts, i) else !p.IsConfigType(typ)
    ensures var fields := Build(p, typ, elts, i, vs).value;
      forall f | f in fields :: Unset(p, profile, typ, elts, i, f) || FieldOk(p, b, profile, typ, f, fields[f])
  {
    if elts.Nil? {
      ZeroFieldsOk(p, b, profile, typ);
    } else {
      BuildOk(p, b, profile, typ, elts.tail, i + 1, vs[1..]);
      var key := p.KeyOf(typ, elts.key, i);
      assert Binding(typ, key) in p.bindings ==> p.IsConfigType(typ);
      assert Loose(p, b, profile, vs[0]);
    }
  }

  /** A literal that keeps the profile builds an agreeing struct. */
  lemma BuildKeeps(p: Package, b: Binding, profile: Profile, typ: TypeName, elts: Exprs, vs: seq<Value>)
    requires SensibleTypes(p) && |vs| == Length(elts) && forall v | v in vs :: Loose(p, b, profile, v)
    requires Build(p, typ, elts, 0, vs).Some? && LiteralKeeps(p, profile, typ, elts)
    ensures Plainly(p, b, profile, VStruct(typ, Build(p, typ, elts, 0, vs).value))
  {
    BuildOk(p, b, profile, typ, elts, 0, vs);
    forall f | (typ, f) in p.configFields ensures !Unset(p, profile, typ, elts, 0, f) {
      assert (typ, f).0 == typ && (typ, f).1 == f;
    }
  }
}
