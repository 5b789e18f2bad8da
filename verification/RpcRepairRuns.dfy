/**
 Runs of repaired packages. The repair rewrites guards only, so a run of the repaired package follows
 the run of the original step by step, as long as no extended guard finds discovery empty and a target
 set: with the same values, uses and decisions, and a little more fuel for the longer conditions.
 */
module RpcRepairRuns {
  import opened Options
  import opened GoSyntax
  import opened GoSemantics
  import opened RpcSafety
  import opened RpcTarget
  import opened RpcRepair

  /** Functions go by the names they are declared with. */
  predicate Named(p: Package) {
    forall name | name in p.functions :: p.functions[name].name == name
  }

  // ---- Programs and states after a repair ----

  /** The condition the repair looks for in a function; in any other function, one no guard has. */
  function CondIn(x: Repair, fn: Function): Expr {
    if fn.name == x.name then x.cond else IntLit(0)
  }

  function MendStmt(x: Repair, fn: Function, s: Stmt): Stmt {
    RepairStmt(s, x.pos, CondIn(x, fn))
  }

  function MendExpr(x: Repair, fn: Function, e: Expr): Expr {
    RepairExpr(e, x.pos, CondIn(x, fn))
  }

  function MendExprs(x: Repair, fn: Function, es: Exprs): Exprs {
    RepairExprs(es, x.pos, CondIn(x, fn))
  }

  function MendFunction(x: Repair, fn: Function): Function {
    fn.(body := MendStmt(x, fn, fn.body))
  }

  function Mend(x: Repair, p: Package): Package {
    p.(functions := map name | name in p.functions :: MendFunction(x, p.functions[name]))
  }

  function MendDecision(x: Repair, d: Decision): Decision {
    Decision(MendFunction(x, d.fn), MendStmt(x, d.fn, d.guard), d.taken, d.seen)
  }

  function MendPool(x: Repair, fn: Function, pool: seq<Stmt>): seq<Stmt> {
    seq(|pool|, i requires 0 <= i < |pool| => MendStmt(x, fn, pool[i]))
  }

  function MendDecisions(x: Repair, ds: seq<Decision>): seq<Decision> {
    seq(|ds|, i requires 0 <= i < |ds| => MendDecision(x, ds[i]))
  }

  /** The state of the repaired run. */
  function Mended(x: Repair, st: State): State {
    State(st.store, MendPool(x, st.here, st.pool), MendFunction(x, st.here), st.used, st.tick,
      MendDecisions(x, st.decisions))
  }

  function MendResult(x: Repair, r: Result): Result {
    if r.Ok? then Ok(r.v, Mended(x, r.st)) else Halt(Mended(x, r.st))
  }

  function MendResults(x: Repair, rs: Results): Results {
    if rs.OkAll? then OkAll(rs.vs, Mended(x, rs.st)) else HaltAll(Mended(x, rs.st))
  }

  function MendFlow(x: Repair, flow: Flow): Flow {
    match flow
    case Next(st) => Next(Mended(x, st))
    case Returned(v, st) => Returned(v, Mended(x, st))
    case Stop(st) => Stop(Mended(x, st))
  }

  /** A repair without a guard to find changes nothing. */
  lemma {:induction false} NothingFound(s: Stmt, pos: nat)
    ensures RepairStmt(s, pos, IntLit(0)) == s
    decreases s
  {
    match s
    case Skip =>
    case Seq(a, b) =>
      NothingFound(a, pos);
      NothingFound(b, pos);
    case Assign(_, _, lhs, rhs) =>
      NothingFoundIn(lhs, pos);
      NothingFoundIn(rhs, pos);
    case ExprStmt(e) => NothingFoundIn(e, pos);
    case IncDec(e) => NothingFoundIn(e, pos);
    case Return(e) => NothingFoundIn(e, pos);
    case If(_, init, c, body, els) =>
      NothingFound(init, pos);
      NothingFoundIn(c, pos);
      NothingFound(body, pos);
      NothingFound(els, pos);
    case For(c, body) =>
      NothingFoundIn(c, pos);
      NothingFound(body, pos);
  }

  lemma {:induction false} NothingFoundIn(e: Expr, pos: nat)
    ensures RepairExpr(e, pos, IntLit(0)) == e
    decreases e
  {
    match e
    case Ident(_, _) =>
    case StringLit(_, _) =>
    case IntLit(_) =>
    case Paren(x) => NothingFoundIn(x, pos);
    case Star(x) => NothingFoundIn(x, pos);
    case Unary(_, x) => NothingFoundIn(x, pos);
    case Selector(x, _) => NothingFoundIn(x, pos);
    case Binary(_, x, y) =>
      NothingFoundIn(x, pos);
      NothingFoundIn(y, pos);
    case Call(fun, args) =>
      NothingFoundIn(fun, pos);
      NothingFoundInAll(args, pos);
    case Composite(_, elts) => NothingFoundInAll(elts, pos);
    case FuncLit(body) => NothingFound(body, pos);
    case Other(parts) => NothingFoundInAll(parts, pos);
  }

  lemma {:induction false} NothingFoundInAll(es: Exprs, pos: nat)
    ensures RepairExprs(es, pos, IntLit(0)) == es
    decreases es
  {
    if es.Cons? {
      NothingFoundIn(es.head, pos);
      NothingFoundInAll(es.tail, pos);
    }
  }

  /** Mending a package is repairing the one function. */
  lemma MendIsRepair(x: Repair, p: Package)
    requires Named(p)
    ensures Mend(x, p) == RepairOnce(p, x) && Named(Mend(x, p))
  {
    forall name | name in p.functions && name != x.name
      ensures MendFunction(x, p.functions[name]) == p.functions[name]
    {
      NothingFound(p.functions[name].body, x.pos);
    }
    assert Mend(x, p).functions == RepairOnce(p, x).functions;
  }

  // ---- What the repair leaves as it was ----

  lemma {:induction false} PlaceKept(e: Expr, pos: nat, cond: Expr)
    ensures PlaceOf(RepairExpr(e, pos, cond)) == PlaceOf(e)
    decreases e
  {
    match e
    case Paren(x) => PlaceKept(x, pos, cond);
    case Star(x) => PlaceKept(x, pos, cond);
    case Selector(x, _) => PlaceKept(x, pos, cond);
    case _ =>
  }

  lemma {:induction false} SharesKept(s: Stmt, pos: nat, cond: Expr, o: Obj)
    ensures Shares(RepairStmt(s, pos, cond), o) <==> Shares(s, o)
    decreases s
  {
    match s
    case Skip =>
    case Seq(a, b) =>
      SharesKept(a, pos, cond, o);
      SharesKept(b, pos, cond, o);
    case Assign(_, _, lhs, rhs) =>
      SharesKeptIn(lhs, pos, cond, o);
      SharesKeptIn(rhs, pos, cond, o);
    case ExprStmt(e) => SharesKeptIn(e, pos, cond, o);
    case IncDec(e) => SharesKeptIn(e, pos, cond, o);
    case Return(e) => SharesKeptIn(e, pos, cond, o);
    case If(_, init, c, body, els) =>
      SharesKept(init, pos, cond, o);
      SharesKeptIn(c, pos, cond, o);
      SharesKept(body, pos, cond, o);
      SharesKept(els, pos, cond, o);
      if IsGuard(s, pos, cond) { ExtendShares(c, o); }
    case For(c, body) =>
      SharesKeptIn(c, pos, cond, o);
      SharesKept(body, pos, cond, o);
  }

  lemma ExtendShares(c: Expr, o: Obj)
    requires DiscoveryTest(c)
    ensures SharesIn(Extend(c), o) <==> SharesIn(c, o)
  {
    assert SharesIn(c, o) <==> SharesIn(c.x.x, o);
    var target := Extend(c).y;
    assert SharesIn(target, o) <==> SharesIn(target.x.x, o);
  }

  lemma {:induction false} SharesKeptIn(e: Expr, pos: nat, cond: Expr, o: Obj)
    ensures SharesIn(RepairExpr(e, pos, cond), o) <==> SharesIn(e, o)
    decreases e
  {
    match e
    case Ident(_, _) =>
    case StringLit(_, _) =>
    case IntLit(_) =>
    case Paren(x) => SharesKeptIn(x, pos, cond, o);
    case Star(x) => SharesKeptIn(x, pos, cond, o);
    case Unary(_, x) =>
      SharesKeptIn(x, pos, cond, o);
      PlaceKept(x, pos, cond);
    case Selector(x, _) => SharesKeptIn(x, pos, cond, o);
    case Binary(_, x, y) =>
      SharesKeptIn(x, pos, cond, o);
      SharesKeptIn(y, pos, cond, o);
    case Call(fun, args) =>
      SharesKeptIn(fun, pos, cond, o);
      SharesKeptInAll(args, pos, cond, o);
    case Composite(_, elts) => SharesKeptInAll(elts, pos, cond, o);
    case FuncLit(body) => SharesKept(body, pos, cond, o);
    case Other(parts) => SharesKeptInAll(parts, pos, cond, o);
  }

  lemma {:induction false} SharesKeptInAll(es: Exprs, pos: nat, cond: Expr, o: Obj)
    ensures SharesInAll(RepairExprs(es, pos, cond), o) <==> SharesInAll(es, o)
    decreases es
  {
    if es.Cons? {
      SharesKeptIn(es.head, pos, cond, o);
      SharesKeptInAll(es.tail, pos, cond, o);
    }
  }

  /** Both packages have the same types and bindings, and functions of the same names. */
  predicate SameTypes(p: Package, q: Package) {
    && q.bindings == p.bindings && q.configFields == p.configFields && q.fieldAt == p.fieldAt
    && q.objTypes == p.objTypes && q.declaresLen == p.declaresLen && q.functions.Keys == p.functions.Keys
  }

  lemma ContentsKept(x: Repair, p: Package, w: World, st: State)
    ensures Contents(Mend(x, p), w, Mended(x, st)) == Contents(p, w, st)
  {
    forall o ensures Shares(MendStmt(x, st.here, st.here.body), o) <==> Shares(st.here.body, o) {
      SharesKept(st.here.body, x.pos, CondIn(x, st.here), o);
    }
  }

  lemma {:induction false} WriteKept(p: Package, q: Package, v: Value, path: seq<string>, w: Value)
    requires SameTypes(p, q)
    ensures WriteAt(q, v, path, w) == WriteAt(p, v, path, w)
    decreases |path|
  {
    if path != [] && (v.VStruct? || v.VConf?) && path[0] in v.fields {
      WriteKept(p, q, v.fields[path[0]], path[1..], w);
    }
  }

  lemma {:induction false} BuildKept(p: Package, q: Package, typ: TypeName, elts: Exprs, i: nat, vs: seq<Value>,
    pos: nat, cond: Expr)
    requires SameTypes(p, q)
    ensures Build(q, typ, RepairExprs(elts, pos, cond), i, vs) == Build(p, typ, elts, i, vs)
    decreases elts
  {
    hide ZeroFields, Attach, RepairExpr, SameTypes, Package.KeyOf;
    ZeroKept(p, q, typ);
    if elts.Cons? && |vs| > 0 {
      BuildKept(p, q, typ, elts.tail, i + 1, vs[1..], pos, cond);
      FieldKept(p, q, typ, elts.key, i, Detach(vs[0]));
    }
  }

  lemma FieldKept(p: Package, q: Package, typ: TypeName, key: string, i: nat, v: Value)
    requires SameTypes(p, q)
    ensures q.KeyOf(typ, key, i) == p.KeyOf(typ, key, i)
    ensures Attach(q, typ, p.KeyOf(typ, key, i), v) == Attach(p, typ, p.KeyOf(typ, key, i), v)
  {
  }

  lemma ZeroKept(p: Package, q: Package, typ: TypeName)
    requires SameTypes(p, q)
    ensures ZeroFields(q, typ) == ZeroFields(p, typ)
  {
    hide ZeroClient;
    assert forall t :: ZeroBindings(q, t) == ZeroBindings(p, t);
  }

  // ---- Guards that old and new find alike ----

  /** What an expression without calls reads as. */
  function ValueIn(seen: map<Obj, Value>, e: Expr): Option<Value> {
    match e
    case Ident(_, obj) => if obj.Some? && obj.value in seen then Some(seen[obj.value]) else None
    case Paren(x) => ValueIn(seen, x)
    case Star(x) =>
      var v := ValueIn(seen, x);
      if v.Some? then Some(Detach(v.value)) else None
    case Unary(op, x) =>
      var v := ValueIn(seen, x);
      if op.AddrOp? && v.Some? then Some(Detach(v.value)) else None
    case Selector(x, f) =>
      var v := ValueIn(seen, x);
      if v.Some? && (v.value.VStruct? || v.value.VConf?) && f in v.value.fields then Some(v.value.fields[f]) else None
    case _ => None
  }

  /** The receiver is a client configuration, and its target is set only where discovery is. */
  predicate Unsteered(seen: map<Obj, Value>, receiver: Expr) {
    var conf := ValueIn(seen, receiver);
    conf.Some? && HasRoute(conf.value)
    && (conf.value.fields["DiscovType"].s == "" ==> conf.value.fields["Target"].s == "")
  }

  /** A decision the repair does not change. */
  predicate Alike(x: Repair, d: Decision) {
    d.fn.name == x.name && IsGuard(d.guard, x.pos, x.cond) ==> Unsteered(d.seen, x.cond.x.x)
  }

  predicate AllAlike(x: Repair, st: State) {
    forall i | 0 <= i < |st.decisions| :: Alike(x, st.decisions[i])
  }

  // ---- Step by step ----

  /** A package, its surroundings, and one repair of it. */
  datatype Twin = Twin(p: Package, w: World, x: Repair) {
    predicate Sound() { Named(p) && DiscoveryTest(x.cond) }

    function Q(): Package { Mend(x, p) }

    /** From `st` on both runs go alike, if all decisions until the end of this one are. */
    predicate Follows(st: State, r: Result, s: Result) {
      && r.st.here == st.here && (AllAlike(x, r.st) ==> AllAlike(x, st))
      && (AllAlike(x, r.st) && r.Ok? ==> s == MendResult(x, r))
    }

    predicate AllFollow(st: State, rs: Results, ss: Results) {
      && rs.st.here == st.here && (AllAlike(x, rs.st) ==> AllAlike(x, st))
      && (AllAlike(x, rs.st) && rs.OkAll? ==> ss == MendResults(x, rs))
    }

    predicate FlowFollows(st: State, flow: Flow, after: Flow) {
      && flow.st.here == st.here && (AllAlike(x, flow.st) ==> AllAlike(x, st))
      && (AllAlike(x, flow.st) && !flow.Stop? ==> after == MendFlow(x, flow))
    }
  }

  lemma SameTwins(t: Twin)
    ensures SameTypes(t.p, t.Q()) && t.Q().ShadowsLen() == t.p.ShadowsLen()
  {
  }

  lemma CalleeKept(t: Twin, fn: Function, fun: Expr)
    requires t.Sound()
    ensures var callee := t.Q().Callee(MendExpr(t.x, fn, fun));
      if t.p.Callee(fun).Some? then callee == Some(MendFunction(t.x, t.p.Callee(fun).value)) else callee.None?
  {
  }

  lemma HelperKept(x: Repair, fn: Function)
    ensures IsPredicateHelper(MendFunction(x, fn)) <==> IsPredicateHelper(fn)
  {
  }

  lemma LenKept(t: Twin, fn: Function, e: Expr)
    ensures t.Q().IsBuiltinLen(MendExpr(t.x, fn, e)) <==> t.p.IsBuiltinLen(e)
    ensures t.p.IsBuiltinLen(e) ==> MendExpr(t.x, fn, e).args.head == MendExpr(t.x, fn, e.args.head)
  {
    SameTwins(t);
    if e.Call? {
      var d := MendExpr(t.x, fn, e);
      assert d == Call(MendExpr(t.x, fn, e.fun), MendExprs(t.x, fn, e.args));
      assert d.fun.Ident? <==> e.fun.Ident?;
      assert d.args.Cons? ==> d.args.tail == MendExprs(t.x, fn, e.args.tail);
    }
  }

  /** Using, asking and storing go on in a mended state as before. */
  lemma MendedUpdates(x: Repair, st: State, used: set<Binding>, tick: nat, store: map<Obj, Value>)
    ensures Mended(x, st.(used := used, tick := tick, store := store)) ==
      Mended(x, st).(used := used, tick := tick, store := store)
  {
  }

  lemma ReadFollows(t: Twin, v: Value, st: State, mode: Mode)
    ensures t.Follows(st, Read(v, st, mode), Read(v, Mended(t.x, st), mode))
  {
    MendedUpdates(t.x, st, if v.VConf? then st.used + {v.binding} else {}, st.tick, st.store);
  }

  lemma {:induction false} OpaqueFollows(t: Twin, st: State, fuel: nat)
    requires t.Sound()
    ensures t.Follows(st, Opaque(t.p, t.w, st, fuel), Opaque(t.Q(), t.w, Mended(t.x, st), fuel + 2))
    decreases fuel, 0
  {
    hide Exec, RepairStmt, Alike, Mend;
    var k := t.w.pick(st.tick);
    var next := st.(tick := st.tick + 1);
    assert Mended(t.x, next) == Mended(t.x, st).(tick := st.tick + 1);
    if fuel > 0 && k < |st.pool| {
      assert Mended(t.x, st).pool[k] == MendStmt(t.x, st.here, st.pool[k]);
      ExecFollows(t, st.pool[k], next, fuel - 1);
    }
  }

  lemma {:induction false} SelectFollows(t: Twin, v: Value, f: string, st: State, mode: Mode, fuel: nat)
    requires t.Sound()
    ensures t.Follows(st, Select(t.p, t.w, v, f, st, mode, fuel),
      Select(t.Q(), t.w, v, f, Mended(t.x, st), mode, fuel + 2))
    decreases fuel, 0
  {
    hide Opaque, Alike, RepairStmt;
    SameTwins(t);
    if fuel == 0 { return; }
    if (v.VStruct? || v.VConf?) && f in v.fields {
      ReadFollows(t, v.fields[f], st, mode);
    } else if fuel > 1 {
      var asked := st.(used := st.used + set b | b in t.p.bindings && b.field == f);
      assert Mended(t.x, asked) == Mended(t.x, st).(used := asked.used);
      OpaqueFollows(t, asked, fuel - 2);
    }
  }

  lemma {:induction false} LeafFollows(t: Twin, e: Expr, st: State, mode: Mode, fuel: nat)
    requires t.Sound() && fuel > 0 && (e.Ident? || e.StringLit? || e.IntLit? || e.FuncLit?)
    ensures t.Follows(st, Eval(t.p, t.w, e, st, mode, fuel),
      Eval(t.Q(), t.w, MendExpr(t.x, st.here, e), Mended(t.x, st), mode, fuel + 2))
    decreases fuel, 0
  {
    hide Opaque, Alike, Contents;
    if e.Ident? {
      ContentsKept(t.x, t.p, t.w, st);
      if e.obj.None? { OpaqueFollows(t, st, fuel - 1); }
      else if e.obj.value in st.store { VariableFollows(t, e.obj.value, st, mode); }
    } else if e.FuncLit? {
      var after := st.(pool := st.pool + [e.body]);
      assert Mended(t.x, after).pool == Mended(t.x, st).pool + [MendStmt(t.x, st.here, e.body)];
    }
  }

  lemma VariableFollows(t: Twin, o: Obj, st: State, mode: Mode)
    requires o in st.store
    ensures t.Follows(st, Read(Contents(t.p, t.w, st)[o], st, mode),
      Read(Contents(t.Q(), t.w, Mended(t.x, st))[o], Mended(t.x, st), mode))
  {
    ContentsKept(t.x, t.p, t.w, st);
    ReadFollows(t, Contents(t.p, t.w, st)[o], st, mode);
  }

  lemma {:induction false} EvalFollows(t: Twin, e: Expr, st: State, mode: Mode, fuel: nat)
    requires t.Sound()
    ensures t.Follows(st, Eval(t.p, t.w, e, st, mode, fuel),
      Eval(t.Q(), t.w, MendExpr(t.x, st.here, e), Mended(t.x, st), mode, fuel + 2))
    decreases fuel, 1
  {
    hide Opaque, EvalUnary, EvalBinary, EvalCall, EvalComposite, Select, AllAlike, Mended, Mend;
    if fuel == 0 { return; }
    match e
    case Paren(y) => EvalFollows(t, y, st, Sub(mode), fuel - 1);
    case Star(y) => EvalFollows(t, y, st, Sub(mode), fuel - 1);
    case Unary(_, _) => UnaryFollows(t, e, st, mode, fuel - 1);
    case Binary(_, _, _) => BinaryFollows(t, e, st, mode, fuel - 1);
    case Selector(y, f) =>
      EvalFollows(t, y, st, Sub(mode), fuel - 1);
      var r := Eval(t.p, t.w, y, st, Sub(mode), fuel - 1);
      if r.Ok? { SelectFollows(t, r.v, f, r.st, mode, fuel - 1); }
    case Call(_, _) => CallFollows(t, e, st, mode, fuel - 1);
    case Composite(_, _) => CompositeFollows(t, e, st, fuel - 1);
    case Other(parts) =>
      EvalAllFollows(t, parts, st, Normal, fuel - 1);
      var rs := EvalAll(t.p, t.w, parts, st, Normal, fuel - 1);
      if rs.OkAll? { OpaqueFollows(t, rs.st, fuel - 1); }
    case _ => LeafFollows(t, e, st, mode, fuel);
  }

  lemma {:induction false} UnaryFollows(t: Twin, e: Expr, st: State, mode: Mode, fuel: nat)
    requires t.Sound() && e.Unary?
    ensures t.Follows(st, EvalUnary(t.p, t.w, e.uop, e.x, st, mode, fuel),
      EvalUnary(t.Q(), t.w, e.uop, MendExpr(t.x, st.here, e.x), Mended(t.x, st), mode, fuel + 2))
    decreases fuel, 0
  {
    hide Eval, Opaque, AllAlike, Mended, Mend;
    if fuel == 0 { return; }
    EvalFollows(t, e.x, st, Sub(mode), fuel - 1);
    var r := Eval(t.p, t.w, e.x, st, Sub(mode), fuel - 1);
    if r.Ok? { OpaqueFollows(t, r.st, fuel - 1); }
  }

  lemma {:induction false} BinaryFollows(t: Twin, e: Expr, st: State, mode: Mode, fuel: nat)
    requires t.Sound() && e.Binary?
    ensures t.Follows(st, EvalBinary(t.p, t.w, e.bop, e.x, e.y, st, mode, fuel),
      EvalBinary(t.Q(), t.w, e.bop, MendExpr(t.x, st.here, e.x), MendExpr(t.x, st.here, e.y), Mended(t.x, st), mode,
        fuel + 2))
    decreases fuel, 0
  {
    hide Eval, Opaque, Compare, AllAlike, Mended, Mend;
    if fuel == 0 { return; }
    EvalFollows(t, e.x, st, Sub(mode), fuel - 1);
    var r := Eval(t.p, t.w, e.x, st, Sub(mode), fuel - 1);
    if r.Ok? {
      EvalFollows(t, e.y, r.st, Sub(mode), fuel - 1);
      var q := Eval(t.p, t.w, e.y, r.st, Sub(mode), fuel - 1);
      if q.Ok? { OpaqueFollows(t, q.st, fuel - 1); }
    }
  }

  lemma {:induction false} EvalAllFollows(t: Twin, es: Exprs, st: State, mode: Mode, fuel: nat)
    requires t.Sound()
    ensures t.AllFollow(st, EvalAll(t.p, t.w, es, st, mode, fuel),
      EvalAll(t.Q(), t.w, MendExprs(t.x, st.here, es), Mended(t.x, st), mode, fuel + 2))
    decreases fuel, 0
  {
    hide Eval, AllAlike, Mended, Mend;
    if fuel == 0 || es.Nil? { return; }
    EvalFollows(t, es.head, st, mode, fuel - 1);
    var r := Eval(t.p, t.w, es.head, st, mode, fuel - 1);
    if r.Ok? { EvalAllFollows(t, es.tail, r.st, mode, fuel - 1); }
  }

  lemma {:induction false} CompositeFollows(t: Twin, e: Expr, st: State, fuel: nat)
    requires t.Sound() && e.Composite?
    ensures t.Follows(st, EvalComposite(t.p, t.w, e.typ, e.elts, st, fuel),
      EvalComposite(t.Q(), t.w, e.typ, MendExprs(t.x, st.here, e.elts), Mended(t.x, st), fuel + 2))
    decreases fuel, 0
  {
    hide EvalAll, Build, AllAlike, Mended, Mend;
    if fuel == 0 { return; }
    EvalAllFollows(t, e.elts, st, Normal, fuel - 1);
    var rs := EvalAll(t.p, t.w, e.elts, st, Normal, fuel - 1);
    if rs.OkAll? {
      SameTwins(t);
      BuildKept(t.p, t.Q(), e.typ, e.elts, 0, rs.vs, t.x.pos, CondIn(t.x, st.here));
    }
  }

  lemma {:induction false} CallFollows(t: Twin, e: Expr, st: State, mode: Mode, fuel: nat)
    requires t.Sound() && e.Call?
    ensures t.Follows(st, EvalCall(t.p, t.w, e, st, mode, fuel),
      EvalCall(t.Q(), t.w, MendExpr(t.x, st.here, e), Mended(t.x, st), mode, fuel + 2))
    decreases fuel, 1
  {
    hide Eval, EvalAll, Invoke, Opaque, AllAlike, Mended, Mend, IsPredicateHelper, Package.Callee;
    if fuel == 0 { return; }
    LenKept(t, st.here, e);
    CalleeKept(t, st.here, e.fun);
    if t.p.IsBuiltinLen(e) {
      EvalFollows(t, e.args.head, st, Sub(mode), fuel - 1);
    } else if t.p.Callee(e.fun).Some? {
      KnownCallFollows(t, e, st, mode, fuel);
    } else {
      EvalFollows(t, e.fun, st, Normal, fuel - 1);
      var r := Eval(t.p, t.w, e.fun, st, Normal, fuel - 1);
      if r.Ok? {
        EvalAllFollows(t, e.args, r.st, Normal, fuel - 1);
        var rs := EvalAll(t.p, t.w, e.args, r.st, Normal, fuel - 1);
        if rs.OkAll? { OpaqueFollows(t, rs.st, fuel - 1); }
      }
    }
  }

  lemma {:induction false} KnownCallFollows(t: Twin, e: Expr, st: State, mode: Mode, fuel: nat)
    requires t.Sound() && e.Call? && !t.p.IsBuiltinLen(e) && t.p.Callee(e.fun).Some? && fuel > 0
    ensures t.Follows(st, EvalCall(t.p, t.w, e, st, mode, fuel),
      EvalCall(t.Q(), t.w, MendExpr(t.x, st.here, e), Mended(t.x, st), mode, fuel + 2))
    decreases fuel, 0
  {
    hide Eval, EvalAll, EvalCall, Invoke, AllAlike, Mended, Mend, IsPredicateHelper, Package.Callee;
    var fn := t.p.Callee(e.fun).value;
    LenKept(t, st.here, e);
    CalleeKept(t, st.here, e.fun);
    HelperKept(t.x, fn);
    KnownCall(t.p, t.w, e, st, mode, fuel);
    KnownCall(t.Q(), t.w, MendExpr(t.x, st.here, e), Mended(t.x, st), mode, fuel + 2);
    var argMode := if mode == InCond && IsPredicateHelper(fn) then InCond else Normal;
    EvalAllFollows(t, e.args, st, argMode, fuel - 1);
    var rs := EvalAll(t.p, t.w, e.args, st, argMode, fuel - 1);
    if rs.OkAll? { InvokeFollows(t, fn, rs.vs, rs.st, fuel - 1); }
  }

  lemma FrameMended(x: Repair, fn: Function, frame: map<Obj, Value>, st: State)
    ensures Entered(MendFunction(x, fn), frame, Mended(x, st)) == Mended(x, Entered(fn, frame, st))
  {
  }

  lemma BackMended(x: Repair, st: State, after: State)
    ensures var back := st.(used := after.used, tick := after.tick, decisions := after.decisions);
      Mended(x, back) == Mended(x, st).(used := after.used, tick := after.tick, decisions := Mended(x, after).decisions)
  {
  }

  lemma {:induction false} InvokeFollows(t: Twin, fn: Function, vs: seq<Value>, st: State, fuel: nat)
    requires t.Sound()
    ensures t.Follows(st, Invoke(t.p, t.w, fn, vs, st, fuel),
      Invoke(t.Q(), t.w, MendFunction(t.x, fn), vs, Mended(t.x, st), fuel + 2))
    decreases fuel, 0
  {
    hide Exec, Alike, Mended, Mend;
    if fuel == 0 || |vs| != |fn.params| { return; }
    var frame := BindParams(fn.params, vs);
    SameTwins(t);
    FrameMended(t.x, fn, frame, st);
    if AllFit(t.p, frame) {
      ExecFollows(t, fn.body, Entered(fn, frame, st), fuel - 1);
      var flow := Exec(t.p, t.w, fn.body, Entered(fn, frame, st), fuel - 1);
      BackMended(t.x, st, flow.st);
      MendedParts(t.x, flow.st);
    }
  }

  lemma MendedParts(x: Repair, st: State)
    ensures Mended(x, st).used == st.used && Mended(x, st).tick == st.tick && Mended(x, st).store == st.store
    ensures Mended(x, st).here == MendFunction(x, st.here)
  {
  }

  // ---- Statements ----

  lemma {:induction false} StoreFollows(t: Twin, lhs: Expr, v: Value, st: State, fuel: nat)
    requires t.Sound()
    ensures t.FlowFollows(st, Store(t.p, t.w, lhs, v, st, fuel),
      Store(t.Q(), t.w, MendExpr(t.x, st.here, lhs), v, Mended(t.x, st), fuel + 2))
    decreases fuel, 0
  {
    hide Eval, WriteAt, Alike, Mended, Mend, PlaceOf;
    if fuel == 0 { return; }
    SameTwins(t);
    MendedParts(t.x, st);
    PlaceKept(lhs, t.x.pos, CondIn(t.x, st.here));
    var place := PlaceOf(lhs);
    if lhs.Ident? {
      if lhs.obj.Some? { MendedUpdates(t.x, st, st.used, st.tick, st.store[lhs.obj.value := v]); }
    } else if place.None? {
      EvalFollows(t, lhs, st, Normal, fuel - 1);
    } else {
      WriteFollows(t, lhs, v, st, fuel);
    }
  }

  lemma WriteFollows(t: Twin, lhs: Expr, v: Value, st: State, fuel: nat)
    requires t.Sound() && !lhs.Ident? && PlaceOf(lhs).Some? && fuel > 0
    ensures t.FlowFollows(st, Store(t.p, t.w, lhs, v, st, fuel),
      Store(t.Q(), t.w, MendExpr(t.x, st.here, lhs), v, Mended(t.x, st), fuel + 2))
  {
    hide Eval, Store, WriteAt, AllAlike, Mended, Mend, PlaceOf, MendExpr, Fits, MendFunction;
    var e, su := MendExpr(t.x, st.here, lhs), Mended(t.x, st);
    var (o, path) := PlaceOf(lhs).value;
    SameTwins(t);
    MendedParts(t.x, st);
    PlaceMended(t.x, st.here, lhs);
    PlaceStored(t.p, t.w, lhs, v, st, fuel);
    PlaceStored(t.Q(), t.w, e, v, su, fuel + 2);
    if o in st.store {
      WriteKept(t.p, t.Q(), st.store[o], path, v);
      var (written, hit) := WriteAt(t.p, st.store[o], path, v);
      SameFit(t.p, t.Q(), o, written);
      SameAlike(t.x, st, st.used + hit, st.tick + 1, st.store);
      if written.Some? {
        MendedUpdates(t.x, st, st.used + hit, st.tick + 1, st.store[o := written.value]);
        SameAlike(t.x, st, st.used + hit, st.tick + 1, st.store[o := written.value]);
      }
    }
  }

  lemma PlaceMended(x: Repair, fn: Function, lhs: Expr)
    ensures PlaceOf(MendExpr(x, fn, lhs)) == PlaceOf(lhs) && MendExpr(x, fn, lhs).Ident? == lhs.Ident?
  {
    PlaceKept(lhs, x.pos, CondIn(x, fn));
  }

  lemma SameFit(p: Package, q: Package, o: Obj, v: Option<Value>)
    requires SameTypes(p, q)
    ensures v.Some? ==> Fits(q, o, v.value) == Fits(p, o, v.value)
  {
  }

  lemma SameAlike(x: Repair, st: State, used: set<Binding>, tick: nat, store: map<Obj, Value>)
    ensures AllAlike(x, st.(used := used, tick := tick, store := store)) == AllAlike(x, st)
  {
  }

  lemma {:induction false} AssignFollows(t: Twin, s: Stmt, st: State, fuel: nat)
    requires t.Sound() && fuel > 0 && (s.Assign? || s.ExprStmt? || s.IncDec? || s.Return?)
    ensures t.FlowFollows(st, Exec(t.p, t.w, s, st, fuel),
      Exec(t.Q(), t.w, MendStmt(t.x, st.here, s), Mended(t.x, st), fuel + 2))
    decreases fuel, 0
  {
    hide Eval, Store, Opaque, AllAlike, Mended, Mend;
    match s
    case Assign(_, kind, lhs, rhs) =>
      var aliasing := !kind.Plain? && lhs.Ident?;
      EvalFollows(t, rhs, st, if aliasing then AliasDef else Normal, fuel - 1);
      var r := Eval(t.p, t.w, rhs, st, if aliasing then AliasDef else Normal, fuel - 1);
      if r.Ok? { StoreFollows(t, lhs, if aliasing then r.v else Detach(r.v), r.st, fuel - 1); }
    case IncDec(e) =>
      OpaqueFollows(t, st, fuel - 1);
      var r := Opaque(t.p, t.w, st, fuel - 1);
      if r.Ok? { StoreFollows(t, e, r.v, r.st, fuel - 1); }
    case ExprStmt(e) => EvalFollows(t, e, st, Normal, fuel - 1);
    case Return(e) => EvalFollows(t, e, st, Normal, fuel - 1);
  }

  /** Where an expression reads as something in plain sight, it evaluates to that, in either package. */
  lemma {:induction false} PlainEval(p: Package, w: World, e: Expr, st: State, fuel: nat, v: Value)
    requires ValueIn(Contents(p, w, st), e) == Some(v) && Eval(p, w, e, st, InCond, fuel).Ok?
    ensures Eval(p, w, e, st, InCond, fuel) == Ok(v, st)
    decreases e
  {
    match e
    case Ident(_, _) =>
    case Paren(y) => PlainEval(p, w, y, st, fuel - 1, ValueIn(Contents(p, w, st), y).value);
    case Star(y) => PlainEval(p, w, y, st, fuel - 1, ValueIn(Contents(p, w, st), y).value);
    case Unary(_, y) => PlainEval(p, w, y, st, fuel - 2, ValueIn(Contents(p, w, st), y).value);
    case Selector(y, _) => PlainEval(p, w, y, st, fuel - 1, ValueIn(Contents(p, w, st), y).value);
  }

  lemma {:induction false} PlainToo(t: Twin, e: Expr, st: State, fuel: nat)
    requires ValueIn(Contents(t.p, t.w, st), e).Some? && Eval(t.p, t.w, e, st, InCond, fuel).Ok?
    ensures Eval(t.Q(), t.w, e, Mended(t.x, st), InCond, fuel).Ok?
    ensures Contents(t.Q(), t.w, Mended(t.x, st)) == Contents(t.p, t.w, st)
    decreases e
  {
    hide Contents;
    ContentsKept(t.x, t.p, t.w, st);
    match e
    case Ident(_, _) =>
    case Paren(y) => PlainToo(t, y, st, fuel - 1);
    case Star(y) => PlainToo(t, y, st, fuel - 1);
    case Unary(_, y) => PlainToo(t, y, st, fuel - 2);
    case Selector(y, _) =>
      PlainToo(t, y, st, fuel - 1);
      PlainEval(t.p, t.w, y, st, fuel - 1, ValueIn(Contents(t.p, t.w, st), y).value);
      PlainEval(t.Q(), t.w, y, Mended(t.x, st), fuel - 1, ValueIn(Contents(t.p, t.w, st), y).value);
  }

  lemma {:induction false} IfFollows(t: Twin, s: Stmt, st: State, fuel: nat)
    requires t.Sound() && s.If? && fuel > 0
    ensures t.FlowFollows(st, Exec(t.p, t.w, s, st, fuel),
      Exec(t.Q(), t.w, MendStmt(t.x, st.here, s), Mended(t.x, st), fuel + 2))
    decreases fuel, 0
  {
    hide Eval, AllAlike, Mended, Mend, IsGuard;
    ExecFollows(t, s.init, st, fuel - 1);
    var flow := Exec(t.p, t.w, s.init, st, fuel - 1);
    if flow.Next? {
      var seen := Contents(t.p, t.w, flow.st);
      ContentsKept(t.x, t.p, t.w, flow.st);
      ConditionFollows(t, s, flow.st, fuel - 1);
      var r := Eval(t.p, t.w, s.cond, flow.st, InCond, fuel - 1);
      if r.Ok? && r.v.VBool? {
        NotedMended(t.x, r.st, s, r.v.b, seen);
        ExecFollows(t, if r.v.b then s.body else s.els, Noted(r.st, s, r.v.b, seen), fuel - 1);
      }
    }
  }

  lemma NotedMended(x: Repair, st: State, s: Stmt, taken: bool, seen: map<Obj, Value>)
    ensures Mended(x, Noted(st, s, taken, seen)) == Noted(Mended(x, st), MendStmt(x, st.here, s), taken, seen)
    ensures AllAlike(x, Noted(st, s, taken, seen)) ==>
      AllAlike(x, st) && Alike(x, Decision(st.here, s, taken, seen))
  {
    hide RepairStmt, Alike;
    var d := Decision(st.here, s, taken, seen);
    assert MendDecisions(x, st.decisions + [d]) == MendDecisions(x, st.decisions) + [MendDecision(x, d)];
    if AllAlike(x, Noted(st, s, taken, seen)) {
      var ds := st.decisions + [d];
      assert ds[|st.decisions|] == d && forall i | 0 <= i < |st.decisions| :: ds[i] == st.decisions[i];
    }
  }

  /** The condition of an if, extended or not, gives the same in both packages where they are alike. */
  lemma {:induction false} ConditionFollows(t: Twin, s: Stmt, st: State, fuel: nat)
    requires t.Sound() && s.If?
    ensures var r := Eval(t.p, t.w, s.cond, st, InCond, fuel);
      var q := Eval(t.Q(), t.w, MendStmt(t.x, st.here, s).cond, Mended(t.x, st), InCond, fuel + 2);
      && r.st.here == st.here && (AllAlike(t.x, r.st) ==> AllAlike(t.x, st))
      && (r.Ok? && r.v.VBool? && AllAlike(t.x, r.st)
          && Alike(t.x, Decision(st.here, s, r.v.b, Contents(t.p, t.w, st))) ==>
        q == MendResult(t.x, r))
    decreases fuel, 2
  {
    hide Eval, AllAlike, Mended, Mend;
    EvalFollows(t, s.cond, st, InCond, fuel);
    if IsGuard(s, t.x.pos, CondIn(t.x, st.here)) {
      var r := Eval(t.p, t.w, s.cond, st, InCond, fuel);
      if r.Ok? && Unsteered(Contents(t.p, t.w, st), s.cond.x.x) { GuardFollows(t, s.cond, st, fuel); }
    }
  }

  /** An extended guard that finds no target where it finds no discovery decides as before. */
  lemma GuardFollows(t: Twin, cond: Expr, st: State, fuel: nat)
    requires DiscoveryTest(cond) && Unsteered(Contents(t.p, t.w, st), cond.x.x)
    requires Eval(t.p, t.w, cond, st, InCond, fuel).Ok?
    ensures Eval(t.Q(), t.w, Extend(cond), Mended(t.x, st), InCond, fuel + 2) ==
      MendResult(t.x, Eval(t.p, t.w, cond, st, InCond, fuel))
  {
    hide Contents, Mended, Mend;
    var receiver, su := cond.x.x, Mended(t.x, st);
    var conf := ValueIn(Contents(t.p, t.w, st), receiver).value;
    TestRuns(t.p, t.w, cond, st, fuel);
    PlainEval(t.p, t.w, receiver, st, fuel - 3, conf);
    PlainToo(t, receiver, st, fuel - 3);
    PlainEval(t.Q(), t.w, receiver, su, fuel - 3, conf);
    TestEval(t.p, t.w, cond, st, Ok(conf, st), fuel);
    TestEval(t.Q(), t.w, cond, su, Ok(conf, su), fuel);
    TestEval(t.Q(), t.w, Extend(cond).y, su, Ok(conf, su), fuel);
    hide Eval;
    OrRuns(t.Q(), t.w, Extend(cond), su, fuel + 2);
  }

  /** A discovery test that comes out has evaluated its receiver. */
  lemma TestRuns(p: Package, w: World, cond: Expr, st: State, fuel: nat)
    requires DiscoveryTest(cond) && Eval(p, w, cond, st, InCond, fuel).Ok?
    ensures fuel >= 4 && Eval(p, w, cond.x.x, st, InCond, fuel - 3).Ok?
  {
    assert fuel > 0 && cond == Binary(NeqOp, cond.x, cond.y) && cond.x == Selector(cond.x.x, "DiscovType");
    assert Eval(p, w, cond, st, InCond, fuel) == EvalBinary(p, w, NeqOp, cond.x, cond.y, st, InCond, fuel - 1);
    assert fuel > 1 && Eval(p, w, cond.x, st, InCond, fuel - 2).Ok?;
    assert fuel > 2 && Eval(p, w, cond.x.x, st, InCond, fuel - 3).Ok?;
  }

  /** A disjunction, unfolded. */
  lemma OrRuns(p: Package, w: World, e: Expr, st: State, fuel: nat)
    requires e.Binary? && e.bop.OrOp? && fuel >= 2
    requires Eval(p, w, e.x, st, InCond, fuel - 2).Ok? && Eval(p, w, e.x, st, InCond, fuel - 2).v.VBool?
    requires var r := Eval(p, w, e.x, st, InCond, fuel - 2);
      Eval(p, w, e.y, r.st, InCond, fuel - 2).Ok? && Eval(p, w, e.y, r.st, InCond, fuel - 2).v.VBool?
    ensures var r := Eval(p, w, e.x, st, InCond, fuel - 2);
      Eval(p, w, e, st, InCond, fuel) == if r.v.b then r else Eval(p, w, e.y, r.st, InCond, fuel - 2)
  {
    assert Eval(p, w, e, st, InCond, fuel) == EvalBinary(p, w, OrOp, e.x, e.y, st, InCond, fuel - 1);
  }

  lemma {:induction false} ForFollows(t: Twin, s: Stmt, st: State, fuel: nat)
    requires t.Sound() && s.For? && fuel > 0
    ensures t.FlowFollows(st, Exec(t.p, t.w, s, st, fuel),
      Exec(t.Q(), t.w, MendStmt(t.x, st.here, s), Mended(t.x, st), fuel + 2))
    decreases fuel, 0
  {
    hide Eval, AllAlike, Mended, Mend;
    EvalFollows(t, s.cond, st, Normal, fuel - 1);
    var r := Eval(t.p, t.w, s.cond, st, Normal, fuel - 1);
    if r.Ok? && r.v.VBool? && r.v.b {
      ExecFollows(t, s.body, r.st, fuel - 1);
      var flow := Exec(t.p, t.w, s.body, r.st, fuel - 1);
      if flow.Next? { ExecFollows(t, s, flow.st, fuel - 1); }
    }
  }

  lemma {:induction false} ExecFollows(t: Twin, s: Stmt, st: State, fuel: nat)
    requires t.Sound()
    ensures t.FlowFollows(st, Exec(t.p, t.w, s, st, fuel),
      Exec(t.Q(), t.w, MendStmt(t.x, st.here, s), Mended(t.x, st), fuel + 2))
    decreases fuel, 1
  {
    hide Eval, Store, Opaque, AllAlike, Mended, Mend;
    if fuel == 0 { return; }
    match s
    case Skip =>
    case Seq(a, b) =>
      ExecFollows(t, a, st, fuel - 1);
      var flow := Exec(t.p, t.w, a, st, fuel - 1);
      if flow.Next? { ExecFollows(t, b, flow.st, fuel - 1); }
    case If(_, _, _, _, _) => IfFollows(t, s, st, fuel);
    case For(_, _) => ForFollows(t, s, st, fuel);
    case _ => AssignFollows(t, s, st, fuel);
  }

  // ---- Whole runs, any number of repairs ----

  /** What the repairs make of one function. */
  function RepairedFunction(fn: Function, xs: seq<Repair>): Function
    decreases |xs|
  {
    if xs == [] then fn else RepairedFunction(MendFunction(xs[0], fn), xs[1..])
  }

  lemma {:induction false} RepairedByName(p: Package, xs: seq<Repair>, name: string)
    requires Named(p) && name in p.functions
    ensures name in Repaired(p, xs).functions
    ensures Repaired(p, xs).functions[name] == RepairedFunction(p.functions[name], xs)
    decreases |xs|
  {
    hide MendFunction;
    if xs != [] {
      MendIsRepair(xs[0], p);
      RepairedByName(Mend(xs[0], p), xs[1..], name);
    }
  }

  /** The same way, at the same place, with the same guard but for its extension, and the same variables. */
  predicate SameDecision(d: Decision, e: Decision) {
    && e.taken == d.taken && e.seen == d.seen && e.fn.name == d.fn.name
    && StripStmt(e.guard) == StripStmt(d.guard) && StripStmt(e.fn.body) == StripStmt(d.fn.body)
  }

  predicate SameDecisions(ds: seq<Decision>, es: seq<Decision>) {
    |es| == |ds| && forall i | 0 <= i < |ds| :: SameDecision(ds[i], es[i])
  }

  /** The first repair leaves the guards of the others where they were. */
  lemma AlikeAfter(x: Repair, y: Repair, d: Decision)
    requires DiscoveryTest(x.cond) && Simple(x.cond.x.x) && DiscoveryTest(y.cond) && Simple(y.cond.x.x)
    requires Alike(y, d)
    ensures Alike(y, MendDecision(x, d))
  {
    if d.fn.name != x.name {
      NothingFound(d.guard, x.pos);
    } else if IsGuard(MendDecision(x, d).guard, y.pos, y.cond) {
      GuardBefore(d.guard, x, y);
    }
  }

  /** A guard that is still bare was the same guard before. */
  lemma GuardBefore(s: Stmt, x: Repair, y: Repair)
    requires DiscoveryTest(x.cond) && Simple(x.cond.x.x) && DiscoveryTest(y.cond) && Simple(y.cond.x.x)
    requires IsGuard(RepairStmt(s, x.pos, x.cond), y.pos, y.cond)
    ensures IsGuard(s, y.pos, y.cond)
  {
    RepairKeepsShape(s, x.pos, x.cond);
    if !IsGuard(s, x.pos, x.cond) {
      var c := s.cond;
      SameKind(c, x.pos, x.cond);
      SameKind(c.x, x.pos, x.cond);
      SimpleKept(c.x.x, x.pos, x.cond);
      SimpleUntouched(c.x.x, x.pos, x.cond);
    }
  }

  /** One repair, from the outermost call. */
  lemma MendedRunsAlike(p: Package, w: World, x: Repair, fn: Function, args: seq<Value>, fuel: nat)
    requires Named(p) && DiscoveryTest(x.cond)
    requires var r := Invoke(p, w, fn, args, Start(fn), fuel); r.Ok? && AllAlike(x, r.st)
    ensures var g := MendFunction(x, fn);
      Invoke(Mend(x, p), w, g, args, Start(g), fuel + 2) == MendResult(x, Invoke(p, w, fn, args, Start(fn), fuel))
  {
    hide Invoke;
    InvokeFollows(Twin(p, w, x), fn, args, Start(fn), fuel);
    assert Mended(x, Start(fn)) == Start(MendFunction(x, fn));
  }

  /** Repair by repair. */
  lemma {:induction false} FunctionRunsAlike(p: Package, w: World, xs: seq<Repair>, fn: Function, args: seq<Value>,
    fuel: nat)
    requires Named(p) && ProperRepairs(xs)
    requires var r := Invoke(p, w, fn, args, Start(fn), fuel);
      r.Ok? && forall i | 0 <= i < |xs| :: AllAlike(xs[i], r.st)
    ensures var r, g := Invoke(p, w, fn, args, Start(fn), fuel), RepairedFunction(fn, xs);
      var q := Invoke(Repaired(p, xs), w, g, args, Start(g), fuel + 2 * |xs|);
      q.Ok? && q.v == r.v && q.st.used == r.st.used && SameDecisions(r.st.decisions, q.st.decisions)
    decreases |xs|
  {
    hide Invoke, Mend, MendFunction, RepairOnce, AllAlike, SameDecision, DiscoveryTest, Simple;
    var r := Invoke(p, w, fn, args, Start(fn), fuel);
    if xs == [] {
      DecisionsReflexive(r.st.decisions);
    } else {
      var x, g := xs[0], MendFunction(xs[0], fn);
      MendedRunsAlike(p, w, x, fn, args, fuel);
      MendIsRepair(x, p);
      forall i | 0 <= i < |xs[1..]| ensures AllAlike(xs[1..][i], Mended(x, r.st)) {
        assert xs[1..][i] == xs[i + 1];
        AllAlikeAfter(x, xs[i + 1], r.st);
      }
      FunctionRunsAlike(Mend(x, p), w, xs[1..], g, args, fuel + 2);
      var last := RepairedFunction(fn, xs);
      var q := Invoke(Repaired(p, xs), w, last, args, Start(last), fuel + 2 * |xs|);
      SameDecisionsAfter(x, r.st);
      SameDecisionsTrans(r.st.decisions, Mended(x, r.st).decisions, q.st.decisions);
    }
  }

  lemma DecisionsReflexive(ds: seq<Decision>)
    ensures SameDecisions(ds, ds)
  {
  }

  lemma AllAlikeAfter(x: Repair, y: Repair, st: State)
    requires DiscoveryTest(x.cond) && Simple(x.cond.x.x) && DiscoveryTest(y.cond) && Simple(y.cond.x.x)
    requires AllAlike(y, st)
    ensures AllAlike(y, Mended(x, st))
  {
    hide Alike;
    forall i | 0 <= i < |st.decisions| ensures Alike(y, MendDecision(x, st.decisions[i])) {
      AlikeAfter(x, y, st.decisions[i]);
    }
  }

  lemma SameDecisionsAfter(x: Repair, st: State)
    requires DiscoveryTest(x.cond) && Simple(x.cond.x.x)
    ensures SameDecisions(st.decisions, Mended(x, st).decisions)
  {
    hide SameDecision;
    forall i | 0 <= i < |st.decisions| ensures SameDecision(st.decisions[i], MendDecision(x, st.decisions[i])) {
      DecisionKept(x, st.decisions[i]);
    }
  }

  lemma DecisionKept(x: Repair, d: Decision)
    requires DiscoveryTest(x.cond) && Simple(x.cond.x.x)
    ensures SameDecision(d, MendDecision(x, d))
  {
    if d.fn.name == x.name {
      RepairPreserves(d.guard, x.pos, x.cond);
      RepairPreserves(d.fn.body, x.pos, x.cond);
    } else {
      NothingFound(d.guard, x.pos);
      NothingFound(d.fn.body, x.pos);
    }
  }

  lemma SameDecisionsTrans(a: seq<Decision>, b: seq<Decision>, c: seq<Decision>)
    requires SameDecisions(a, b) && SameDecisions(b, c)
    ensures SameDecisions(a, c)
  {
    forall i | 0 <= i < |a| ensures SameDecision(a[i], c[i]) {
      assert SameDecision(a[i], b[i]) && SameDecision(b[i], c[i]);
    }
  }

  /**
   The repaired package runs like the original. Wherever a finished run of the original asks one of the
   guards that were extended, let its receiver be a client configuration whose target is set only where
   discovery is. Then the repaired function returns the same, having used the same bindings and decided
   every if the same way on the same variables.
   */
  lemma RepairedRunsAlike(p: Package, w: World, xs: seq<Repair>, name: string, args: seq<Value>, fuel: nat)
    requires Named(p) && ProperRepairs(xs) && name in p.functions
    requires var r := Invoke(p, w, p.functions[name], args, Start(p.functions[name]), fuel);
      r.Ok? && forall i | 0 <= i < |xs| :: AllAlike(xs[i], r.st)
    ensures name in Repaired(p, xs).functions
    ensures var fn, g := p.functions[name], Repaired(p, xs).functions[name];
      var r := Invoke(p, w, fn, args, Start(fn), fuel);
      var q := Invoke(Repaired(p, xs), w, g, args, Start(g), fuel + 2 * |xs|);
      q.Ok? && q.v == r.v && q.st.used == r.st.used && SameDecisions(r.st.decisions, q.st.decisions)
  {
    hide Invoke;
    RepairedByName(p, xs, name);
    FunctionRunsAlike(p, w, xs, p.functions[name], args, fuel);
  }
}
