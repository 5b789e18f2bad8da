/**
 Runs of functions that the target inspection accepts. The inspection runs on its own, without the
 certification, so it does not see that a function writes to a binding, gives its address away, fills
 one with a literal or leaves one unset. In a package that does none of this, every configuration keeps
 agreeing with its profile, and every guard a run reaches leads to the construction behind it.
 */
module RpcTargetRuns {
  import opened Options
  import opened GoSyntax
  import opened GoSemantics
  import opened RpcGuards
  import opened RpcAliases
  import opened RpcCertifier
  import opened RpcConstruction
  import opened RpcSoundness
  import opened RpcSafety
  import opened RpcTarget

  // ---- What a package must not do ----

  /** A write that enters no binding: not through an alias, and along no field that a binding is called. */
  predicate PlaceSpared(p: Package, t: Tables, e: Expr) {
    (PlaceOf(e).Some? ==> PlaceOf(e).value.0 !in t.aliases) && !RunsAlong(p, e)
  }

  /** An assignment or increment that writes to no binding and assigns no alias again. */
  predicate Spares(p: Package, t: Tables, s: Stmt) {
    match s
    case Assign(_, _, lhs, _) => if lhs.Ident? then !Reassigns(t, s) else PlaceSpared(p, t, lhs)
    case IncDec(e) => PlaceSpared(p, t, e)
    case _ => true
  }

  ghost predicate FunctionSpares(p: Package, fn: Function) {
    forall s | s in AssignsOf(fn.body) :: Spares(p, TablesOf(p, fn), s)
  }

  /** Nothing in the package writes to a binding, and its literals and addresses keep the profile. */
  ghost predicate LeavesBindings(p: Package, profile: Profile) {
    forall name | name in p.functions ::
      FunctionSpares(p, p.functions[name]) && CodeKeeps(p, profile, p.functions[name].body)
  }

  // ---- What a run of such a package keeps ----

  /** The if leads to the constructions of b's client behind it, on the way it took. */
  ghost predicate LeadsOn(p: Package, b: Binding, d: Decision) {
    d.guard.If? && forall site, a, branch |
      && site in Sites(d.fn.body, false, []) && branch in site.branches && a in Arguments(site.args)
      && Resolve(p, TablesOf(p, d.fn), a) == Some(b)
      && TargetVerdict(p, TablesOf(p, d.fn), branch.cond, b).1
      && (branch == Then(d.guard) || branch == Else(d.guard))
      :: d.taken == branch.taken
  }

  ghost predicate DecidedWell(p: Package, b: Binding, profile: Profile, d: Decision) {
    profile.TargetOnly? && InspectTarget(p, d.fn).None? ==> LeadsOn(p, b, d)
  }

  /** A frame of function `fn`, in a run with these opaque results, in which b agrees with the profile. */
  datatype Course = Course(p: Package, w: World, b: Binding, profile: Profile, fn: Function) {
    ghost function Tables(): Tables { TablesOf(p, fn) }

    ghost function Stmts(): seq<Stmt> { AssignsOf(fn.body) }

    ghost predicate Sound() {
      && WellTyped(p) && LeavesBindings(p, profile) && WorldAgrees(p, w, b, profile)
      && WellDeclared(p, fn) && FunctionSpares(p, fn) && CodeKeeps(p, profile, fn.body)
      && FrameOk(p, Tables(), Stmts())
    }

    ghost predicate Good(st: State) {
      && StoreOk(p, Tables(), b, profile, st.store) && st.here == fn
      && (forall i | 0 <= i < |st.pool| :: FineStmt(st.pool[i]))
      && (forall i | 0 <= i < |st.decisions| :: DecidedWell(p, b, profile, st.decisions[i]))
    }

    /** A value in which every configuration agrees, but perhaps one copied out of its field. */
    ghost predicate Fair(v: Value) { Loose(p, b, profile, v) }

    ghost predicate GoodResult(r: Result) { Good(r.st) && (r.Ok? ==> Fair(r.v)) }

    ghost predicate GoodResults(rs: Results) { Good(rs.st) && (rs.OkAll? ==> forall v | v in rs.vs :: Fair(v)) }

    ghost predicate GoodFlow(flow: Flow) {
      Good(flow.st) && (flow.Returned? ==> Plainly(p, b, profile, flow.v))
    }

    ghost predicate Covers(part: seq<Stmt>) { forall s | s in part :: s in Stmts() }

    /** Code of the function that keeps the profile. */
    ghost predicate FineStmt(s: Stmt) { Covers(AssignsOf(s)) && CodeKeeps(p, profile, s) }

    ghost predicate Fine(e: Expr) { Covers(AssignsIn(e)) && CodeKeepsIn(p, profile, e) }

    ghost predicate FineAll(es: Exprs) { Covers(AssignsInAll(es)) && CodeKeepsInAll(p, profile, es) }
  }

  lemma CoversBoth(x: Course, a: seq<Stmt>, b: seq<Stmt>)
    requires x.Covers(a + b)
    ensures x.Covers(a) && x.Covers(b)
  {
    forall s | s in a || s in b ensures s in x.Stmts() { assert s in a + b; }
  }

  lemma {:induction false} PartsFine(x: Course, e: Expr)
    requires x.Fine(e)
    ensures match e
      case Paren(y) => x.Fine(y)
      case Star(y) => x.Fine(y)
      case Unary(_, y) => x.Fine(y)
      case Selector(y, _) => x.Fine(y)
      case Binary(_, y, z) => x.Fine(y) && x.Fine(z)
      case Call(fun, args) => x.Fine(fun) && x.FineAll(args)
      case Composite(typ, elts) => LiteralKeeps(x.p, x.profile, typ, elts) && x.FineAll(elts)
      case FuncLit(body) => x.FineStmt(body)
      case Other(parts) => x.FineAll(parts)
      case _ => true
  {
    match e
    case Binary(_, y, z) => CoversBoth(x, AssignsIn(y), AssignsIn(z));
    case Call(fun, args) => CoversBoth(x, AssignsIn(fun), AssignsInAll(args));
    case _ =>
  }

  lemma {:induction false} AllFine(x: Course, es: Exprs)
    requires x.FineAll(es) && es.Cons?
    ensures x.Fine(es.head) && x.FineAll(es.tail)
  {
    CoversBoth(x, AssignsIn(es.head), AssignsInAll(es.tail));
  }

  lemma FairDetach(x: Course, v: Value)
    requires x.Sound() && x.Fair(v)
    ensures Plainly(x.p, x.b, x.profile, Detach(v)) && x.Fair(Detach(v))
  {
  }

  lemma FairAgreeing(x: Course, v: Value)
    requires x.Sound() && Wf(x.p, x.b, x.profile, v)
    ensures x.Fair(v)
  {
    DetachPlain(x.p, x.b, x.profile, v);
  }

  /** What has been used, and how far the oracle was asked, does not matter to the frame. */
  lemma StillGood(x: Course, st: State, used: set<Binding>, tick: nat)
    requires x.Good(st)
    ensures x.Good(st.(used := used, tick := tick))
  {
  }

  /** What the variables read as is as good as what they hold. */
  lemma ReadsGood(x: Course, st: State)
    requires x.Sound() && x.Good(st)
    ensures StoreOk(x.p, x.Tables(), x.b, x.profile, Contents(x.p, x.w, st))
  {
    hide Wf, Shares, DecidedWell, WellTyped, LeavesBindings, WellDeclared, FunctionSpares, CodeKeeps, TablesOf,
      Course.FineStmt;
    forall o | o in st.store && Shares(x.fn.body, o) ensures x.profile.Blank? || !Entrusted(x.p, o) {
      if x.profile.TargetOnly? { SharedElsewhere(x.p, x.fn.body, o); }
    }
    assert forall o | o in x.Tables().aliases :: Entrusted(x.p, o);
  }

  lemma {:induction false} KeepsOpaque(x: Course, st: State, fuel: nat)
    requires x.Sound() && x.Good(st)
    ensures x.GoodResult(Opaque(x.p, x.w, st, fuel))
    ensures var r := Opaque(x.p, x.w, st, fuel); r.Ok? ==> Plainly(x.p, x.b, x.profile, r.v)
    decreases fuel, 0
  {
    hide Wf, FrameOk, LeavesBindings, WellDeclared, WellTyped, FunctionSpares, Exec;
    var k := x.w.pick(st.tick);
    var next := st.(tick := st.tick + 1);
    assert Plainly(x.p, x.b, x.profile, x.w.value(st.tick));
    if fuel > 0 && k < |st.pool| {
      assert x.FineStmt(st.pool[k]);
      KeepsExec(x, st.pool[k], next, fuel - 1);
    }
  }

  /** A field of a fair value is fair. */
  lemma FieldFair(x: Course, v: Value, f: string)
    requires x.Sound() && x.Fair(v) && (v.VStruct? || v.VConf?) && f in v.fields
    ensures x.Fair(v.fields[f])
  {
    hide LeavesBindings, WellDeclared, WellTyped, FunctionSpares;
    var plain := Detach(v);
    assert Wf(x.p, x.b, x.profile, plain.fields[f]);
    assert SensibleTypes(x.p) by { SoundTypes(x); }
    DetachPlain(x.p, x.b, x.profile, v.fields[f]);
  }

  lemma SoundTypes(x: Course)
    requires x.Sound()
    ensures SensibleTypes(x.p)
  {
  }

  lemma {:induction false} KeepsSelect(x: Course, v: Value, f: string, st: State, mode: Mode, fuel: nat)
    requires x.Sound() && x.Good(st) && x.Fair(v)
    ensures x.GoodResult(Select(x.p, x.w, v, f, st, mode, fuel))
    decreases fuel, 0
  {
    hide Wf, Opaque, Course.Sound, Course.Good, Course.Fair;
    if fuel == 0 { return; }
    if (v.VStruct? || v.VConf?) && f in v.fields {
      FieldFair(x, v, f);
      KeepsRead(x, v.fields[f], st, mode);
    } else if fuel > 1 {
      var asked := st.(used := st.used + set c | c in x.p.bindings && c.field == f);
      StillGood(x, st, asked.used, st.tick);
      assert st.(used := asked.used, tick := st.tick) == asked;
      KeepsOpaque(x, asked, fuel - 2);
    } else {
      StillGood(x, st, st.used + (set c | c in x.p.bindings && c.field == f), st.tick);
    }
  }

  lemma KeepsRead(x: Course, v: Value, st: State, mode: Mode)
    requires x.Good(st) && x.Fair(v)
    ensures x.GoodResult(Read(v, st, mode))
  {
    hide Wf, StoreOk, DecidedWell, Course.FineStmt;
  }

  lemma {:induction false} KeepsLeaf(x: Course, e: Expr, st: State, mode: Mode, fuel: nat)
    requires x.Sound() && x.Good(st) && x.Fine(e) && fuel > 0
    requires e.Ident? || e.StringLit? || e.IntLit? || e.FuncLit?
    ensures x.GoodResult(Eval(x.p, x.w, e, st, mode, fuel))
    decreases fuel, 0
  {
    hide Opaque, DecidedWell, Course.Sound;
    PartsFine(x, e);
    if e.Ident? {
      if e.obj.None? {
        KeepsOpaque(x, st, fuel - 1);
      } else if e.obj.value in st.store {
        KeepsVariable(x, e.obj.value, st, mode);
      }
    }
  }

  lemma KeepsVariable(x: Course, o: Obj, st: State, mode: Mode)
    requires x.Sound() && x.Good(st) && o in st.store
    ensures x.GoodResult(Read(Contents(x.p, x.w, st)[o], st, mode))
  {
    hide Wf, DecidedWell, Course.FineStmt;
    ReadsGood(x, st);
    var v := Contents(x.p, x.w, st)[o];
    if o in x.Tables().aliases { FairAgreeing(x, v); }
    KeepsRead(x, v, st, mode);
  }

  lemma {:induction false} KeepsWrapped(x: Course, e: Expr, st: State, mode: Mode, fuel: nat)
    requires x.Sound() && x.Good(st) && x.Fine(e) && fuel > 0
    requires e.Paren? || e.Star? || e.Selector?
    ensures x.GoodResult(Eval(x.p, x.w, e, st, mode, fuel))
    decreases fuel, 0
  {
    hide Wf, Select, Course.Sound, Course.Good, Course.Fair, Course.Fine;
    PartsFine(x, e);
    KeepsEval(x, e.x, st, Sub(mode), fuel - 1);
    var r := Eval(x.p, x.w, e.x, st, Sub(mode), fuel - 1);
    if r.Ok? {
      FairDetach(x, r.v);
      if e.Selector? { KeepsSelect(x, r.v, e.sel, r.st, mode, fuel - 1); }
    }
  }

  lemma {:induction false} KeepsOther(x: Course, e: Expr, st: State, mode: Mode, fuel: nat)
    requires x.Sound() && x.Good(st) && x.Fine(e) && e.Other? && fuel > 0
    ensures x.GoodResult(Eval(x.p, x.w, e, st, mode, fuel))
    decreases fuel, 0
  {
    hide Wf, Opaque, Course.Sound, Course.Good, Course.Fair, Course.Fine;
    PartsFine(x, e);
    KeepsAll(x, e.parts, st, Normal, fuel - 1);
    var rs := EvalAll(x.p, x.w, e.parts, st, Normal, fuel - 1);
    if rs.OkAll? { KeepsOpaque(x, rs.st, fuel - 1); }
  }

  lemma {:induction false} KeepsEval(x: Course, e: Expr, st: State, mode: Mode, fuel: nat)
    requires x.Sound() && x.Good(st) && x.Fine(e)
    ensures x.GoodResult(Eval(x.p, x.w, e, st, mode, fuel))
    decreases fuel, 1
  {
    hide Wf, Opaque, EvalUnary, EvalBinary, EvalCall, EvalComposite, Course.Sound, Course.Good, Course.Fair,
      Course.Fine;
    if fuel == 0 { return; }
    match e
    case Unary(_, _) => KeepsUnary(x, e, st, mode, fuel - 1);
    case Binary(_, _, _) => KeepsBinary(x, e, st, mode, fuel - 1);
    case Call(_, _) => KeepsCall(x, e, st, mode, fuel - 1);
    case Composite(_, _) => KeepsComposite(x, e, st, fuel - 1);
    case Other(_) => KeepsOther(x, e, st, mode, fuel);
    case Paren(_) => KeepsWrapped(x, e, st, mode, fuel);
    case Star(_) => KeepsWrapped(x, e, st, mode, fuel);
    case Selector(_, _) => KeepsWrapped(x, e, st, mode, fuel);
    case _ => KeepsLeaf(x, e, st, mode, fuel);
  }

  lemma FairScalars(x: Course)
    requires x.Sound()
    ensures forall v: Value | v.VBool? || v.VInt? || v.VStr? || v.VOpaque? :: x.Fair(v)
  {
  }

  lemma {:induction false} KeepsUnary(x: Course, e: Expr, st: State, mode: Mode, fuel: nat)
    requires x.Sound() && x.Good(st) && x.Fine(e) && e.Unary?
    ensures x.GoodResult(EvalUnary(x.p, x.w, e.uop, e.x, st, mode, fuel))
    decreases fuel, 0
  {
    hide Eval, Wf, Opaque, Course.Sound, Course.Good, Course.Fair, Course.Fine;
    FairScalars(x);
    PartsFine(x, e);
    if fuel == 0 { return; }
    KeepsEval(x, e.x, st, Sub(mode), fuel - 1);
    var r := Eval(x.p, x.w, e.x, st, Sub(mode), fuel - 1);
    if r.Ok? {
      FairDetach(x, r.v);
      KeepsOpaque(x, r.st, fuel - 1);
    }
  }

  lemma {:induction false} KeepsBinary(x: Course, e: Expr, st: State, mode: Mode, fuel: nat)
    requires x.Sound() && x.Good(st) && x.Fine(e) && e.Binary?
    ensures x.GoodResult(EvalBinary(x.p, x.w, e.bop, e.x, e.y, st, mode, fuel))
    decreases fuel, 0
  {
    hide Eval, Wf, Opaque, Compare, Course.Sound, Course.Good, Course.Fair, Course.Fine;
    FairScalars(x);
    PartsFine(x, e);
    if fuel == 0 { return; }
    KeepsEval(x, e.x, st, Sub(mode), fuel - 1);
    var r := Eval(x.p, x.w, e.x, st, Sub(mode), fuel - 1);
    if r.Ok? {
      KeepsEval(x, e.y, r.st, Sub(mode), fuel - 1);
      var q := Eval(x.p, x.w, e.y, r.st, Sub(mode), fuel - 1);
      if q.Ok? { KeepsOpaque(x, q.st, fuel - 1); }
    }
  }

  lemma {:induction false} KeepsAll(x: Course, es: Exprs, st: State, mode: Mode, fuel: nat)
    requires x.Sound() && x.Good(st) && x.FineAll(es)
    ensures x.GoodResults(EvalAll(x.p, x.w, es, st, mode, fuel))
    decreases fuel, 0
  {
    hide Eval, Wf, Course.Sound, Course.Good, Course.Fair, Course.Fine, Course.FineAll;
    if fuel == 0 || es.Nil? { return; }
    AllFine(x, es);
    KeepsEval(x, es.head, st, mode, fuel - 1);
    var r := Eval(x.p, x.w, es.head, st, mode, fuel - 1);
    if r.Ok? { KeepsAll(x, es.tail, r.st, mode, fuel - 1); }
  }

  lemma {:induction false} KeepsCall(x: Course, e: Expr, st: State, mode: Mode, fuel: nat)
    requires x.Sound() && x.Good(st) && x.Fine(e) && e.Call?
    ensures x.GoodResult(EvalCall(x.p, x.w, e, st, mode, fuel))
    decreases fuel, 1
  {
    hide Eval, EvalAll, Invoke, Wf, Course.Sound, Course.Good, Course.Fair, Course.Fine, Course.FineAll;
    if fuel == 0 { return; }
    PartsFine(x, e);
    if x.p.IsBuiltinLen(e) {
      FairScalars(x);
      AllFine(x, e.args);
      KeepsEval(x, e.args.head, st, Sub(mode), fuel - 1);
    } else if x.p.Callee(e.fun).Some? {
      KeepsKnownCall(x, e, st, mode, fuel);
    } else {
      KeepsUnknownCall(x, e, st, mode, fuel);
    }
  }

  lemma {:induction false} KeepsKnownCall(x: Course, e: Expr, st: State, mode: Mode, fuel: nat)
    requires x.Sound() && x.Good(st) && e.Call? && x.FineAll(e.args)
    requires !x.p.IsBuiltinLen(e) && x.p.Callee(e.fun).Some? && fuel > 0
    ensures x.GoodResult(EvalCall(x.p, x.w, e, st, mode, fuel))
    decreases fuel, 0
  {
    hide Eval, EvalAll, EvalCall, Invoke, Wf, Course.Sound, Course.Good, Course.Fair, Course.FineAll;
    var fn := x.p.Callee(e.fun).value;
    var argMode := if mode == InCond && IsPredicateHelper(fn) then InCond else Normal;
    KnownCall(x.p, x.w, e, st, mode, fuel);
    KeepsAll(x, e.args, st, argMode, fuel - 1);
    var rs := EvalAll(x.p, x.w, e.args, st, argMode, fuel - 1);
    if rs.OkAll? { KeepsInvoke(x, e.fun.name, rs.vs, rs.st, fuel - 1); }
  }

  lemma {:induction false} KeepsUnknownCall(x: Course, e: Expr, st: State, mode: Mode, fuel: nat)
    requires x.Sound() && x.Good(st) && e.Call? && x.Fine(e.fun) && x.FineAll(e.args)
    requires !x.p.IsBuiltinLen(e) && x.p.Callee(e.fun).None? && fuel > 0
    ensures x.GoodResult(EvalCall(x.p, x.w, e, st, mode, fuel))
    decreases fuel, 0
  {
    hide Eval, EvalAll, Opaque, Wf, Course.Sound, Course.Good, Course.Fair, Course.Fine, Course.FineAll;
    KeepsEval(x, e.fun, st, Normal, fuel - 1);
    var r := Eval(x.p, x.w, e.fun, st, Normal, fuel - 1);
    if r.Ok? {
      KeepsAll(x, e.args, r.st, Normal, fuel - 1);
      var rs := EvalAll(x.p, x.w, e.args, r.st, Normal, fuel - 1);
      if rs.OkAll? { KeepsOpaque(x, rs.st, fuel - 1); }
    }
  }

  lemma {:induction false} KeepsComposite(x: Course, e: Expr, st: State, fuel: nat)
    requires x.Sound() && x.Good(st) && x.Fine(e) && e.Composite?
    ensures x.GoodResult(EvalComposite(x.p, x.w, e.typ, e.elts, st, fuel))
    decreases fuel, 0
  {
    hide Eval, EvalAll, Build, LiteralKeeps, Wf, Course.Sound, Course.Good, Course.Fine, Course.FineAll;
    PartsFine(x, e);
    if fuel == 0 { return; }
    KeepsAll(x, e.elts, st, Normal, fuel - 1);
    var rs := EvalAll(x.p, x.w, e.elts, st, Normal, fuel - 1);
    if rs.OkAll? && Build(x.p, e.typ, e.elts, 0, rs.vs).Some? {
      SoundTypes(x);
      EvalAllLength(x.p, x.w, e.elts, st, Normal, fuel - 1);
      BuildKeeps(x.p, x.b, x.profile, e.typ, e.elts, rs.vs);
    }
  }

  lemma {:induction false} ParamsFair(p: Package, b: Binding, profile: Profile, params: seq<Param>, vs: seq<Value>)
    requires |params| == |vs| && forall v | v in vs :: Loose(p, b, profile, v)
    ensures forall o | o in BindParams(params, vs) ::
      Loose(p, b, profile, BindParams(params, vs)[o]) && IsParam(params, o)
    decreases |params|
  {
    hide Wf;
    if params != [] {
      ParamsFair(p, b, profile, params[1..], vs[1..]);
      assert Loose(p, b, profile, vs[0]) && Detach(Detach(vs[0])) == Detach(vs[0]);
      var rest := BindParams(params[1..], vs[1..]);
      forall o | o in BindParams(params, vs) ensures IsParam(params, o) {
        if o != params[0].obj {
          assert IsParam(params[1..], o);
          var i :| 0 <= i < |params[1..]| && params[1..][i].obj == o;
          assert params[i + 1].obj == o;
        }
      }
    }
  }

  /** A function of the package, seen as the frame of a run of its own. */
  lemma FunctionCourse(x: Course, name: string)
    requires WellTyped(x.p) && LeavesBindings(x.p, x.profile) && WorldAgrees(x.p, x.w, x.b, x.profile)
    requires name in x.p.functions && x.fn == x.p.functions[name]
    ensures x.Sound() && x.FineStmt(x.fn.body)
    ensures forall i | 0 <= i < |x.fn.params| :: x.fn.params[i].obj !in x.Tables().aliases
  {
    hide Wf, TablesOf, AssignsOf, WorldAgrees, WellDeclared, FrameOk, Reassigns, PlaceSpared;
    assert WellDeclared(x.p, x.fn) && FunctionSpares(x.p, x.fn) && CodeKeeps(x.p, x.profile, x.fn.body);
    forall s | s in AssignsOf(x.fn.body) ensures !Reassigns(TablesOf(x.p, x.fn), s) {
      assert Spares(x.p, TablesOf(x.p, x.fn), s);
      OnlyIdentsReassign(TablesOf(x.p, x.fn), s);
    }
    UnassignedFrame(x.p, x.fn);
  }

  /** The frame of a called function. */
  lemma CalleeCourse(x: Course, name: string)
    requires x.Sound() && name in x.p.functions
    ensures var y := x.(fn := x.p.functions[name]);
      y.Sound() && y.FineStmt(y.fn.body) && forall i | 0 <= i < |y.fn.params| ::
        y.fn.params[i].obj !in y.Tables().aliases
  {
    hide TablesOf, AssignsOf, WorldAgrees, WellTyped, LeavesBindings, WellDeclared, FunctionSpares, FrameOk;
    FunctionCourse(x.(fn := x.p.functions[name]), name);
  }

  lemma OnlyIdentsReassign(t: Tables, s: Stmt)
    ensures Reassigns(t, s) ==> s.Assign? && s.lhs.Ident?
  {
  }

  lemma CalleeStarts(x: Course, name: string, vs: seq<Value>, st: State)
    requires x.Sound() && x.Good(st) && name in x.p.functions && forall v | v in vs :: x.Fair(v)
    requires var fn := x.p.functions[name]; |vs| == |fn.params| && AllFit(x.p, BindParams(fn.params, vs))
    ensures var fn := x.p.functions[name];
      x.(fn := fn).Good(Entered(fn, BindParams(fn.params, vs), st))
  {
    hide Wf, TablesOf, DecidedWell, Course.Sound;
    var fn := x.p.functions[name];
    CalleeCourse(x, name);
    ParamsFair(x.p, x.b, x.profile, fn.params, vs);
    var t, frame := TablesOf(x.p, fn), BindParams(fn.params, vs);
    forall o | o in frame ensures o !in t.aliases && Fits(x.p, o, frame[o]) {
      assert IsParam(fn.params, o);
    }
    assert StoreOk(x.p, t, x.b, x.profile, frame);
  }

  /** Back in the caller's frame. */
  lemma CalleeReturns(x: Course, y: Course, st: State, flow: Flow)
    requires x.Sound() && x.Good(st) && y.GoodFlow(flow) && y == x.(fn := y.fn)
    ensures x.Good(st.(used := flow.st.used, tick := flow.st.tick, decisions := flow.st.decisions))
    ensures x.Fair(VOpaque) && (flow.Returned? ==> x.Fair(flow.v))
  {
    hide DecidedWell, Course.FineStmt;
  }

  lemma {:induction false} KeepsInvoke(x: Course, name: string, vs: seq<Value>, st: State, fuel: nat)
    requires x.Sound() && x.Good(st) && name in x.p.functions && forall v | v in vs :: x.Fair(v)
    ensures x.GoodResult(Invoke(x.p, x.w, x.p.functions[name], vs, st, fuel))
    decreases fuel, 0
  {
    hide Eval, Exec, Wf, AllFit, BindParams, Course.Sound, Course.Good, Course.Fair, Course.FineStmt;
    var fn := x.p.functions[name];
    if fuel == 0 || |vs| != |fn.params| { return; }
    var frame := BindParams(fn.params, vs);
    if AllFit(x.p, frame) {
      var y := x.(fn := fn);
      CalleeCourse(x, name);
      CalleeStarts(x, name, vs, st);
      KeepsExec(y, fn.body, Entered(fn, frame, st), fuel - 1);
      CalleeReturns(x, y, st, Exec(x.p, x.w, fn.body, Entered(fn, frame, st), fuel - 1));
    }
  }

  // ---- Statements ----

  /** A write along fields that no binding is called keeps a fair value fair, and a plain one plain. */
  lemma {:induction false} WriteKeepsFair(p: Package, b: Binding, profile: Profile, v: Value, path: seq<string>,
    w: Value)
    requires SensibleTypes(p) && Loose(p, b, profile, v) && Plainly(p, b, profile, w)
    requires forall f | f in path :: !p.IsBindingField(f)
    ensures var r := WriteAt(p, v, path, w).0; r.Some? ==>
      Loose(p, b, profile, r.value) && (!v.VConf? ==> !r.value.VConf?)
    decreases |path|
  {
    if path != [] && (v.VStruct? || v.VConf?) && path[0] in v.fields {
      var f, typ := path[0], Detach(v).typ;
      assert !p.IsBindingField(f);
      assert Binding(typ, f).field == f;
      assert Wf(p, b, profile, v.fields[f]) && FieldWf(p, typ, f, v.fields[f]) by {
        assert Wf(p, b, profile, Detach(v));
      }
      WriteKeepsFair(p, b, profile, v.fields[f], path[1..], w);
      WrittenField(p, b, profile, v, f, WriteAt(p, v.fields[f], path[1..], w).0);
    }
  }

  /** A fair value with one field replaced, as far as the types allow. */
  lemma WrittenField(p: Package, b: Binding, profile: Profile, v: Value, f: string, inner: Option<Value>)
    requires SensibleTypes(p) && Loose(p, b, profile, v) && (v.VStruct? || v.VConf?) && !p.IsBindingField(f)
    requires inner.Some? ==> Plainly(p, b, profile, inner.value)
    ensures v.VConf? && inner.Some? ==> Loose(p, b, profile, VConf(v.binding, v.fields[f := inner.value]))
    ensures v.VStruct? && inner.Some? && Attach(p, v.typ, f, inner.value).Some? ==>
      Loose(p, b, profile, VStruct(v.typ, v.fields[f := Attach(p, v.typ, f, inner.value).value]))
  {
    assert forall typ :: Binding(typ, f) !in p.bindings by {
      forall typ ensures Binding(typ, f) !in p.bindings { assert Binding(typ, f).field == f; }
    }
    if v.VConf? && inner.Some? {
      assert (RPC_CLIENT_CONF, f).0 == RPC_CLIENT_CONF;
      assert FieldWf(p, RPC_CLIENT_CONF, f, inner.value);
      assert Wf(p, b, profile, Detach(v));
    }
  }

  lemma {:induction false} PlaceAlong(p: Package, e: Expr)
    requires !RunsAlong(p, e) && PlaceOf(e).Some?
    ensures forall f | f in PlaceOf(e).value.1 :: !p.IsBindingField(f)
  {
    if !e.Ident? { PlaceAlong(p, e.x); }
  }

  lemma StoreKeeps(x: Course, st: State, o: Obj, v: Value)
    requires x.Good(st) && Fits(x.p, o, v)
    requires if o in x.Tables().aliases
      then Wf(x.p, x.b, x.profile, v) && v.VConf? && v.binding == x.Tables().aliases[o].binding
      else x.Fair(v)
    ensures x.Good(st.(store := st.store[o := v]))
  {
    hide Wf, DecidedWell, Course.FineStmt;
  }

  lemma {:induction false} KeepsPlace(x: Course, lhs: Expr, v: Value, st: State, fuel: nat)
    requires x.Sound() && x.Good(st) && x.Fine(lhs) && PlaceSpared(x.p, x.Tables(), lhs)
    requires Plainly(x.p, x.b, x.profile, v)
    ensures x.GoodFlow(Store(x.p, x.w, lhs, v, st, fuel))
    decreases fuel, 0
  {
    hide Eval, WriteAt, Course.Sound, Course.Good, Course.Fine, Wf, Fits;
    if fuel == 0 { return; }
    if PlaceOf(lhs).Some? {
      KeepsWrite(x, lhs, v, st, fuel);
    } else if !lhs.Ident? {
      KeepsEval(x, lhs, st, Normal, fuel - 1);
    }
  }

  lemma KeepsWrite(x: Course, lhs: Expr, v: Value, st: State, fuel: nat)
    requires x.Sound() && x.Good(st) && PlaceSpared(x.p, x.Tables(), lhs) && PlaceOf(lhs).Some? && fuel > 0
    requires Plainly(x.p, x.b, x.profile, v)
    ensures x.GoodFlow(Store(x.p, x.w, lhs, v, st, fuel))
  {
    hide Eval, Store, WriteAt, Wf, Fits, DecidedWell, Course.Sound, Course.Good, Course.FineStmt;
    var (o, path) := PlaceOf(lhs).value;
    if lhs.Ident? {
      VariableStored(x.p, x.w, lhs, v, st, fuel);
      if Fits(x.p, o, v) { StoreKeeps(x, st, o, v); }
    } else {
      PlaceStored(x.p, x.w, lhs, v, st, fuel);
      if o in st.store { KeepsWritten(x, o, path, v, st, lhs); }
    }
  }

  lemma VariableStored(p: Package, w: World, lhs: Expr, v: Value, st: State, fuel: nat)
    requires lhs.Ident? && lhs.obj.Some? && fuel > 0
    ensures var o := lhs.obj.value;
      Store(p, w, lhs, v, st, fuel) == if Fits(p, o, v) then Next(st.(store := st.store[o := v])) else Stop(st)
  {
  }

  lemma KeepsWritten(x: Course, o: Obj, path: seq<string>, v: Value, st: State, lhs: Expr)
    requires x.Sound() && x.Good(st) && PlaceSpared(x.p, x.Tables(), lhs) && PlaceOf(lhs) == Some((o, path))
    requires o in st.store && Plainly(x.p, x.b, x.profile, v)
    ensures var (written, hit) := WriteAt(x.p, st.store[o], path, v);
      var after := st.(used := st.used + hit, tick := st.tick + 1);
      && x.Good(after)
      && (written.Some? && Fits(x.p, o, written.value) ==> x.Good(after.(store := st.store[o := written.value])))
  {
    hide WriteAt, Wf, Fits, DecidedWell, Course.Sound, Course.FineStmt;
    SoundTypes(x);
    PlaceAlong(x.p, lhs);
    WriteKeepsFair(x.p, x.b, x.profile, st.store[o], path, v);
    var (written, hit) := WriteAt(x.p, st.store[o], path, v);
    StillGood(x, st, st.used + hit, st.tick + 1);
    var after := st.(used := st.used + hit, tick := st.tick + 1);
    if written.Some? && Fits(x.p, o, written.value) { StoreKeeps(x, after, o, written.value); }
  }

  lemma SparedHere(x: Course, s: Stmt)
    requires x.Sound() && x.FineStmt(s) && (s.Assign? || s.IncDec?)
    ensures Settled(x.p, x.Tables(), s) && Spares(x.p, x.Tables(), s)
    ensures AliasDefinition(x.Tables(), s) ==> !s.kind.Plain? && DefinesAlias(x.p, x.Tables(), s.lhs.obj.value)
    ensures s.Assign? ==> x.Fine(s.lhs) && x.Fine(s.rhs)
    ensures s.IncDec? ==> x.Fine(s.e)
  {
    hide Step, Resolve, TablesOf, WellDeclared;
    assert s in AssignsOf(s);
    if s.Assign? {
      CoversBoth(x, [s] + AssignsIn(s.lhs), AssignsIn(s.rhs));
      CoversBoth(x, [s], AssignsIn(s.lhs));
    } else {
      CoversBoth(x, [s], AssignsIn(s.e));
    }
    if AliasDefinition(x.Tables(), s) { assert DefinesAlias(x.p, x.Tables(), s.lhs.obj.value); }
  }

  /** The declaration of a variable: an alias holds its binding, any other a fair value. */
  lemma {:induction false} KeepsDeclaration(x: Course, s: Stmt, st: State, fuel: nat)
    requires x.Sound() && x.Good(st) && x.FineStmt(s) && s.Assign? && !s.kind.Plain? && s.lhs.Ident? && fuel > 0
    ensures x.GoodFlow(Exec(x.p, x.w, s, st, fuel))
    decreases fuel, 0
  {
    hide Eval, Wf, Fits, Resolve, Step, Course.Sound, Course.Good, Course.Fair, Course.Fine, Course.FineStmt,
      Course.Tables;
    SparedHere(x, s);
    KeepsEval(x, s.rhs, st, AliasDef, fuel - 1);
    var r := Eval(x.p, x.w, s.rhs, st, AliasDef, fuel - 1);
    if r.Ok? && s.lhs.obj.Some? && Fits(x.p, s.lhs.obj.value, r.v) {
      if s.lhs.obj.value in x.Tables().aliases { AliasHolds(x, s, st, fuel - 1); }
      StoreKeeps(x, r.st, s.lhs.obj.value, r.v);
    }
  }

  lemma AliasHolds(x: Course, s: Stmt, st: State, fuel: nat)
    requires x.Sound() && x.Good(st) && s.Assign? && s.lhs.Ident? && s.lhs.obj.Some?
    requires s.lhs.obj.value in x.Tables().aliases
    requires Settled(x.p, x.Tables(), s)
    requires (AliasDefinition(x.Tables(), s) ==> DefinesAlias(x.p, x.Tables(), s.lhs.obj.value))
    ensures var r := Eval(x.p, x.w, s.rhs, st, AliasDef, fuel);
      r.Ok? ==> Wf(x.p, x.b, x.profile, r.v) && r.v.VConf? && r.v.binding == x.Tables().aliases[s.lhs.obj.value].binding
  {
    hide Eval, Wf, Step, TablesOf, Resolve;
    ReadsGood(x, st);
    ResolveEval(x.p, x.w, x.Tables(), x.b, x.profile, s.rhs, st, AliasDef, fuel);
  }

  lemma {:induction false} KeepsAssign(x: Course, s: Stmt, st: State, fuel: nat)
    requires x.Sound() && x.Good(st) && x.FineStmt(s) && s.Assign? && (s.kind.Plain? || !s.lhs.Ident?) && fuel > 0
    ensures x.GoodFlow(Exec(x.p, x.w, s, st, fuel))
    decreases fuel, 0
  {
    hide Eval, Wf, Store, Resolve, Step, Course.Sound, Course.Good, Course.Fair, Course.Fine, Course.FineStmt;
    SparedHere(x, s);
    KeepsEval(x, s.rhs, st, Normal, fuel - 1);
    var r := Eval(x.p, x.w, s.rhs, st, Normal, fuel - 1);
    if r.Ok? {
      FairDetach(x, r.v);
      KeepsPlace(x, s.lhs, Detach(r.v), r.st, fuel - 1);
    }
  }

  lemma {:induction false} KeepsIncDec(x: Course, s: Stmt, st: State, fuel: nat)
    requires x.Sound() && x.Good(st) && x.FineStmt(s) && s.IncDec? && fuel > 0
    ensures x.GoodFlow(Exec(x.p, x.w, s, st, fuel))
    decreases fuel, 0
  {
    hide Opaque, Wf, Store, Course.Sound, Course.Good, Course.Fair, Course.Fine, Course.FineStmt;
    SparedHere(x, s);
    KeepsOpaque(x, st, fuel - 1);
    var r := Opaque(x.p, x.w, st, fuel - 1);
    if r.Ok? { KeepsPlace(x, s.e, r.v, r.st, fuel - 1); }
  }

  lemma {:induction false} KeepsReturn(x: Course, s: Stmt, st: State, fuel: nat)
    requires x.Sound() && x.Good(st) && x.FineStmt(s) && (s.Return? || s.ExprStmt?) && fuel > 0
    ensures x.GoodFlow(Exec(x.p, x.w, s, st, fuel))
    decreases fuel, 0
  {
    assert x.Fine(s.e);
    hide Eval, Wf, Course.Sound, Course.Good, Course.Fair, Course.Fine, Course.FineStmt;
    KeepsEval(x, s.e, st, Normal, fuel - 1);
    var r := Eval(x.p, x.w, s.e, st, Normal, fuel - 1);
    if r.Ok? { FairDetach(x, r.v); }
  }

  lemma StmtParts(x: Course, s: Stmt)
    requires x.FineStmt(s)
    ensures s.Seq? ==> x.FineStmt(s.first) && x.FineStmt(s.second)
    ensures s.If? ==> x.FineStmt(s.init) && x.Fine(s.cond) && x.FineStmt(s.body) && x.FineStmt(s.els)
    ensures s.For? ==> x.Fine(s.cond) && x.FineStmt(s.body)
  {
    match s
    case Seq(a, b) => CoversBoth(x, AssignsOf(a), AssignsOf(b));
    case If(_, init, cond, body, els) =>
      var front := AssignsOf(init) + AssignsIn(cond);
      CoversBoth(x, front + AssignsOf(body), AssignsOf(els));
      CoversBoth(x, front, AssignsOf(body));
      CoversBoth(x, AssignsOf(init), AssignsIn(cond));
    case For(cond, body) => CoversBoth(x, AssignsIn(cond), AssignsOf(body));
    case _ =>
  }

  /** An if that takes its way, on a state that respects the tables, leads on. */
  lemma NotedWell(x: Course, s: Stmt, st: State, r: Result, fuel: nat)
    requires x.Sound() && x.Good(st) && s.If?
    requires r == Eval(x.p, x.w, s.cond, st, InCond, fuel) && r.Ok? && r.v.VBool? && x.Good(r.st)
    ensures x.Good(Noted(r.st, s, r.v.b, Contents(x.p, x.w, st)))
  {
    hide Eval, Wf, StoreOk, Course.Sound, Course.FineStmt;
    var d := Decision(x.fn, s, r.v.b, Contents(x.p, x.w, st));
    assert DecidedWell(x.p, x.b, x.profile, d) by { TakesItsWay(x, s, st, r, fuel); }
    hide DecidedWell;
    assert Noted(r.st, s, r.v.b, d.seen).decisions == r.st.decisions + [d];
  }

  lemma TakesItsWay(x: Course, s: Stmt, st: State, r: Result, fuel: nat)
    requires x.Sound() && x.Good(st) && s.If?
    requires r == Eval(x.p, x.w, s.cond, st, InCond, fuel) && r.Ok? && r.v.VBool?
    ensures DecidedWell(x.p, x.b, x.profile, Decision(x.fn, s, r.v.b, Contents(x.p, x.w, st)))
  {
    hide Eval, Wf, TargetVerdict, Sites, InspectTarget, FrameOk, WorldAgrees, LeavesBindings, FunctionSpares,
      WellDeclared;
    var t := TablesOf(x.p, x.fn);
    ReadsGood(x, st);
    if x.profile.TargetOnly? && InspectTarget(x.p, x.fn).None? {
      forall site, a, branch |
        && site in Sites(x.fn.body, false, []) && branch in site.branches && a in Arguments(site.args)
        && Resolve(x.p, t, a) == Some(x.b) && TargetVerdict(x.p, t, branch.cond, x.b).1
        && (branch == Then(s) || branch == Else(s))
        ensures r.v.b == branch.taken
      {
        AcceptedTakesBranch(x.p, x.w, x.fn, site, a, branch, x.b, st, fuel);
      }
    }
  }

  lemma {:induction false} KeepsIf(x: Course, s: Stmt, st: State, fuel: nat)
    requires x.Sound() && x.Good(st) && x.FineStmt(s) && s.If? && fuel > 0
    ensures x.GoodFlow(Exec(x.p, x.w, s, st, fuel))
    decreases fuel, 0
  {
    hide Eval, Wf, Course.Sound, Course.Good, Course.Fair, Course.Fine, Course.FineStmt;
    StmtParts(x, s);
    KeepsExec(x, s.init, st, fuel - 1);
    var flow := Exec(x.p, x.w, s.init, st, fuel - 1);
    if flow.Next? {
      KeepsEval(x, s.cond, flow.st, InCond, fuel - 1);
      var r := Eval(x.p, x.w, s.cond, flow.st, InCond, fuel - 1);
      if r.Ok? && r.v.VBool? {
        NotedWell(x, s, flow.st, r, fuel - 1);
        KeepsExec(x, if r.v.b then s.body else s.els, Noted(r.st, s, r.v.b, Contents(x.p, x.w, flow.st)), fuel - 1);
      }
    }
  }

  lemma {:induction false} KeepsFor(x: Course, s: Stmt, st: State, fuel: nat)
    requires x.Sound() && x.Good(st) && x.FineStmt(s) && s.For? && fuel > 0
    ensures x.GoodFlow(Exec(x.p, x.w, s, st, fuel))
    decreases fuel, 0
  {
    hide Eval, Wf, Course.Sound, Course.Good, Course.Fair, Course.Fine, Course.FineStmt;
    StmtParts(x, s);
    KeepsEval(x, s.cond, st, Normal, fuel - 1);
    var r := Eval(x.p, x.w, s.cond, st, Normal, fuel - 1);
    if r.Ok? && r.v.VBool? && r.v.b {
      KeepsExec(x, s.body, r.st, fuel - 1);
      var flow := Exec(x.p, x.w, s.body, r.st, fuel - 1);
      if flow.Next? { KeepsExec(x, s, flow.st, fuel - 1); }
    }
  }

  lemma {:induction false} KeepsExec(x: Course, s: Stmt, st: State, fuel: nat)
    requires x.Sound() && x.Good(st) && x.FineStmt(s)
    ensures x.GoodFlow(Exec(x.p, x.w, s, st, fuel))
    decreases fuel, 1
  {
    hide Eval, Wf, Store, Course.Sound, Course.Good, Course.Fine, Course.FineStmt;
    if fuel == 0 { return; }
    match s
    case Skip =>
    case Seq(a, b) =>
      StmtParts(x, s);
      KeepsExec(x, a, st, fuel - 1);
      var flow := Exec(x.p, x.w, a, st, fuel - 1);
      if flow.Next? { KeepsExec(x, b, flow.st, fuel - 1); }
    case Assign(_, kind, lhs, _) =>
      if !kind.Plain? && lhs.Ident? { KeepsDeclaration(x, s, st, fuel); } else { KeepsAssign(x, s, st, fuel); }
    case ExprStmt(_) => KeepsReturn(x, s, st, fuel);
    case IncDec(_) => KeepsIncDec(x, s, st, fuel);
    case Return(_) => KeepsReturn(x, s, st, fuel);
    case If(_, _, _, _, _) => KeepsIf(x, s, st, fuel);
    case For(_, _) => KeepsFor(x, s, st, fuel);
  }

  /**
   However a function of a package that leaves its bindings alone is called with target-only
   configurations: in every function that the inspection accepts, every dependent if the run reaches
   around a client construction goes the way that leads to the construction.
   */
  lemma GuardsLeadOn(p: Package, w: World, name: string, args: seq<Value>, b: Binding, fuel: nat)
    requires WellTyped(p) && LeavesBindings(p, TargetOnly) && name in p.functions
    requires WorldAgrees(p, w, b, TargetOnly) && forall v | v in args :: Wf(p, b, TargetOnly, v)
    ensures var decisions := Invoke(p, w, p.functions[name], args, Start(p.functions[name]), fuel).st.decisions;
      forall i | 0 <= i < |decisions| && InspectTarget(p, decisions[i].fn).None? :: LeadsOn(p, b, decisions[i])
  {
    hide Invoke, Wf, LeadsOn, InspectTarget;
    var fn := p.functions[name];
    var x := Course(p, w, b, TargetOnly, fn);
    FunctionCourse(x, name);
    assert x.Good(Start(fn));
    forall v | v in args ensures x.Fair(v) { FairAgreeing(x, v); }
    KeepsInvoke(x, name, args, Start(fn), fuel);
  }
}
