/** A certified package never uses, hands on or writes a binding that is blank. */
module RpcSafety {
  import opened Options
  import opened GoSyntax
  import opened GoSemantics
  import opened RpcGuards
  import opened RpcAliases
  import opened RpcCertifier
  import opened RpcConstruction
  import opened RpcSoundness

  // ---- Premises: what the Go compiler guarantees of the package ----

  /** Every assignment is typed, and every variable is declared by one statement only. */
  ghost predicate WellDeclared(p: Package, fn: Function) {
    var stmts := AssignsOf(fn.body);
    && (forall s | s in stmts :: TypedAssign(p, s) && (s.Assign? && s.kind.VarDecl? ==> s.lhs.Ident?))
    && (forall s, u | s in stmts && u in stmts :: DeclaresSame(s, u) ==> s == u)
    && (forall s, i | s in stmts && 0 <= i < |fn.params| :: !Declares(s, fn.params[i].obj))
    && (forall i | 0 <= i < |fn.params| && p.IsConfigType(fn.params[i].typ) ::
          fn.params[i].obj in p.objTypes && p.objTypes[fn.params[i].obj] == fn.params[i].typ)
    && (forall i, j | 0 <= i < j < |fn.params| :: fn.params[i].obj != fn.params[j].obj)
  }

  predicate Declares(s: Stmt, o: Obj) {
    s.Assign? && !s.kind.Plain? && s.lhs.Ident? && s.lhs.obj == Some(o)
  }

  /** A var declaration and any other declaration of the same variable. */
  predicate DeclaresSame(s: Stmt, u: Stmt) {
    s.Assign? && s.kind.VarDecl? && s.lhs.Ident? && s.lhs.obj.Some? && Declares(u, s.lhs.obj.value)
  }

  ghost predicate WellTyped(p: Package) {
    SensibleTypes(p) && forall name | name in p.functions :: WellDeclared(p, p.functions[name])
  }

  ghost predicate Certified(p: Package) {
    forall name | name in p.functions :: Accepted(p, p.functions[name])
  }

  /** No literal of the package fills a binding. */
  ghost predicate LiteralsLeaveBindings(p: Package) {
    forall name | name in p.functions :: CodeKeeps(p, Blank, p.functions[name].body)
  }

  // ---- What acceptance says about the final tables ----

  ghost predicate FrameOk(p: Package, t: Tables, stmts: seq<Stmt>) {
    && TypedTables(p, t) && Justified(p, t, stmts)
    && (forall s | s in stmts :: Settled(p, t, s))
  }

  ghost predicate Settled(p: Package, t: Tables, s: Stmt) {
    && Step(p, t, s) == t
    && (s.Assign? && s.kind.VarDecl? ==> s.lhs.Ident?)
    && (s.Assign? && s.lhs.Ident? && s.lhs.obj.Some? && s.lhs.obj.value in t.aliases ==>
      t.aliases[s.lhs.obj.value].def == s)
  }

  lemma {:induction false} ParamsTyped(p: Package, params: seq<Param>)
    requires SensibleTypes(p)
    requires forall i | 0 <= i < |params| && p.IsConfigType(params[i].typ) ::
      params[i].obj in p.objTypes && p.objTypes[params[i].obj] == params[i].typ
    ensures forall o | o in ParamConfigs(p, params) ::
      o in p.objTypes && p.objTypes[o] == ParamConfigs(p, params)[o] != RPC_CLIENT_CONF
    decreases |params|
  {
    if params != [] {
      assert forall i | 0 <= i < |params[1..]| :: params[1..][i] == params[i + 1];
      ParamsTyped(p, params[1..]);
      assert params[0] == params[0];
    }
  }

  lemma DeclaredTyped(p: Package, fn: Function)
    requires SensibleTypes(p) && WellDeclared(p, fn)
    ensures TypedTables(p, TablesOf(p, fn))
  {
    ParamsTyped(p, fn.params);
    FixpointTyped(p, Initial(p, fn), AssignsOf(fn.body));
  }

  /** Tables whose aliases are never assigned again are typed, justified and settled. */
  lemma UnassignedFrame(p: Package, fn: Function)
    requires SensibleTypes(p) && WellDeclared(p, fn)
    requires forall s | s in AssignsOf(fn.body) :: !Reassigns(TablesOf(p, fn), s)
    ensures FrameOk(p, TablesOf(p, fn), AssignsOf(fn.body))
    ensures forall i | 0 <= i < |fn.params| :: fn.params[i].obj !in TablesOf(p, fn).aliases
  {
    var t := TablesOf(p, fn);
    var stmts := AssignsOf(fn.body);
    DeclaredTyped(p, fn);
    FixpointJustified(p, Initial(p, fn), stmts);
    PassStable(p, t, stmts);
    forall s | s in stmts ensures Settled(p, t, s) {
      if s.Assign? && s.lhs.Ident? && s.lhs.obj.Some? && s.lhs.obj.value in t.aliases {
        var o := s.lhs.obj.value;
        assert DefinesAlias(p, t, o);
        assert !Reassigns(t, s);
        assert s.kind.VarDecl? ==> DeclaresSame(s, t.aliases[o].def);
      }
    }
    forall i | 0 <= i < |fn.params| ensures fn.params[i].obj !in t.aliases {
      if fn.params[i].obj in t.aliases {
        assert DefinesAlias(p, t, fn.params[i].obj);
        assert Declares(t.aliases[fn.params[i].obj].def, fn.params[i].obj);
      }
    }
  }

  lemma AcceptedFrame(p: Package, fn: Function)
    requires SensibleTypes(p) && WellDeclared(p, fn) && Accepted(p, fn)
    ensures FrameOk(p, TablesOf(p, fn), AssignsOf(fn.body))
    ensures forall i | 0 <= i < |fn.params| :: fn.params[i].obj !in TablesOf(p, fn).aliases
  {
    UnassignedFrame(p, fn);
  }

  // ---- What inspection says about the nodes that can run ----

  /** A context in which the binding's nodes are excused: its condition or a branch cannot let them run. */
  predicate Dead(p: Package, t: Tables, b: Binding, c: Context) {
    if ContainingCondition(c).Some? then EvaluateCondition(p, t, ContainingCondition(c).value, b) == (IsFalse, true)
    else UseGuarded(p, t, b, c)
  }

  ghost predicate BodyOk(p: Package, t: Tables, stmts: seq<Stmt>, body: Stmt) {
    && (exists c: Context :: InspectStmt(p, t, body, InFuncLit(c)).None?)
    && CodeKeeps(p, Blank, body)
    && forall s | s in AssignsOf(body) :: s in stmts
  }

  /** No node denotes b or hides behind a binding's name, and function literals were inspected. */
  ghost predicate Clean(p: Package, t: Tables, b: Binding, stmts: seq<Stmt>, e: Expr)
    decreases e, 1
  {
    && Resolve(p, t, e) != Some(b)
    && (e.Selector? && p.IsBindingField(e.sel) ==> Resolve(p, t, e).Some?)
    && CleanParts(p, t, b, stmts, e)
  }

  ghost predicate CleanParts(p: Package, t: Tables, b: Binding, stmts: seq<Stmt>, e: Expr)
    decreases e, 0
  {
    match e
    case Ident(_, _) => true
    case StringLit(_, _) => true
    case IntLit(_) => true
    case Paren(x) => Clean(p, t, b, stmts, x)
    case Star(x) => Clean(p, t, b, stmts, x)
    case Unary(_, x) => Clean(p, t, b, stmts, x)
    case Selector(x, _) => Clean(p, t, b, stmts, x)
    case Binary(_, x, y) => Clean(p, t, b, stmts, x) && Clean(p, t, b, stmts, y)
    case Call(fun, args) => Clean(p, t, b, stmts, fun) && CleanAll(p, t, b, stmts, args)
    case Composite(typ, elts) => LiteralKeeps(p, Blank, typ, elts) && CleanAll(p, t, b, stmts, elts)
    case FuncLit(body) => BodyOk(p, t, stmts, body)
    case Other(parts) => CleanAll(p, t, b, stmts, parts)
  }

  ghost predicate CleanAll(p: Package, t: Tables, b: Binding, stmts: seq<Stmt>, es: Exprs)
    decreases es, 1
  {
    es.Cons? ==> Clean(p, t, b, stmts, es.head) && CleanAll(p, t, b, stmts, es.tail)
  }

  lemma {:induction false} InspectedClean(p: Package, t: Tables, b: Binding, stmts: seq<Stmt>, e: Expr, c: Context)
    requires InspectExpr(p, t, e, c).None? && !Dead(p, t, b, c) && CodeKeepsIn(p, Blank, e)
    requires forall s | s in AssignsIn(e) :: s in stmts
    ensures Clean(p, t, b, stmts, e)
    decreases e, 1
  {
    InspectedPartsClean(p, t, b, stmts, e, c);
  }

  lemma {:induction false} InspectedPartsClean(p: Package, t: Tables, b: Binding, stmts: seq<Stmt>, e: Expr, c: Context)
    requires InspectParts(p, t, e, c).None? && !Dead(p, t, b, c) && CodeKeepsIn(p, Blank, e)
    requires forall s | s in AssignsIn(e) :: s in stmts
    ensures CleanParts(p, t, b, stmts, e)
    decreases e, 0
  {
    match e
    case Ident(_, _) =>
    case StringLit(_, _) =>
    case IntLit(_) =>
    case Paren(x) => InspectedClean(p, t, b, stmts, x, c);
    case Star(x) => InspectedClean(p, t, b, stmts, x, c);
    case Unary(_, x) => InspectedClean(p, t, b, stmts, x, c);
    case Selector(x, _) => InspectedClean(p, t, b, stmts, x, c);
    case Binary(_, x, y) =>
      InspectedClean(p, t, b, stmts, x, c);
      InspectedClean(p, t, b, stmts, y, c);
    case Call(fun, args) =>
      InspectedClean(p, t, b, stmts, fun, c);
      InspectedAllClean(p, t, b, stmts, args, c);
    case Composite(_, elts) => InspectedAllClean(p, t, b, stmts, elts, c);
    case FuncLit(body) =>
    case Other(parts) => InspectedAllClean(p, t, b, stmts, parts, c);
  }

  lemma {:induction false} InspectedAllClean(p: Package, t: Tables, b: Binding, stmts: seq<Stmt>, es: Exprs, c: Context)
    requires InspectAll(p, t, es, c).None? && !Dead(p, t, b, c) && CodeKeepsInAll(p, Blank, es)
    requires forall s | s in AssignsInAll(es) :: s in stmts
    ensures CleanAll(p, t, b, stmts, es)
    decreases es, 1
  {
    if es.Cons? {
      InspectedClean(p, t, b, stmts, es.head, c);
      InspectedAllClean(p, t, b, stmts, es.tail, c);
    }
  }

  /** The left side of an inspected assignment enters no binding. */
  lemma {:induction false} PlaceEntersNoBinding(p: Package, t: Tables, e: Expr, c: Context)
    requires InspectExpr(p, t, e, c).None? && AssignmentTarget(c) && PlaceOf(e).Some?
    ensures PlaceOf(e).value.0 !in t.aliases
    ensures forall f | f in PlaceOf(e).value.1 :: !p.IsBindingField(f)
  {
    match e
    case Ident(_, _) =>
    case Paren(x) => PlaceEntersNoBinding(p, t, x, c);
    case Star(x) => PlaceEntersNoBinding(p, t, x, c);
    case Selector(x, _) => PlaceEntersNoBinding(p, t, x, c);
  }

  lemma {:induction false} WriteEntersNoBinding(p: Package, b: Binding, v: Value, path: seq<string>, w: Value)
    requires Plainly(p, b, Blank, v) && Plainly(p, b, Blank, w)
    requires forall f | f in path :: !p.IsBindingField(f)
    ensures WriteAt(p, v, path, w).1 == {}
    ensures WriteAt(p, v, path, w).0.Some? ==> Plainly(p, b, Blank, WriteAt(p, v, path, w).0.value)
    decreases |path|
  {
    if path != [] && v.VStruct? && path[0] in v.fields {
      var f := path[0];
      assert !p.IsBindingField(f);
      assert Binding(v.typ, f).field == f;
      assert FieldWf(p, v.typ, f, v.fields[f]);
      WriteEntersNoBinding(p, b, v.fields[f], path[1..], w);
    }
  }

  // ---- Running a certified package ----

  /** A run of one function: opaque code, the binding that is blank, and what was found of the body. */
  datatype Run = Run(p: Package, w: World, b: Binding, t: Tables, stmts: seq<Stmt>) {
    ghost predicate Sound() {
      WellTyped(p) && Certified(p) && LiteralsLeaveBindings(p) && WorldAgrees(p, w, b, Blank) && FrameOk(p, t, stmts)
    }

    /** Only aliases hold a configuration that counts as its binding's. */
    predicate Unmixed(store: map<Obj, Value>) {
      forall o | o in store && o !in t.aliases :: !store[o].VConf?
    }

    ghost predicate Good(st: State) {
      && StoreOk(p, t, b, Blank, st.store) && Unmixed(st.store)
      && (forall i | 0 <= i < |st.pool| :: BodyOk(p, t, stmts, st.pool[i]))
      && b !in st.used
    }

    ghost predicate Tidy(v: Value) { Plainly(p, b, Blank, v) }

    ghost predicate GoodResult(r: Result) { Good(r.st) && (r.Ok? ==> Tidy(r.v)) }

    /** The result of a clean expression: a bare binding only where the tables say so. */
    ghost predicate Expected(e: Expr, r: Result) {
      Good(r.st) && (r.Ok? ==> Wf(p, b, Blank, r.v) && (r.v.VConf? ==> Resolve(p, t, e) == Some(r.v.binding)))
    }

    ghost predicate GoodResults(rs: Results) {
      Good(rs.st) && (rs.OkAll? ==> forall v | v in rs.vs :: Wf(p, b, Blank, v))
    }

    ghost predicate GoodFlow(flow: Flow) { Good(flow.st) && (flow.Returned? ==> Tidy(flow.v)) }

    ghost predicate CleanE(e: Expr) { Clean(p, t, b, stmts, e) }

    ghost predicate CleanEs(es: Exprs) { CleanAll(p, t, b, stmts, es) }

    /** The subterms of a clean expression are clean. */
    ghost predicate CleanBelow(e: Expr) {
      match e
      case Ident(_, _) => true
      case StringLit(_, _) => true
      case IntLit(_) => true
      case Paren(y) => CleanE(y)
      case Star(y) => CleanE(y)
      case Unary(_, y) => CleanE(y)
      case Selector(y, _) => CleanE(y)
      case Binary(_, y, z) => CleanE(y) && CleanE(z)
      case Call(fun, args) => CleanE(fun) && CleanEs(args)
      case Composite(typ, elts) => LiteralKeeps(p, Blank, typ, elts) && CleanEs(elts)
      case FuncLit(body) => BodyOk(p, t, stmts, body)
      case Other(parts) => CleanEs(parts)
    }

    /** A statement that was inspected where it may run. */
    ghost predicate Live(s: Stmt, c: Context) {
      InspectStmt(p, t, s, c).None? && !Dead(p, t, b, c) && Covers(AssignsOf(s)) && CodeKeeps(p, Blank, s)
    }

    ghost predicate LiveExpr(e: Expr, c: Context) {
      InspectExpr(p, t, e, c).None? && !Dead(p, t, b, c) && Covers(AssignsIn(e)) && CodeKeepsIn(p, Blank, e)
    }

    ghost predicate Covers(part: seq<Stmt>) { forall s | s in part :: s in stmts }
  }

  lemma CleanDown(x: Run, e: Expr)
    requires x.CleanE(e)
    ensures x.CleanBelow(e)
  {
    assert CleanParts(x.p, x.t, x.b, x.stmts, e);
  }

  lemma CleanDownAll(x: Run, es: Exprs)
    requires x.CleanEs(es) && es.Cons?
    ensures x.CleanE(es.head) && x.CleanEs(es.tail)
  {
  }

  lemma CoversParts(x: Run, a: seq<Stmt>, b: seq<Stmt>)
    requires x.Covers(a + b)
    ensures x.Covers(a) && x.Covers(b)
  {
    forall s | s in a || s in b ensures s in x.stmts { assert s in a + b; }
  }

  lemma LiveClean(x: Run, e: Expr, c: Context)
    requires x.LiveExpr(e, c)
    ensures x.CleanE(e)
  {
    InspectedClean(x.p, x.t, x.b, x.stmts, e, c);
  }

  lemma TidyDetach(x: Run, v: Value)
    requires x.Sound() && Wf(x.p, x.b, Blank, v)
    ensures x.Tidy(Detach(v))
  {
    DetachPlain(x.p, x.b, Blank, v);
  }

  /** What the variables read as is as good as what they hold. */
  lemma ReadsGood(x: Run, st: State)
    requires x.Sound() && x.Good(st)
    ensures StoreOk(x.p, x.t, x.b, Blank, Contents(x.p, x.w, st)) && x.Unmixed(Contents(x.p, x.w, st))
  {
    hide Wf, Shares, BodyOk, FrameOk, WellTyped, Certified, LiteralsLeaveBindings;
  }

  lemma {:induction false} SafeOpaque(x: Run, st: State, fuel: nat)
    requires x.Sound() && x.Good(st)
    ensures x.GoodResult(Opaque(x.p, x.w, st, fuel))
    decreases fuel, 0
  {
    var k := x.w.pick(st.tick);
    var next := st.(tick := st.tick + 1);
    if fuel > 0 && k < |st.pool| {
      assert BodyOk(x.p, x.t, x.stmts, st.pool[k]);
      var c: Context :| InspectStmt(x.p, x.t, st.pool[k], InFuncLit(c)).None?;
      SafeExec(x, st.pool[k], InFuncLit(c), next, fuel - 1);
    }
  }

  /** Reading a field that is there. */
  lemma {:induction false} SafeRead(x: Run, e: Expr, v: Value, st: State, mode: Mode)
    requires x.Good(st) && e.Selector? && x.CleanE(e) && Wf(x.p, x.b, Blank, v)
    requires (v.VStruct? || v.VConf?) && e.sel in v.fields
    requires x.p.IsBindingField(e.sel) ==> v.VStruct? && ConfigMembers(x.t, e.x) == Some(v.typ)
    ensures x.Expected(e, Read(v.fields[e.sel], st, mode))
  {
    var f := e.sel;
    if v.VStruct? {
      assert FieldWf(x.p, v.typ, f, v.fields[f]);
      if v.fields[f].VConf? { assert Binding(v.typ, f).field == f; }
    }
  }

  lemma {:induction false} SafeSelect(x: Run, e: Expr, v: Value, st: State, mode: Mode, fuel: nat)
    requires x.Sound() && x.Good(st) && e.Selector? && x.CleanE(e) && Wf(x.p, x.b, Blank, v)
    requires x.p.IsBindingField(e.sel) ==> v.VStruct? && ConfigMembers(x.t, e.x) == Some(v.typ)
    ensures x.Expected(e, Select(x.p, x.w, v, e.sel, st, mode, fuel))
    decreases fuel, 0
  {
    hide Wf, Opaque, Run.Sound, Run.Good;
    var f := e.sel;
    if fuel == 0 { return; }
    if (v.VStruct? || v.VConf?) && f in v.fields {
      SafeRead(x, e, v, st, mode);
    } else if !((v.VStruct? && MustHave(x.p, v.typ, f)) || (v.VConf? && MustHave(x.p, RPC_CLIENT_CONF, f))) {
      assert !x.p.IsBindingField(f);
      assert (set c | c in x.p.bindings && c.field == f) == {};
      assert st.(used := st.used + {}) == st;
      if fuel > 1 { SafeOpaque(x, st, fuel - 2); }
    }
  }

  /** A field with a binding's name is only ever read from a configuration. */
  lemma FieldReceiver(x: Run, e: Expr, st: State, mode: Mode, fuel: nat)
    requires x.Sound() && x.Good(st) && e.Selector? && x.CleanE(e) && x.p.IsBindingField(e.sel)
    ensures var r := Eval(x.p, x.w, e.x, st, mode, fuel);
      r.Ok? ==> r.v.VStruct? && ConfigMembers(x.t, e.x) == Some(r.v.typ)
  {
    hide Eval, Wf;
    ReadsGood(x, st);
    MembersEval(x.p, x.w, x.t, x.b, Blank, e.x, st, mode, fuel);
  }

  lemma ScalarsTidy(x: Run)
    ensures forall v: Value | v.VBool? || v.VInt? || v.VStr? || v.VOpaque? :: x.Tidy(v)
  {
  }

  lemma {:induction false} SafeSelector(x: Run, e: Expr, st: State, mode: Mode, fuel: nat)
    requires x.Sound() && x.Good(st) && e.Selector? && x.CleanE(e) && fuel > 0
    ensures x.Expected(e, Eval(x.p, x.w, e, st, mode, fuel))
    decreases fuel, 0
  {
    hide Select, Wf, Clean, Opaque, Run.Sound, Run.Good, Run.CleanE;
    CleanDown(x, e);
    SafeEval(x, e.x, st, Sub(mode), fuel - 1);
    var r := Eval(x.p, x.w, e.x, st, Sub(mode), fuel - 1);
    if x.p.IsBindingField(e.sel) { FieldReceiver(x, e, st, Sub(mode), fuel - 1); }
    if r.Ok? { SafeSelect(x, e, r.v, r.st, mode, fuel - 1); }
  }

  lemma {:induction false} SafeStar(x: Run, e: Expr, st: State, mode: Mode, fuel: nat)
    requires x.Sound() && x.Good(st) && e.Star? && x.CleanE(e) && fuel > 0
    ensures x.Expected(e, Eval(x.p, x.w, e, st, mode, fuel))
    decreases fuel, 0
  {
    hide Wf, Clean, Opaque, Run.Sound, Run.Good, Run.CleanE;
    CleanDown(x, e);
    SafeEval(x, e.x, st, Sub(mode), fuel - 1);
    var r := Eval(x.p, x.w, e.x, st, Sub(mode), fuel - 1);
    if r.Ok? { TidyDetach(x, r.v); }
  }

  lemma {:induction false} SafeOther(x: Run, e: Expr, st: State, mode: Mode, fuel: nat)
    requires x.Sound() && x.Good(st) && e.Other? && x.CleanE(e) && fuel > 0
    ensures x.Expected(e, Eval(x.p, x.w, e, st, mode, fuel))
    decreases fuel, 0
  {
    hide Wf, Clean, Opaque, Run.Sound, Run.Good, Run.CleanE, Run.CleanEs;
    CleanDown(x, e);
    SafeEvalAll(x, e.parts, st, Normal, fuel - 1);
    var rs := EvalAll(x.p, x.w, e.parts, st, Normal, fuel - 1);
    if rs.OkAll? { SafeOpaque(x, rs.st, fuel - 1); }
  }

  lemma {:induction false} SafeLeaf(x: Run, e: Expr, st: State, mode: Mode, fuel: nat)
    requires x.Sound() && x.Good(st) && x.CleanE(e) && fuel > 0
    requires e.Ident? || e.StringLit? || e.IntLit? || e.FuncLit?
    ensures x.Expected(e, Eval(x.p, x.w, e, st, mode, fuel))
    decreases fuel, 0
  {
    CleanDown(x, e);
    hide Wf, CleanParts, Opaque, Run.Sound;
    if e.Ident? {
      if e.obj.None? { SafeOpaque(x, st, fuel - 1); } else if e.obj.value in st.store { SafeVariable(x, e, st, mode); }
    }
  }

  /** Reading a variable. */
  lemma SafeVariable(x: Run, e: Expr, st: State, mode: Mode)
    requires x.Sound() && x.Good(st) && x.CleanE(e) && e.Ident? && e.obj.Some? && e.obj.value in st.store
    ensures x.Expected(e, Read(Contents(x.p, x.w, st)[e.obj.value], st, mode))
  {
    ReadsGood(x, st);
    hide Eval, Contents;
  }

  lemma {:induction false} SafeParen(x: Run, e: Expr, st: State, mode: Mode, fuel: nat)
    requires x.Sound() && x.Good(st) && e.Paren? && x.CleanE(e) && fuel > 0
    ensures x.Expected(e, Eval(x.p, x.w, e, st, mode, fuel))
    decreases fuel, 0
  {
    hide Wf, Clean, Opaque, Run.Sound, Run.Good, Run.CleanE;
    CleanDown(x, e);
    SafeEval(x, e.x, st, Sub(mode), fuel - 1);
  }

  lemma {:induction false} SafeEval(x: Run, e: Expr, st: State, mode: Mode, fuel: nat)
    requires x.Sound() && x.Good(st) && x.CleanE(e)
    ensures x.Expected(e, Eval(x.p, x.w, e, st, mode, fuel))
    decreases fuel, 1
  {
    hide Wf, Clean, Opaque, Resolve, Run.Sound, Run.Good, Run.CleanE;
    if fuel == 0 { return; }
    match e
    case Paren(_) => SafeParen(x, e, st, mode, fuel);
    case Star(_) => SafeStar(x, e, st, mode, fuel);
    case Unary(_, _) => SafeUnary(x, e, st, mode, fuel - 1);
    case Binary(_, _, _) => SafeBinary(x, e, st, mode, fuel - 1);
    case Selector(_, _) => SafeSelector(x, e, st, mode, fuel);
    case Call(_, _) => SafeCall(x, e, st, mode, fuel - 1);
    case Composite(_, _) => SafeComposite(x, e, st, fuel - 1);
    case Other(_) => SafeOther(x, e, st, mode, fuel);
    case _ => SafeLeaf(x, e, st, mode, fuel);
  }

  lemma {:induction false} SafeUnary(x: Run, e: Expr, st: State, mode: Mode, fuel: nat)
    requires x.Sound() && x.Good(st) && e.Unary? && x.CleanE(e)
    ensures x.GoodResult(EvalUnary(x.p, x.w, e.uop, e.x, st, mode, fuel))
    decreases fuel, 0
  {
    hide Eval, Wf, Clean, Opaque, Run.Sound, Run.Good, Run.CleanE;
    CleanDown(x, e);
    ScalarsTidy(x);
    if fuel == 0 { return; }
    SafeEval(x, e.x, st, Sub(mode), fuel - 1);
    var r := Eval(x.p, x.w, e.x, st, Sub(mode), fuel - 1);
    if r.Ok? {
      TidyDetach(x, r.v);
      SafeOpaque(x, r.st, fuel - 1);
    }
  }

  lemma {:induction false} SafeBinary(x: Run, e: Expr, st: State, mode: Mode, fuel: nat)
    requires x.Sound() && x.Good(st) && e.Binary? && x.CleanE(e)
    ensures x.GoodResult(EvalBinary(x.p, x.w, e.bop, e.x, e.y, st, mode, fuel))
    decreases fuel, 0
  {
    hide Eval, Wf, Clean, Opaque, Compare, Run.Sound, Run.Good, Run.CleanE;
    CleanDown(x, e);
    ScalarsTidy(x);
    if fuel == 0 { return; }
    SafeEval(x, e.x, st, Sub(mode), fuel - 1);
    var r := Eval(x.p, x.w, e.x, st, Sub(mode), fuel - 1);
    if r.Ok? {
      SafeEval(x, e.y, r.st, Sub(mode), fuel - 1);
      var q := Eval(x.p, x.w, e.y, r.st, Sub(mode), fuel - 1);
      if q.Ok? { SafeOpaque(x, q.st, fuel - 1); }
    }
  }

  lemma {:induction false} SafeEvalAll(x: Run, es: Exprs, st: State, mode: Mode, fuel: nat)
    requires x.Sound() && x.Good(st) && x.CleanEs(es)
    ensures x.GoodResults(EvalAll(x.p, x.w, es, st, mode, fuel))
    decreases fuel, 0
  {
    hide Eval, Wf, Clean, Opaque, Run.Sound, Run.Good, Run.CleanE, Run.CleanEs;
    if fuel == 0 || es.Nil? { return; }
    CleanDownAll(x, es);
    SafeEval(x, es.head, st, mode, fuel - 1);
    var r := Eval(x.p, x.w, es.head, st, mode, fuel - 1);
    if r.Ok? { SafeEvalAll(x, es.tail, r.st, mode, fuel - 1); }
  }

  lemma GoodAll(x: Run, rs: Results)
    requires x.GoodResults(rs)
    ensures x.Good(rs.st) && (rs.OkAll? ==> forall v | v in rs.vs :: Wf(x.p, x.b, Blank, v))
    ensures x.GoodResult(Halt(rs.st))
  {
  }

  /** A call of a function of the package, unfolded. */
  lemma KnownCall(p: Package, w: World, e: Expr, st: State, mode: Mode, fuel: nat)
    requires e.Call? && !p.IsBuiltinLen(e) && p.Callee(e.fun).Some? && fuel > 0
    ensures var fn := p.Callee(e.fun).value;
      var rs := EvalAll(p, w, e.args, st, if mode == InCond && IsPredicateHelper(fn) then InCond else Normal, fuel - 1);
      EvalCall(p, w, e, st, mode, fuel) == if rs.HaltAll? then Halt(rs.st) else Invoke(p, w, fn, rs.vs, rs.st, fuel - 1)
  {
    hide Eval, EvalAll, Invoke;
  }

  lemma {:induction false} SafeKnownCall(x: Run, e: Expr, st: State, mode: Mode, fuel: nat)
    requires x.Sound() && x.Good(st) && e.Call? && x.CleanE(e)
    requires !x.p.IsBuiltinLen(e) && x.p.Callee(e.fun).Some? && fuel > 0
    ensures x.GoodResult(EvalCall(x.p, x.w, e, st, mode, fuel))
    decreases fuel, 0
  {
    hide Eval, EvalAll, EvalCall, Invoke, Wf, Clean, Opaque, Run.Sound, Run.Good, Run.CleanE, Run.CleanEs;
    CleanDown(x, e);
    var fn := x.p.Callee(e.fun).value;
    var argMode := if mode == InCond && IsPredicateHelper(fn) then InCond else Normal;
    assert e.fun.name in x.p.functions && fn == x.p.functions[e.fun.name];
    assert x.CleanEs(e.args);
    KnownCall(x.p, x.w, e, st, mode, fuel);
    SafeEvalAll(x, e.args, st, argMode, fuel - 1);
    var rs := EvalAll(x.p, x.w, e.args, st, argMode, fuel - 1);
    GoodAll(x, rs);
    if rs.OkAll? { SafeInvoke(x, e.fun.name, rs.vs, rs.st, fuel - 1); }
  }

  lemma {:induction false} SafeUnknownCall(x: Run, e: Expr, st: State, mode: Mode, fuel: nat)
    requires x.Sound() && x.Good(st) && e.Call? && x.CleanE(e)
    requires !x.p.IsBuiltinLen(e) && x.p.Callee(e.fun).None? && fuel > 0
    ensures x.GoodResult(EvalCall(x.p, x.w, e, st, mode, fuel))
    decreases fuel, 0
  {
    hide Eval, EvalAll, Wf, Clean, Opaque, Run.Sound, Run.Good, Run.CleanE, Run.CleanEs;
    CleanDown(x, e);
    SafeEval(x, e.fun, st, Normal, fuel - 1);
    var r := Eval(x.p, x.w, e.fun, st, Normal, fuel - 1);
    if r.Ok? {
      SafeEvalAll(x, e.args, r.st, Normal, fuel - 1);
      var rs := EvalAll(x.p, x.w, e.args, r.st, Normal, fuel - 1);
      if rs.OkAll? { SafeOpaque(x, rs.st, fuel - 1); }
    }
  }

  lemma {:induction false} SafeCall(x: Run, e: Expr, st: State, mode: Mode, fuel: nat)
    requires x.Sound() && x.Good(st) && e.Call? && x.CleanE(e)
    ensures x.GoodResult(EvalCall(x.p, x.w, e, st, mode, fuel))
    decreases fuel, 1
  {
    hide Eval, EvalAll, Invoke, Wf, Clean, Opaque, Run.Sound, Run.Good, Run.CleanE;
    if fuel == 0 { return; }
    if x.p.IsBuiltinLen(e) {
      ScalarsTidy(x);
      CleanDown(x, e);
      CleanDownAll(x, e.args);
      SafeEval(x, e.args.head, st, Sub(mode), fuel - 1);
    } else if x.p.Callee(e.fun).Some? {
      SafeKnownCall(x, e, st, mode, fuel);
    } else {
      SafeUnknownCall(x, e, st, mode, fuel);
    }
  }

  lemma {:induction false} SafeComposite(x: Run, e: Expr, st: State, fuel: nat)
    requires x.Sound() && x.Good(st) && e.Composite? && x.CleanE(e)
    ensures x.GoodResult(EvalComposite(x.p, x.w, e.typ, e.elts, st, fuel))
    decreases fuel, 0
  {
    hide Eval, EvalAll, Build, Clean, LiteralKeeps, Run.Good, Run.CleanE, Run.CleanEs;
    CleanDown(x, e);
    if fuel == 0 { return; }
    SafeEvalAll(x, e.elts, st, Normal, fuel - 1);
    var rs := EvalAll(x.p, x.w, e.elts, st, Normal, fuel - 1);
    if rs.OkAll? && Build(x.p, e.typ, e.elts, 0, rs.vs).Some? {
      EvalAllLength(x.p, x.w, e.elts, st, Normal, fuel - 1);
      forall v | v in rs.vs ensures Loose(x.p, x.b, Blank, v) { DetachPlain(x.p, x.b, Blank, v); }
      BuildKeeps(x.p, x.b, Blank, e.typ, e.elts, rs.vs);
    }
  }

  lemma {:induction false} ParamsBound(p: Package, b: Binding, params: seq<Param>, vs: seq<Value>)
    requires SensibleTypes(p) && |params| == |vs| && forall v | v in vs :: Wf(p, b, Blank, v)
    ensures forall o | o in BindParams(params, vs) ::
      Plainly(p, b, Blank, BindParams(params, vs)[o]) && IsParam(params, o)
    decreases |params|
  {
    if params != [] {
      DetachPlain(p, b, Blank, vs[0]);
      ParamsBound(p, b, params[1..], vs[1..]);
      var rest := BindParams(params[1..], vs[1..]);
      forall o | o in BindParams(params, vs) ensures IsParam(params, o) {
        if o != params[0].obj {
          assert IsParam(params[1..], o);
          var i :| 0 <= i < |params[1..]| && params[1..][i].obj == o;
          assert params[i + 1].obj == o;
        }
      }
    }
  }

  predicate IsParam(params: seq<Param>, o: Obj) {
    exists i :: 0 <= i < |params| && params[i].obj == o
  }

  lemma CalleeFrame(x: Run, fn: Function, vs: seq<Value>, st: State)
    requires x.Sound() && x.Good(st) && WellDeclared(x.p, fn) && Accepted(x.p, fn)
    requires |vs| == |fn.params| && forall v | v in vs :: Wf(x.p, x.b, Blank, v)
    requires AllFit(x.p, BindParams(fn.params, vs))
    ensures var y := x.(t := TablesOf(x.p, fn), stmts := AssignsOf(fn.body));
      y.Sound() && y.Good(Entered(fn, BindParams(fn.params, vs), st))
  {
    AcceptedFrame(x.p, fn);
    ParamsBound(x.p, x.b, fn.params, vs);
    var t := TablesOf(x.p, fn);
    var frame := BindParams(fn.params, vs);
    forall o | o in frame ensures o !in t.aliases && Plainly(x.p, x.b, Blank, frame[o]) && Fits(x.p, o, frame[o]) {
      assert IsParam(fn.params, o);
    }
    assert StoreOk(x.p, t, x.b, Blank, frame);
  }

  /** The body of a function of the package is inspected where it may run. */
  lemma CalleeLive(x: Run, name: string)
    requires x.Sound() && name in x.p.functions
    ensures var fn := x.p.functions[name];
      WellDeclared(x.p, fn) && Accepted(x.p, fn)
      && x.(t := TablesOf(x.p, fn), stmts := AssignsOf(fn.body)).Live(fn.body, Top)
  {
    hide AssignsOf, TablesOf, WellDeclared;
  }

  /** Calling a function of the package, whatever it is given, keeps the caller's frame good. */
  lemma {:induction false} SafeInvoke(x: Run, name: string, vs: seq<Value>, st: State, fuel: nat)
    requires x.Sound() && x.Good(st) && name in x.p.functions && forall v | v in vs :: Wf(x.p, x.b, Blank, v)
    ensures x.GoodResult(Invoke(x.p, x.w, x.p.functions[name], vs, st, fuel))
    decreases fuel, 0
  {
    hide Wf, Eval, WellDeclared, RpcCertifier.Accepted, Run.Covers, Run.Sound, Run.Good, Run.Live;
    CalleeLive(x, name);
    var fn := x.p.functions[name];
    if fuel == 0 || |vs| != |fn.params| { return; }
    var frame := BindParams(fn.params, vs);
    if AllFit(x.p, frame) {
      CalleeFrame(x, fn, vs, st);
      var y := x.(t := TablesOf(x.p, fn), stmts := AssignsOf(fn.body));
      SafeExec(y, fn.body, Top, Entered(fn, frame, st), fuel - 1);
      var flow := Exec(x.p, x.w, fn.body, Entered(fn, frame, st), fuel - 1);
      ReturnGood(x, y, st, flow);
    }
  }

  /** Back in the caller's frame. */
  lemma ReturnGood(x: Run, y: Run, st: State, flow: Flow)
    requires x.Good(st) && y.GoodFlow(flow) && y.p == x.p && y.b == x.b
    ensures x.Good(st.(used := flow.st.used, tick := flow.st.tick, decisions := flow.st.decisions))
    ensures flow.Returned? ==> x.Tidy(flow.v)
    ensures x.Tidy(VOpaque)
  {
    hide BodyOk;
  }

  lemma StoreKept(x: Run, st: State, o: Obj, v: Value)
    requires x.Good(st) && Wf(x.p, x.b, Blank, v) && Fits(x.p, o, v)
    requires if o in x.t.aliases then v.VConf? && v.binding == x.t.aliases[o].binding else !v.VConf?
    ensures x.Good(st.(store := st.store[o := v]))
  {
  }

  lemma TickGood(x: Run, st: State)
    requires x.Good(st)
    ensures x.Good(st.(tick := st.tick + 1))
  {
  }

  /** A store into a place, unfolded. */
  lemma PlaceStored(p: Package, w: World, lhs: Expr, v: Value, st: State, fuel: nat)
    requires !lhs.Ident? && PlaceOf(lhs).Some? && fuel > 0
    ensures var (o, path) := PlaceOf(lhs).value;
      var flow := Store(p, w, lhs, v, st, fuel);
      if o !in st.store then flow == Stop(st)
      else
        var (written, hit) := WriteAt(p, st.store[o], path, v);
        var after := st.(used := st.used + hit, tick := st.tick + 1);
        flow == if written.Some? && Fits(p, o, written.value) then Next(after.(store := st.store[o := written.value]))
          else Stop(after)
  {
    hide Eval, WriteAt;
  }

  lemma LivePlace(x: Run, lhs: Expr, c: Context)
    requires x.LiveExpr(lhs, c) && AssignmentTarget(c) && PlaceOf(lhs).Some?
    ensures PlaceOf(lhs).value.0 !in x.t.aliases
    ensures forall f | f in PlaceOf(lhs).value.1 :: !x.p.IsBindingField(f)
  {
    PlaceEntersNoBinding(x.p, x.t, lhs, c);
  }

  lemma HeldTidy(x: Run, st: State, o: Obj)
    requires x.Good(st) && o in st.store && o !in x.t.aliases
    ensures Plainly(x.p, x.b, Blank, st.store[o])
  {
  }

  /** A write to a variable, or into a field of one. */
  lemma SafePlace(x: Run, lhs: Expr, c: Context, v: Value, st: State, fuel: nat)
    requires x.Sound() && x.Good(st) && x.LiveExpr(lhs, c) && AssignmentTarget(c) && x.Tidy(v)
    requires fuel > 0 && PlaceOf(lhs).Some?
    ensures x.GoodFlow(Store(x.p, x.w, lhs, v, st, fuel))
  {
    hide Eval, InspectExpr, Wf, WriteAt, Fits, Run.Sound, Run.LiveExpr, Run.Good;
    LivePlace(x, lhs, c);
    var (o, path) := PlaceOf(lhs).value;
    if lhs.Ident? {
      if Fits(x.p, o, v) { StoreKept(x, st, o, v); }
    } else if o in st.store {
      HeldTidy(x, st, o);
      WriteEntersNoBinding(x.p, x.b, st.store[o], path, v);
      var (written, hit) := WriteAt(x.p, st.store[o], path, v);
      var after := st.(tick := st.tick + 1);
      assert st.(used := st.used + hit, tick := st.tick + 1) == after;
      TickGood(x, st);
      if written.Some? && Fits(x.p, o, written.value) { StoreKept(x, after, o, written.value); }
    }
  }

  lemma {:induction false} SafeStore(x: Run, lhs: Expr, c: Context, v: Value, st: State, fuel: nat)
    requires x.Sound() && x.Good(st) && x.LiveExpr(lhs, c) && AssignmentTarget(c) && x.Tidy(v)
    ensures x.GoodFlow(Store(x.p, x.w, lhs, v, st, fuel))
    decreases fuel, 0
  {
    hide Eval, WriteAt, InspectExpr, Wf, Run.Sound, Run.Good;
    if fuel == 0 { return; }
    if PlaceOf(lhs).Some? {
      SafePlace(x, lhs, c, v, st, fuel);
    } else if !lhs.Ident? {
      LiveClean(x, lhs, c);
      SafeEval(x, lhs, st, Normal, fuel - 1);
    }
  }

  /** What the defining statement of an alias evaluates its right side to. */
  lemma AliasValue(x: Run, s: Stmt, c: Context, st: State, fuel: nat)
    requires x.Sound() && x.Good(st) && AliasDefinition(x.t, s) && x.Live(s, c)
    ensures var r := Eval(x.p, x.w, s.rhs, st, AliasDef, fuel);
      x.Good(r.st) && (r.Ok? ==>
        Wf(x.p, x.b, Blank, r.v) && r.v.VConf? && r.v.binding == x.t.aliases[s.lhs.obj.value].binding)
  {
    assert DefinesAlias(x.p, x.t, s.lhs.obj.value);
    ReadsGood(x, st);
    ResolveEval(x.p, x.w, x.t, x.b, Blank, s.rhs, st, AliasDef, fuel);
    if s.rhs.Paren? { ParenAlias(x, s, c); }
  }

  /** Parentheses around an alias's right side make its inside an ordinary, judged node. */
  lemma ParenAlias(x: Run, s: Stmt, c: Context)
    requires AliasDefinition(x.t, s) && x.Live(s, c) && s.rhs.Paren?
    ensures Resolve(x.p, x.t, s.rhs) != Some(x.b)
  {
    var right := if s.kind.VarDecl? then c else AssignRhs(c);
    CoversParts(x, [s] + AssignsIn(s.lhs), AssignsIn(s.rhs));
    assert InspectParts(x.p, x.t, s.rhs, right).None?;
    assert CodeKeepsIn(x.p, Blank, s.rhs);
    LiveClean(x, s.rhs.x, right);
  }

  lemma UnsettledAlias(p: Package, t: Tables, s: Stmt)
    requires s.Assign? && !s.kind.Plain? && s.lhs.Ident? && s.lhs.obj.Some? && s.lhs.obj.value !in t.aliases
    requires Step(p, t, s) == t
    ensures Resolve(p, t, s.rhs).None?
  {
    var o := s.lhs.obj.value;
    var t1 := AddCarrier(t, o, CompositeCarrier(p, t, s.rhs));
    var t2 := AddCarrier(t1, o, CopiedCarrier(t1, s.rhs));
    var t3 := AddConfig(t2, o, ConfigMembers(t2, s.rhs));
    assert t3.aliases == t.aliases;
    assert t3 == t by {
      assert AddAlias(t3, o, s, Resolve(p, t3, s.rhs)) == t;
    }
  }

  lemma AssignParts(x: Run, s: Stmt, c: Context)
    requires s.Assign? && x.Live(s, c) && !AliasDefinition(x.t, s)
    ensures x.LiveExpr(s.lhs, if s.kind.VarDecl? then c else AssignLhs(c))
    ensures x.LiveExpr(s.rhs, if s.kind.VarDecl? then c else AssignRhs(c))
  {
    assert [s] + AssignsIn(s.lhs) + AssignsIn(s.rhs) == AssignsOf(s);
    CoversParts(x, [s] + AssignsIn(s.lhs), AssignsIn(s.rhs));
    CoversParts(x, [s], AssignsIn(s.lhs));
  }

  lemma SafeAliasDefinition(x: Run, s: Stmt, c: Context, st: State, fuel: nat)
    requires x.Sound() && x.Good(st) && x.Live(s, c) && fuel > 0
    requires AliasDefinition(x.t, s) && !s.kind.Plain?
    ensures x.GoodFlow(Exec(x.p, x.w, s, st, fuel))
  {
    hide Eval, Run.Sound, Run.Live;
    AliasValue(x, s, c, st, fuel - 1);
    var r := Eval(x.p, x.w, s.rhs, st, AliasDef, fuel - 1);
    assert Exec(x.p, x.w, s, st, fuel) ==
      if r.Halt? then Stop(r.st) else Store(x.p, x.w, s.lhs, r.v, r.st, fuel - 1);
    if r.Ok? && Fits(x.p, s.lhs.obj.value, r.v) { StoreKept(x, r.st, s.lhs.obj.value, r.v); }
  }

  /** The declaration of a variable that is no alias. */
  lemma {:induction false} SafeDeclaration(x: Run, s: Stmt, c: Context, st: State, fuel: nat)
    requires x.Sound() && x.Good(st) && x.Live(s, c) && fuel > 0
    requires s.Assign? && !s.kind.Plain? && s.lhs.Ident? && Settled(x.p, x.t, s) && !AliasDefinition(x.t, s)
    ensures x.GoodFlow(Exec(x.p, x.w, s, st, fuel))
    decreases fuel, 0
  {
    AssignParts(x, s, c);
    LiveClean(x, s.rhs, if s.kind.VarDecl? then c else AssignRhs(c));
    SafeEval(x, s.rhs, st, AliasDef, fuel - 1);
    var r := Eval(x.p, x.w, s.rhs, st, AliasDef, fuel - 1);
    if r.Ok? && s.lhs.obj.Some? {
      UnsettledAlias(x.p, x.t, s);
      if Fits(x.p, s.lhs.obj.value, r.v) { StoreKept(x, r.st, s.lhs.obj.value, r.v); }
    }
  }

  lemma {:induction false} SafeAssign(x: Run, s: Stmt, c: Context, st: State, fuel: nat)
    requires x.Sound() && x.Good(st) && x.Live(s, c) && fuel > 0
    requires s.Assign? && (s.kind.Plain? || !s.lhs.Ident?) && Settled(x.p, x.t, s) && !AliasDefinition(x.t, s)
    ensures x.GoodFlow(Exec(x.p, x.w, s, st, fuel))
    decreases fuel, 0
  {
    hide Eval, Store, Wf, InspectExpr, Run.Sound, Run.Good, Run.LiveExpr;
    AssignParts(x, s, c);
    LiveClean(x, s.rhs, AssignRhs(c));
    SafeEval(x, s.rhs, st, Normal, fuel - 1);
    var r := Eval(x.p, x.w, s.rhs, st, Normal, fuel - 1);
    if r.Ok? {
      TidyDetach(x, r.v);
      SafeStore(x, s.lhs, AssignLhs(c), Detach(r.v), r.st, fuel - 1);
    }
  }

  lemma LiveTarget(x: Run, e: Expr, c: Context)
    requires x.Live(IncDec(e), c)
    ensures x.LiveExpr(e, InIncDec(c))
  {
    CoversParts(x, [IncDec(e)], AssignsIn(e));
  }

  lemma {:induction false} SafeIncDec(x: Run, e: Expr, c: Context, st: State, fuel: nat)
    requires x.Sound() && x.Good(st) && x.Live(IncDec(e), c) && fuel > 0
    ensures x.GoodFlow(Exec(x.p, x.w, IncDec(e), st, fuel))
    decreases fuel, 0
  {
    hide Eval, Opaque, Store, InspectExpr, InspectStmt, Wf, Run.Sound, Run.Good, Run.Live, Run.LiveExpr;
    LiveTarget(x, e, c);
    SafeOpaque(x, st, fuel - 1);
    var r := Opaque(x.p, x.w, st, fuel - 1);
    if r.Ok? { SafeStore(x, e, InIncDec(c), r.v, r.st, fuel - 1); }
  }

  lemma {:induction false} SafeReturn(x: Run, e: Expr, c: Context, st: State, fuel: nat)
    requires x.Sound() && x.Good(st) && x.Live(Return(e), c) && fuel > 0
    ensures x.GoodFlow(Exec(x.p, x.w, Return(e), st, fuel))
    decreases fuel, 0
  {
    hide Eval, Run.Sound, Run.Good;
    LiveClean(x, e, c);
    SafeEval(x, e, st, Normal, fuel - 1);
    var r := Eval(x.p, x.w, e, st, Normal, fuel - 1);
    if r.Ok? { TidyDetach(x, r.v); }
  }

  lemma IfParts(x: Run, s: Stmt, c: Context)
    requires s.If? && x.Live(s, c)
    ensures x.Live(s.init, c)
    ensures InspectExpr(x.p, x.t, s.cond, InCondition(s.cond, c)).None? && x.Covers(AssignsIn(s.cond))
    ensures CodeKeepsIn(x.p, Blank, s.cond)
    ensures InspectStmt(x.p, x.t, s.body, InThen(s.cond, c)).None? && x.Covers(AssignsOf(s.body))
    ensures CodeKeeps(x.p, Blank, s.body)
    ensures InspectStmt(x.p, x.t, s.els, InElse(s.cond, c)).None? && x.Covers(AssignsOf(s.els))
    ensures CodeKeeps(x.p, Blank, s.els)
  {
    var front := AssignsOf(s.init) + AssignsIn(s.cond);
    assert front + AssignsOf(s.body) + AssignsOf(s.els) == AssignsOf(s);
    CoversParts(x, front + AssignsOf(s.body), AssignsOf(s.els));
    CoversParts(x, front, AssignsOf(s.body));
    CoversParts(x, AssignsOf(s.init), AssignsIn(s.cond));
  }

  /** Either the condition is decided, without any effect, or it does not mention b. */
  lemma {:induction false} SafeCondition(x: Run, s: Stmt, c: Context, st: State, fuel: nat)
    requires x.Sound() && x.Good(st) && s.If? && x.Live(s, c)
    ensures var r := Eval(x.p, x.w, s.cond, st, InCond, fuel);
      var verdict := EvaluateCondition(x.p, x.t, s.cond, x.b).0;
      x.Good(r.st) && (r.Ok? && Decided(verdict) ==> r.v == VBool(verdict.IsTrue?))
    decreases fuel, 2
  {
    IfParts(x, s, c);
    if Decided(EvaluateCondition(x.p, x.t, s.cond, x.b).0) {
      ReadsGood(x, st);
      ConditionSound(x.p, x.w, x.t, x.b, s.cond, st, fuel);
    } else {
      LiveClean(x, s.cond, InCondition(s.cond, c));
      SafeEval(x, s.cond, st, InCond, fuel);
    }
  }

  /** The branch taken is one the condition did not rule out. */
  lemma BranchLive(x: Run, s: Stmt, c: Context, taken: bool)
    requires s.If? && x.Live(s, c)
    requires var verdict := EvaluateCondition(x.p, x.t, s.cond, x.b).0; Decided(verdict) ==> taken == verdict.IsTrue?
    ensures if taken then x.Live(s.body, InThen(s.cond, c)) else x.Live(s.els, InElse(s.cond, c))
  {
    IfParts(x, s, c);
  }

  lemma NotedGood(x: Run, st: State, s: Stmt, taken: bool, seen: map<Obj, Value>)
    requires x.Good(st)
    ensures x.Good(Noted(st, s, taken, seen))
  {
  }

  lemma {:induction false} SafeIf(x: Run, s: Stmt, c: Context, st: State, fuel: nat)
    requires x.Sound() && x.Good(st) && s.If? && x.Live(s, c) && fuel > 0
    ensures x.GoodFlow(Exec(x.p, x.w, s, st, fuel))
    decreases fuel, 0
  {
    hide Eval, EvaluateCondition, InspectExpr, InspectStmt, Run.Sound, Run.Live, Run.Covers, Run.Good;
    IfParts(x, s, c);
    SafeExec(x, s.init, c, st, fuel - 1);
    var flow := Exec(x.p, x.w, s.init, st, fuel - 1);
    if flow.Next? {
      SafeCondition(x, s, c, flow.st, fuel - 1);
      var r := Eval(x.p, x.w, s.cond, flow.st, InCond, fuel - 1);
      if r.Ok? && r.v.VBool? {
        BranchLive(x, s, c, r.v.b);
        var seen := Contents(x.p, x.w, flow.st);
        NotedGood(x, r.st, s, r.v.b, seen);
        if r.v.b {
          SafeExec(x, s.body, InThen(s.cond, c), Noted(r.st, s, r.v.b, seen), fuel - 1);
        } else {
          SafeExec(x, s.els, InElse(s.cond, c), Noted(r.st, s, r.v.b, seen), fuel - 1);
        }
      }
    }
  }

  lemma {:induction false} SafeFor(x: Run, s: Stmt, c: Context, st: State, fuel: nat)
    requires x.Sound() && x.Good(st) && s.For? && x.Live(s, c) && fuel > 0
    ensures x.GoodFlow(Exec(x.p, x.w, s, st, fuel))
    decreases fuel, 0
  {
    hide Eval, InspectExpr, Run.Sound, Run.Good;
    CoversParts(x, AssignsIn(s.cond), AssignsOf(s.body));
    LiveClean(x, s.cond, c);
    SafeEval(x, s.cond, st, Normal, fuel - 1);
    var r := Eval(x.p, x.w, s.cond, st, Normal, fuel - 1);
    if r.Ok? && r.v.VBool? && r.v.b {
      SafeExec(x, s.body, c, r.st, fuel - 1);
      var flow := Exec(x.p, x.w, s.body, r.st, fuel - 1);
      if flow.Next? { SafeExec(x, s, c, flow.st, fuel - 1); }
    }
  }

  lemma {:induction false} SafeSeq(x: Run, s: Stmt, c: Context, st: State, fuel: nat)
    requires x.Sound() && x.Good(st) && s.Seq? && x.Live(s, c) && fuel > 0
    ensures x.GoodFlow(Exec(x.p, x.w, s, st, fuel))
    decreases fuel, 0
  {
    hide Eval, Run.Sound, Run.Good;
    CoversParts(x, AssignsOf(s.first), AssignsOf(s.second));
    SafeExec(x, s.first, c, st, fuel - 1);
    var flow := Exec(x.p, x.w, s.first, st, fuel - 1);
    if flow.Next? { SafeExec(x, s.second, c, flow.st, fuel - 1); }
  }

  /** An assignment of the function adds nothing to its final tables. */
  lemma SettledHere(x: Run, s: Stmt, c: Context)
    requires x.Sound() && x.Live(s, c) && s.Assign?
    ensures Settled(x.p, x.t, s)
    ensures AliasDefinition(x.t, s) ==> !s.kind.Plain?
  {
    hide InspectStmt, Step, Resolve;
    assert s in AssignsOf(s);
    if AliasDefinition(x.t, s) { assert DefinesAlias(x.p, x.t, s.lhs.obj.value); }
  }

  lemma LivePart(x: Run, s: Stmt, c: Context)
    requires x.Live(s, c) && s.ExprStmt?
    ensures x.CleanE(s.e)
  {
    LiveClean(x, s.e, c);
  }

  lemma {:induction false} SafeExec(x: Run, s: Stmt, c: Context, st: State, fuel: nat)
    requires x.Sound() && x.Good(st) && x.Live(s, c)
    ensures x.GoodFlow(Exec(x.p, x.w, s, st, fuel))
    decreases fuel, 1
  {
    hide Eval, Store, InspectStmt, InspectExpr, Wf, Run.Sound, Run.Good, Run.Live;
    if fuel == 0 { return; }
    match s
    case Skip =>
    case Seq(_, _) => SafeSeq(x, s, c, st, fuel);
    case Assign(_, kind, lhs, _) =>
      SettledHere(x, s, c);
      if AliasDefinition(x.t, s) {
        SafeAliasDefinition(x, s, c, st, fuel);
      } else if !kind.Plain? && lhs.Ident? {
        SafeDeclaration(x, s, c, st, fuel);
      } else {
        SafeAssign(x, s, c, st, fuel);
      }
    case ExprStmt(e) =>
      LivePart(x, s, c);
      SafeEval(x, e, st, Normal, fuel - 1);
    case IncDec(e) => SafeIncDec(x, e, c, st, fuel);
    case Return(e) => SafeReturn(x, e, c, st, fuel);
    case If(_, _, _, _, _) => SafeIf(x, s, c, st, fuel);
    case For(_, _) => SafeFor(x, s, c, st, fuel);
  }

  /**
   Certification is sound for packages whose literals fill no binding. However a function of a
   certified package is called, with whatever values, fuel, opaque results and interleaved function
   literals: if every configuration it is given has binding b blank, the run never uses b.
   */
  lemma CertifiedNeverUses(p: Package, w: World, name: string, args: seq<Value>, b: Binding, fuel: nat)
    requires WellTyped(p) && Certified(p) && LiteralsLeaveBindings(p) && name in p.functions
    requires WorldAgrees(p, w, b, Blank) && forall v | v in args :: Wf(p, b, Blank, v)
    ensures b !in Invoke(p, w, p.functions[name], args, Start(p.functions[name]), fuel).st.used
  {
    hide Wf;
    var x := Run(p, w, b, Tables(map[], map[], map[]), []);
    SafeInvoke(x, name, args, Start(p.functions[name]), fuel);
  }
}
