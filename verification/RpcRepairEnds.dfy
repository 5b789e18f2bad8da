/**
 Where the repair ends. A repair changes nothing the inspection sees but the guards it extends, so a
 package in which every blocking if is a bare discovery guard is accepted once the loop is through.
 */
module RpcRepairEnds {
  import opened Options
  import opened GoSyntax
  import opened RpcGuards
  import opened RpcAliases
  import opened RpcSafety
  import opened RpcTarget
  import opened RpcRepair
  import opened RpcRepairRuns

  /** A repair looks for nothing, or for a discovery test whose receiver is just spelled. */
  predicate Sought(cond: Expr) {
    DiscoveryTest(cond) ==> Simple(cond.x.x)
  }

  // ---- Tables ----

  function MendAlias(a: Alias, pos: nat, cond: Expr): Alias {
    Alias(a.binding, RepairStmt(a.def, pos, cond))
  }

  /** The tables of a repaired function: the same, but for the text of the statements that define aliases. */
  function MendTables(t: Tables, pos: nat, cond: Expr): Tables {
    t.(aliases := map o | o in t.aliases :: MendAlias(t.aliases[o], pos, cond))
  }

  lemma {:induction false} UnparenKept(e: Expr, pos: nat, cond: Expr)
    ensures Unparen(RepairExpr(e, pos, cond)) == RepairExpr(Unparen(e), pos, cond)
  {
    if e.Paren? { UnparenKept(e.x, pos, cond); }
  }

  lemma {:induction false} MembersKept(t: Tables, e: Expr, pos: nat, cond: Expr)
    ensures ConfigMembers(MendTables(t, pos, cond), RepairExpr(e, pos, cond)) == ConfigMembers(t, e)
  {
    match e
    case Paren(x) => MembersKept(t, x, pos, cond);
    case Star(x) => MembersKept(t, x, pos, cond);
    case Unary(_, x) => MembersKept(t, x, pos, cond);
    case Selector(x, _) =>
      UnparenKept(x, pos, cond);
      assert RepairExpr(Unparen(x), pos, cond).Ident? <==> Unparen(x).Ident?;
    case _ =>
  }

  lemma {:induction false} ResolveKept(p: Package, q: Package, t: Tables, e: Expr, pos: nat, cond: Expr)
    requires SameTypes(p, q)
    ensures Resolve(q, MendTables(t, pos, cond), RepairExpr(e, pos, cond)) == Resolve(p, t, e)
  {
    match e
    case Paren(x) => ResolveKept(p, q, t, x, pos, cond);
    case Selector(x, _) => MembersKept(t, x, pos, cond);
    case _ =>
  }

  lemma {:induction false} PathKept(p: Package, q: Package, t: Tables, e: Expr, b: Binding, pos: nat, cond: Expr)
    requires SameTypes(p, q)
    ensures FieldPath(q, MendTables(t, pos, cond), RepairExpr(e, pos, cond), b) == FieldPath(p, t, e, b)
  {
    ResolveKept(p, q, t, e, pos, cond);
    if e.Selector? { PathKept(p, q, t, e.x, b, pos, cond); }
  }

  lemma {:induction false} CarriedKept(p: Package, q: Package, t: Tables, typ: TypeName, elts: Exprs, pos: nat,
    cond: Expr)
    requires SameTypes(p, q)
    ensures CarriedBy(q, MendTables(t, pos, cond), typ, RepairExprs(elts, pos, cond)) == CarriedBy(p, t, typ, elts)
  {
    if elts.Cons? {
      CarriedKept(p, q, t, typ, elts.tail, pos, cond);
      MembersKept(t, elts.head, pos, cond);
    }
  }

  lemma CompositeKept(p: Package, q: Package, t: Tables, e: Expr, pos: nat, cond: Expr)
    requires SameTypes(p, q)
    ensures CompositeCarrier(q, MendTables(t, pos, cond), RepairExpr(e, pos, cond)) == CompositeCarrier(p, t, e)
  {
    hide CarriedBy;
    UnparenKept(e, pos, cond);
    var bare := Unparen(e);
    if bare.Unary? { UnparenKept(bare.x, pos, cond); }
    var literal := if bare.Unary? && bare.uop.AddrOp? then Unparen(bare.x) else bare;
    if literal.Composite? { CarriedKept(p, q, t, literal.typ, literal.elts, pos, cond); }
  }

  lemma CopiedKept(t: Tables, e: Expr, pos: nat, cond: Expr)
    ensures CopiedCarrier(MendTables(t, pos, cond), RepairExpr(e, pos, cond)) == CopiedCarrier(t, e)
  {
    UnparenKept(e, pos, cond);
  }

  lemma CarrierAdded(t: Tables, o: Obj, carrier: Option<map<string, TypeName>>, pos: nat, cond: Expr)
    ensures AddCarrier(MendTables(t, pos, cond), o, carrier) == MendTables(AddCarrier(t, o, carrier), pos, cond)
  {
  }

  lemma ConfigAdded(t: Tables, o: Obj, members: Option<TypeName>, pos: nat, cond: Expr)
    ensures AddConfig(MendTables(t, pos, cond), o, members) == MendTables(AddConfig(t, o, members), pos, cond)
  {
  }

  lemma AliasAdded(t: Tables, o: Obj, s: Stmt, binding: Option<Binding>, pos: nat, cond: Expr)
    requires s.Assign?
    ensures AddAlias(MendTables(t, pos, cond), o, RepairStmt(s, pos, cond), binding) ==
      MendTables(AddAlias(t, o, s, binding), pos, cond)
  {
    AssignRepaired(s, pos, cond);
    hide RepairStmt;
    if binding.Some? && !s.kind.Plain? && o !in t.aliases { AliasMended(t, o, Alias(binding.value, s), pos, cond); }
    hide MendTables;
  }

  lemma AssignRepaired(s: Stmt, pos: nat, cond: Expr)
    requires s.Assign?
    ensures RepairStmt(s, pos, cond).Assign? && RepairStmt(s, pos, cond).kind == s.kind
  {
  }

  lemma AliasMended(t: Tables, o: Obj, a: Alias, pos: nat, cond: Expr)
    ensures MendTables(t.(aliases := t.aliases[o := a]), pos, cond) ==
      MendTables(t, pos, cond).(aliases := MendTables(t, pos, cond).aliases[o := MendAlias(a, pos, cond)])
  {
    hide MendAlias;
    assert MendTables(t.(aliases := t.aliases[o := a]), pos, cond).aliases ==
      MendTables(t, pos, cond).aliases[o := MendAlias(a, pos, cond)];
  }

  lemma StepKept(p: Package, q: Package, t: Tables, s: Stmt, pos: nat, cond: Expr)
    requires SameTypes(p, q)
    ensures Step(q, MendTables(t, pos, cond), RepairStmt(s, pos, cond)) == MendTables(Step(p, t, s), pos, cond)
  {
    hide CompositeCarrier, CopiedCarrier, ConfigMembers, Resolve, RepairExpr, MendTables, AddCarrier, AddConfig,
      AddAlias;
    if s.Assign? && s.lhs.Ident? && s.lhs.obj.Some? {
      IdentKept(s.lhs, pos, cond);
      var o := s.lhs.obj.value;
      CompositeKept(p, q, t, s.rhs, pos, cond);
      CarrierAdded(t, o, CompositeCarrier(p, t, s.rhs), pos, cond);
      var t1 := AddCarrier(t, o, CompositeCarrier(p, t, s.rhs));
      CopiedKept(t1, s.rhs, pos, cond);
      CarrierAdded(t1, o, CopiedCarrier(t1, s.rhs), pos, cond);
      var t2 := AddCarrier(t1, o, CopiedCarrier(t1, s.rhs));
      MembersKept(t2, s.rhs, pos, cond);
      ConfigAdded(t2, o, ConfigMembers(t2, s.rhs), pos, cond);
      var t3 := AddConfig(t2, o, ConfigMembers(t2, s.rhs));
      ResolveKept(p, q, t3, s.rhs, pos, cond);
      AliasAdded(t3, o, s, Resolve(p, t3, s.rhs), pos, cond);
    } else if s.Assign? {
      OtherKept(s.lhs, pos, cond);
    }
  }

  lemma IdentKept(e: Expr, pos: nat, cond: Expr)
    requires e.Ident?
    ensures RepairExpr(e, pos, cond) == e
  {
  }

  lemma OtherKept(e: Expr, pos: nat, cond: Expr)
    requires !e.Ident? || e.obj.None?
    ensures var d := RepairExpr(e, pos, cond); !d.Ident? || d.obj.None?
  {
  }

  function MendStmts(stmts: seq<Stmt>, pos: nat, cond: Expr): seq<Stmt> {
    seq(|stmts|, i requires 0 <= i < |stmts| => RepairStmt(stmts[i], pos, cond))
  }

  lemma MendStmtsBoth(a: seq<Stmt>, b: seq<Stmt>, pos: nat, cond: Expr)
    ensures MendStmts(a + b, pos, cond) == MendStmts(a, pos, cond) + MendStmts(b, pos, cond)
  {
  }

  lemma {:induction false} PassKept(p: Package, q: Package, t: Tables, stmts: seq<Stmt>, pos: nat, cond: Expr)
    requires SameTypes(p, q)
    ensures Pass(q, MendTables(t, pos, cond), MendStmts(stmts, pos, cond)) == MendTables(Pass(p, t, stmts), pos, cond)
    decreases |stmts|
  {
    hide Step;
    if stmts != [] {
      StepKept(p, q, t, stmts[0], pos, cond);
      PassKept(p, q, Step(p, t, stmts[0]), stmts[1..], pos, cond);
      assert MendStmts(stmts, pos, cond)[1..] == MendStmts(stmts[1..], pos, cond);
    }
  }

  lemma {:induction false} FixpointKept(p: Package, q: Package, t: Tables, stmts: seq<Stmt>, pos: nat, cond: Expr)
    requires SameTypes(p, q)
    ensures Fixpoint(q, MendTables(t, pos, cond), MendStmts(stmts, pos, cond)) ==
      MendTables(Fixpoint(p, t, stmts), pos, cond)
    decreases Missing(t, Objects(stmts))
  {
    hide Pass;
    PassKept(p, q, t, stmts, pos, cond);
    PassGrows(p, t, stmts);
    var next := Pass(p, t, stmts);
    if MendTables(next, pos, cond) == MendTables(t, pos, cond) { SameMended(t, next, pos, cond); }
    if next != t {
      PassProgress(p, t, stmts);
      FixpointKept(p, q, next, stmts, pos, cond);
    }
  }

  lemma SameMended(t: Tables, u: Tables, pos: nat, cond: Expr)
    requires Grows(t, u) && MendTables(u, pos, cond) == MendTables(t, pos, cond)
    ensures u == t
  {
    assert u.aliases.Keys == MendTables(u, pos, cond).aliases.Keys == t.aliases.Keys;
    GrowsBothWays(t, u);
  }

  // ---- Assignments ----

  lemma {:induction false} SimpleAssignsNothing(e: Expr)
    requires Simple(e)
    ensures AssignsIn(e) == []
  {
    match e
    case Paren(x) => SimpleAssignsNothing(x);
    case Star(x) => SimpleAssignsNothing(x);
    case Unary(_, x) => SimpleAssignsNothing(x);
    case Selector(x, _) => SimpleAssignsNothing(x);
    case _ =>
  }

  lemma GuardAssignsNothing(cond: Expr)
    requires DiscoveryTest(cond) && Simple(cond.x.x)
    ensures AssignsIn(cond) == [] && AssignsIn(Extend(cond)) == []
  {
    SimpleAssignsNothing(cond.x.x);
    assert AssignsIn(cond) == AssignsIn(cond.x) + AssignsIn(cond.y);
    var target := Extend(cond).y;
    assert AssignsIn(target) == AssignsIn(target.x) + AssignsIn(target.y);
  }

  lemma {:induction false} AssignsKept(s: Stmt, pos: nat, cond: Expr)
    requires Sought(cond)
    ensures AssignsOf(RepairStmt(s, pos, cond)) == MendStmts(AssignsOf(s), pos, cond)
    decreases s
  {
    hide Sought;
    match s
    case Skip =>
    case Seq(a, b) =>
      AssignsKept(a, pos, cond);
      AssignsKept(b, pos, cond);
      MendStmtsBoth(AssignsOf(a), AssignsOf(b), pos, cond);
    case Assign(_, _, lhs, rhs) =>
      AssignsKeptIn(lhs, pos, cond);
      AssignsKeptIn(rhs, pos, cond);
      MendStmtsBoth([s] + AssignsIn(lhs), AssignsIn(rhs), pos, cond);
      MendStmtsBoth([s], AssignsIn(lhs), pos, cond);
      assert MendStmts([s], pos, cond) == [RepairStmt(s, pos, cond)];
    case ExprStmt(e) => AssignsKeptIn(e, pos, cond);
    case IncDec(e) =>
      AssignsKeptIn(e, pos, cond);
      MendStmtsBoth([s], AssignsIn(e), pos, cond);
      assert MendStmts([s], pos, cond) == [RepairStmt(s, pos, cond)];
    case Return(e) => AssignsKeptIn(e, pos, cond);
    case If(_, init, c, body, els) => AssignsKeptIf(s, pos, cond);
    case For(c, body) =>
      AssignsKeptIn(c, pos, cond);
      AssignsKept(body, pos, cond);
      MendStmtsBoth(AssignsIn(c), AssignsOf(body), pos, cond);
  }

  lemma {:induction false} AssignsKeptIf(s: Stmt, pos: nat, cond: Expr)
    requires s.If? && Sought(cond)
    ensures AssignsOf(RepairStmt(s, pos, cond)) == MendStmts(AssignsOf(s), pos, cond)
    decreases s, 0
  {
    AssignsKept(s.init, pos, cond);
    AssignsKeptIn(s.cond, pos, cond);
    AssignsKept(s.body, pos, cond);
    AssignsKept(s.els, pos, cond);
    hide MendStmts;
    var a, b, c := AssignsOf(s.init), AssignsIn(s.cond), AssignsOf(s.body);
    MendStmtsBoth(a, b, pos, cond);
    MendStmtsBoth(a + b, c, pos, cond);
    MendStmtsBoth(a + b + c, AssignsOf(s.els), pos, cond);
    if IsGuard(s, pos, cond) {
      GuardAssignsNothing(cond);
      assert MendStmts([], pos, cond) == [] by { NothingMended(pos, cond); }
    }
  }

  lemma NothingMended(pos: nat, cond: Expr)
    ensures MendStmts([], pos, cond) == []
  {
  }

  lemma {:induction false} AssignsKeptIn(e: Expr, pos: nat, cond: Expr)
    requires Sought(cond)
    ensures AssignsIn(RepairExpr(e, pos, cond)) == MendStmts(AssignsIn(e), pos, cond)
    decreases e
  {
    hide Sought;
    match e
    case Ident(_, _) =>
    case StringLit(_, _) =>
    case IntLit(_) =>
    case Paren(x) => AssignsKeptIn(x, pos, cond);
    case Star(x) => AssignsKeptIn(x, pos, cond);
    case Unary(_, x) => AssignsKeptIn(x, pos, cond);
    case Selector(x, _) => AssignsKeptIn(x, pos, cond);
    case Binary(_, x, y) =>
      AssignsKeptIn(x, pos, cond);
      AssignsKeptIn(y, pos, cond);
      MendStmtsBoth(AssignsIn(x), AssignsIn(y), pos, cond);
    case Call(fun, args) =>
      AssignsKeptIn(fun, pos, cond);
      AssignsKeptInAll(args, pos, cond);
      MendStmtsBoth(AssignsIn(fun), AssignsInAll(args), pos, cond);
    case Composite(_, elts) => AssignsKeptInAll(elts, pos, cond);
    case FuncLit(body) => AssignsKept(body, pos, cond);
    case Other(parts) => AssignsKeptInAll(parts, pos, cond);
  }

  lemma {:induction false} AssignsKeptInAll(es: Exprs, pos: nat, cond: Expr)
    requires Sought(cond)
    ensures AssignsInAll(RepairExprs(es, pos, cond)) == MendStmts(AssignsInAll(es), pos, cond)
    decreases es
  {
    if es.Cons? {
      AssignsKeptIn(es.head, pos, cond);
      AssignsKeptInAll(es.tail, pos, cond);
      MendStmtsBoth(AssignsIn(es.head), AssignsInAll(es.tail), pos, cond);
    }
  }

  /** The tables of a repaired function. */
  lemma TablesKept(p: Package, q: Package, fn: Function, pos: nat, cond: Expr)
    requires SameTypes(p, q) && Sought(cond)
    ensures TablesOf(q, fn.(body := RepairStmt(fn.body, pos, cond))) == MendTables(TablesOf(p, fn), pos, cond)
  {
    hide Fixpoint;
    AssignsKept(fn.body, pos, cond);
    ParamsKept(p, q, fn.params);
    assert MendTables(Initial(p, fn), pos, cond) == Initial(p, fn);
    FixpointKept(p, q, Initial(p, fn), AssignsOf(fn.body), pos, cond);
  }

  lemma {:induction false} ParamsKept(p: Package, q: Package, params: seq<Param>)
    requires SameTypes(p, q)
    ensures ParamConfigs(q, params) == ParamConfigs(p, params)
    decreases |params|
  {
    if params != [] {
      ParamsKept(p, q, params[1..]);
      assert q.IsConfigType(params[0].typ) <==> p.IsConfigType(params[0].typ);
    }
  }

  // ---- Verdicts ----

  lemma {:induction false} EvaluateKept(e: Expr, before: Lookup, after: Lookup, builtinLen: bool, pos: nat, cond: Expr)
    requires forall x :: after(RepairExpr(x, pos, cond)) == before(x)
    ensures Evaluate(RepairExpr(e, pos, cond), after, builtinLen) == Evaluate(e, before, builtinLen)
    decreases e
  {
    assert after(RepairExpr(e, pos, cond)) == before(e);
    match e
    case Paren(x) => EvaluateKept(x, before, after, builtinLen, pos, cond);
    case Unary(_, x) => EvaluateKept(x, before, after, builtinLen, pos, cond);
    case Binary(_, x, y) =>
      EvaluateKept(x, before, after, builtinLen, pos, cond);
      EvaluateKept(y, before, after, builtinLen, pos, cond);
    case Call(fun, args) => CallKept(e, before, after, builtinLen, pos, cond);
    case _ =>
  }

  lemma CallKept(e: Expr, before: Lookup, after: Lookup, builtinLen: bool, pos: nat, cond: Expr)
    requires e.Call? && forall x :: after(RepairExpr(x, pos, cond)) == before(x)
    ensures Evaluate(RepairExpr(e, pos, cond), after, builtinLen) == Evaluate(e, before, builtinLen)
  {
    var d := RepairExpr(e, pos, cond);
    assert after(d) == before(e);
    assert d == Call(RepairExpr(e.fun, pos, cond), RepairExprs(e.args, pos, cond));
    assert d.fun.Ident? <==> e.fun.Ident?;
    if e.args.Cons? {
      assert d.args == Cons(e.args.key, RepairExpr(e.args.head, pos, cond), RepairExprs(e.args.tail, pos, cond));
      assert after(d.args.head) == before(e.args.head);
    }
  }

  lemma {:induction false} SelectorKept(e: Expr, root: Obj, pos: nat, cond: Expr)
    ensures SelectorPath(RepairExpr(e, pos, cond), root) == SelectorPath(e, root)
  {
    if e.Selector? { SelectorKept(e.x, root, pos, cond); }
  }

  lemma HelperTargetKept(p: Package, q: Package, x: Repair, fn: Function)
    requires SameTypes(p, q)
    ensures HelperTarget(q, MendFunction(x, fn)) == HelperTarget(p, fn)
  {
    HelperKept(x, fn);
    if IsPredicateHelper(fn) {
      var o := fn.params[0].obj;
      var lookup := (e: Expr) => FieldVerdict(TargetOnly, SelectorPath(e, o));
      forall e ensures lookup(RepairExpr(e, x.pos, CondIn(x, fn))) == lookup(e) {
        SelectorKept(e, o, x.pos, CondIn(x, fn));
      }
      EvaluateKept(fn.body.e, lookup, lookup, !p.ShadowsLen(), x.pos, CondIn(x, fn));
      assert HelperVerdict(p, fn, TargetOnly) == Evaluate(fn.body.e, lookup, !p.ShadowsLen());
      assert MendFunction(x, fn).body == Return(RepairExpr(fn.body.e, x.pos, CondIn(x, fn)));
      assert HelperVerdict(q, MendFunction(x, fn), TargetOnly) ==
        Evaluate(RepairExpr(fn.body.e, x.pos, CondIn(x, fn)), lookup, !p.ShadowsLen());
    }
  }

  lemma LookupKept(p: Package, x: Repair, t: Tables, b: Binding, e: Expr, pos: nat, cond: Expr)
    requires Named(p)
    ensures TargetLookup(Mend(x, p), MendTables(t, pos, cond), b)(RepairExpr(e, pos, cond)) ==
      TargetLookup(p, t, b)(e)
  {
    hide Resolve, FieldPath, HelperTarget, HelperOn, RepairExpr, MendTables, Mend, MendFunction, FieldVerdict;
    var q := Mend(x, p);
    MendTypes(p, x);
    PathKept(p, q, t, e, b, pos, cond);
    HelperOnKept(p, x, t, b, e, pos, cond);
    if HelperOn(p, t, e, b).Some? { HelperTargetKept(p, q, x, HelperOn(p, t, e, b).value); }
  }

  lemma MendTypes(p: Package, x: Repair)
    ensures SameTypes(p, Mend(x, p))
  {
  }

  lemma HelperOnKept(p: Package, x: Repair, t: Tables, b: Binding, e: Expr, pos: nat, cond: Expr)
    requires Named(p)
    ensures var before := HelperOn(p, t, e, b);
      HelperOn(Mend(x, p), MendTables(t, pos, cond), RepairExpr(e, pos, cond), b) ==
        if before.Some? then Some(MendFunction(x, before.value)) else None
  {
    hide Resolve, MendTables, ConfigMembers;
    MendTypes(p, x);
    var q, d := Mend(x, p), RepairExpr(e, pos, cond);
    if e.Call? {
      assert d == Call(RepairExpr(e.fun, pos, cond), RepairExprs(e.args, pos, cond));
      assert d.fun.Ident? <==> e.fun.Ident?;
      if e.args.Cons? {
        assert d.args == Cons(e.args.key, RepairExpr(e.args.head, pos, cond), RepairExprs(e.args.tail, pos, cond));
        ResolveKept(p, q, t, e.args.head, pos, cond);
      }
    }
  }

  lemma VerdictKept(p: Package, x: Repair, t: Tables, b: Binding, c: Expr, pos: nat, cond: Expr)
    requires Named(p)
    ensures TargetVerdict(Mend(x, p), MendTables(t, pos, cond), RepairExpr(c, pos, cond), b) ==
      TargetVerdict(p, t, c, b)
  {
    hide TargetLookup;
    var q := Mend(x, p);
    forall e
      ensures TargetLookup(q, MendTables(t, pos, cond), b)(RepairExpr(e, pos, cond)) == TargetLookup(p, t, b)(e)
    {
      LookupKept(p, x, t, b, e, pos, cond);
    }
    EvaluateKept(c, TargetLookup(p, t, b), TargetLookup(q, MendTables(t, pos, cond), b), !p.ShadowsLen(), pos, cond);
  }

  // ---- Sites ----

  function MendBranch(g: Branch, pos: nat, cond: Expr): Branch {
    g.(cond := if g.bare && g.pos == pos && g.cond == cond && DiscoveryTest(cond) then Extend(cond)
               else RepairExpr(g.cond, pos, cond))
  }

  function MendBranches(gs: seq<Branch>, pos: nat, cond: Expr): seq<Branch> {
    seq(|gs|, i requires 0 <= i < |gs| => MendBranch(gs[i], pos, cond))
  }

  function MendSite(site: Site, pos: nat, cond: Expr): Site {
    Site(RepairExprs(site.args, pos, cond), MendBranches(site.branches, pos, cond))
  }

  function MendSites(sites: seq<Site>, pos: nat, cond: Expr): seq<Site> {
    seq(|sites|, i requires 0 <= i < |sites| => MendSite(sites[i], pos, cond))
  }

  lemma MendSitesBoth(a: seq<Site>, b: seq<Site>, pos: nat, cond: Expr)
    ensures MendSites(a + b, pos, cond) == MendSites(a, pos, cond) + MendSites(b, pos, cond)
  {
  }

  lemma InnerBranch(g: Branch, gs: seq<Branch>, pos: nat, cond: Expr)
    ensures MendBranches([g] + gs, pos, cond) == [MendBranch(g, pos, cond)] + MendBranches(gs, pos, cond)
  {
  }

  lemma {:induction false} SimpleHasNoSites(e: Expr, inCond: bool, gs: seq<Branch>)
    requires Simple(e)
    ensures SitesIn(e, inCond, gs) == []
  {
    match e
    case Paren(x) => SimpleHasNoSites(x, inCond, gs);
    case Star(x) => SimpleHasNoSites(x, inCond, gs);
    case Unary(_, x) => SimpleHasNoSites(x, inCond, gs);
    case Selector(x, _) => SimpleHasNoSites(x, inCond, gs);
    case _ =>
  }

  lemma GuardHasNoSites(cond: Expr, inCond: bool, gs: seq<Branch>)
    requires DiscoveryTest(cond) && Simple(cond.x.x)
    ensures SitesIn(cond, inCond, gs) == [] && SitesIn(Extend(cond), inCond, gs) == []
  {
    SimpleHasNoSites(cond.x.x, inCond, gs);
    assert SitesIn(cond, inCond, gs) == SitesIn(cond.x, inCond, gs) + SitesIn(cond.y, inCond, gs);
    var target := Extend(cond).y;
    assert SitesIn(target, inCond, gs) == SitesIn(target.x, inCond, gs) + SitesIn(target.y, inCond, gs);
  }

  lemma {:induction false} SitesKeptIn(e: Expr, inCond: bool, gs: seq<Branch>, pos: nat, cond: Expr)
    requires Sought(cond)
    ensures SitesIn(RepairExpr(e, pos, cond), inCond, MendBranches(gs, pos, cond)) ==
      MendSites(SitesIn(e, inCond, gs), pos, cond)
    decreases e
  {
    hide Sought, MendBranches, MendSites;
    NoSitesMended(pos, cond);
    match e
    case Ident(_, _) =>
    case StringLit(_, _) =>
    case IntLit(_) =>
    case Paren(x) => SitesKeptIn(x, inCond, gs, pos, cond);
    case Star(x) => SitesKeptIn(x, inCond, gs, pos, cond);
    case Unary(_, x) => SitesKeptIn(x, inCond, gs, pos, cond);
    case Selector(x, _) => SitesKeptIn(x, inCond, gs, pos, cond);
    case Binary(_, x, y) =>
      SitesKeptIn(x, inCond, gs, pos, cond);
      SitesKeptIn(y, inCond, gs, pos, cond);
      MendSitesBoth(SitesIn(x, inCond, gs), SitesIn(y, inCond, gs), pos, cond);
    case Call(fun, args) =>
      SitesKeptIn(fun, inCond, gs, pos, cond);
      SitesKeptInAll(args, inCond, gs, pos, cond);
      CallSitesKept(e, inCond, gs, pos, cond);
    case Composite(_, elts) => SitesKeptInAll(elts, inCond, gs, pos, cond);
    case FuncLit(body) => SitesKept(body, false, gs, pos, cond);
    case Other(parts) => SitesKeptInAll(parts, inCond, gs, pos, cond);
  }

  lemma NoSitesMended(pos: nat, cond: Expr)
    ensures MendSites([], pos, cond) == []
  {
  }

  lemma CallSitesKept(e: Expr, inCond: bool, gs: seq<Branch>, pos: nat, cond: Expr)
    requires e.Call?
    requires SitesIn(RepairExpr(e.fun, pos, cond), inCond, MendBranches(gs, pos, cond)) ==
      MendSites(SitesIn(e.fun, inCond, gs), pos, cond)
    requires SitesInAll(RepairExprs(e.args, pos, cond), inCond, MendBranches(gs, pos, cond)) ==
      MendSites(SitesInAll(e.args, inCond, gs), pos, cond)
    ensures SitesIn(RepairExpr(e, pos, cond), inCond, MendBranches(gs, pos, cond)) ==
      MendSites(SitesIn(e, inCond, gs), pos, cond)
  {
    hide MendBranches, RepairExprs, SitesInAll, SitesIn, MendSites, RepairExpr;
    var own := if inCond then [] else [Site(e.args, gs)];
    CallRepaired(e, pos, cond);
    CallSites(e, inCond, gs);
    CallSites(RepairExpr(e, pos, cond), inCond, MendBranches(gs, pos, cond));
    OwnMended(e.args, inCond, gs, pos, cond);
    MendSitesBoth(own + SitesIn(e.fun, inCond, gs), SitesInAll(e.args, inCond, gs), pos, cond);
    MendSitesBoth(own, SitesIn(e.fun, inCond, gs), pos, cond);
  }

  lemma CallRepaired(e: Expr, pos: nat, cond: Expr)
    requires e.Call?
    ensures RepairExpr(e, pos, cond) == Call(RepairExpr(e.fun, pos, cond), RepairExprs(e.args, pos, cond))
  {
  }

  lemma CallSites(e: Expr, inCond: bool, gs: seq<Branch>)
    requires e.Call?
    ensures SitesIn(e, inCond, gs) ==
      (if inCond then [] else [Site(e.args, gs)]) + SitesIn(e.fun, inCond, gs) + SitesInAll(e.args, inCond, gs)
  {
  }

  lemma OwnMended(args: Exprs, inCond: bool, gs: seq<Branch>, pos: nat, cond: Expr)
    ensures MendSites(if inCond then [] else [Site(args, gs)], pos, cond) ==
      if inCond then [] else [Site(RepairExprs(args, pos, cond), MendBranches(gs, pos, cond))]
  {
    hide RepairExprs, MendBranches;
  }

  lemma {:induction false} SitesKeptInAll(es: Exprs, inCond: bool, gs: seq<Branch>, pos: nat, cond: Expr)
    requires Sought(cond)
    ensures SitesInAll(RepairExprs(es, pos, cond), inCond, MendBranches(gs, pos, cond)) ==
      MendSites(SitesInAll(es, inCond, gs), pos, cond)
    decreases es
  {
    hide Sought, MendBranches;
    if es.Cons? {
      SitesKeptIn(es.head, inCond, gs, pos, cond);
      SitesKeptInAll(es.tail, inCond, gs, pos, cond);
      MendSitesBoth(SitesIn(es.head, inCond, gs), SitesInAll(es.tail, inCond, gs), pos, cond);
    }
  }

  /** The call sites of a repaired statement, with the ifs around them as the repair leaves them. */
  lemma {:induction false} SitesKept(s: Stmt, inCond: bool, gs: seq<Branch>, pos: nat, cond: Expr)
    requires Sought(cond)
    ensures Sites(RepairStmt(s, pos, cond), inCond, MendBranches(gs, pos, cond)) ==
      MendSites(Sites(s, inCond, gs), pos, cond)
    decreases s, 1
  {
    hide Sought, MendBranches;
    match s
    case Skip =>
    case Seq(a, b) =>
      SitesKept(a, inCond, gs, pos, cond);
      SitesKept(b, inCond, gs, pos, cond);
      MendSitesBoth(Sites(a, inCond, gs), Sites(b, inCond, gs), pos, cond);
    case Assign(_, _, lhs, rhs) =>
      SitesKeptIn(lhs, inCond, gs, pos, cond);
      SitesKeptIn(rhs, inCond, gs, pos, cond);
      MendSitesBoth(SitesIn(lhs, inCond, gs), SitesIn(rhs, inCond, gs), pos, cond);
    case ExprStmt(e) => SitesKeptIn(e, inCond, gs, pos, cond);
    case IncDec(e) => SitesKeptIn(e, inCond, gs, pos, cond);
    case Return(e) => SitesKeptIn(e, inCond, gs, pos, cond);
    case If(_, _, _, _, _) => SitesKeptIf(s, inCond, gs, pos, cond);
    case For(c, body) =>
      SitesKeptIn(c, inCond, gs, pos, cond);
      SitesKept(body, inCond, gs, pos, cond);
      MendSitesBoth(SitesIn(c, inCond, gs), Sites(body, inCond, gs), pos, cond);
  }

  lemma SidesKept(s: Stmt, pos: nat, cond: Expr)
    requires s.If?
    ensures var d := RepairStmt(s, pos, cond);
      d.If? && Then(d) == MendBranch(Then(s), pos, cond) && Else(d) == MendBranch(Else(s), pos, cond)
      && d.init == RepairStmt(s.init, pos, cond) && d.body == RepairStmt(s.body, pos, cond)
      && d.els == RepairStmt(s.els, pos, cond)
      && d.cond == if IsGuard(s, pos, cond) then Extend(cond) else RepairExpr(s.cond, pos, cond)
  {
  }

  lemma {:induction false} SitesKeptIf(s: Stmt, inCond: bool, gs: seq<Branch>, pos: nat, cond: Expr)
    requires s.If? && Sought(cond)
    ensures Sites(RepairStmt(s, pos, cond), inCond, MendBranches(gs, pos, cond)) ==
      MendSites(Sites(s, inCond, gs), pos, cond)
    decreases s, 0
  {
    SidesKept(s, pos, cond);
    SitesKept(s.init, inCond, gs, pos, cond);
    SitesKeptIn(s.cond, true, gs, pos, cond);
    SitesKept(s.body, inCond, [Then(s)] + gs, pos, cond);
    SitesKept(s.els, inCond, [Else(s)] + gs, pos, cond);
    InnerBranch(Then(s), gs, pos, cond);
    InnerBranch(Else(s), gs, pos, cond);
    var d, hs := RepairStmt(s, pos, cond), MendBranches(gs, pos, cond);
    if IsGuard(s, pos, cond) {
      GuardHasNoSites(cond, true, gs);
      GuardHasNoSites(cond, true, hs);
      assert MendSites([], pos, cond) == [];
    }
    hide MendSites, MendBranches, RepairStmt, RepairExpr, Then, Else;
    var s1, s2 := Sites(s.init, inCond, gs), SitesIn(s.cond, true, gs);
    var s3, s4 := Sites(s.body, inCond, [Then(s)] + gs), Sites(s.els, inCond, [Else(s)] + gs);
    MendSitesBoth(s1, s2, pos, cond);
    MendSitesBoth(s1 + s2, s3, pos, cond);
    MendSitesBoth(s1 + s2 + s3, s4, pos, cond);
    assert Sites(d, inCond, hs) == Sites(d.init, inCond, hs) + SitesIn(d.cond, true, hs)
      + Sites(d.body, inCond, [Then(d)] + hs) + Sites(d.els, inCond, [Else(d)] + hs);
  }

  lemma {:induction false} ArgumentsKept(es: Exprs, pos: nat, cond: Expr)
    ensures |Arguments(RepairExprs(es, pos, cond))| == |Arguments(es)|
    ensures forall i | 0 <= i < |Arguments(es)| ::
      Arguments(RepairExprs(es, pos, cond))[i] == RepairExpr(Arguments(es)[i], pos, cond)
  {
    if es.Cons? { ArgumentsKept(es.tail, pos, cond); }
  }

  // ---- The extended guard passes ----

  lemma {:induction false} MembersHaveNoPath(p: Package, t: Tables, e: Expr, b: Binding)
    requires TypedTables(p, t) && ConfigMembers(t, e).Some?
    ensures FieldPath(p, t, e, b).None?
  {
    assert Resolve(p, t, e).None? by { if Resolve(p, t, e).Some? { ResolvedTyped(p, t, e); } }
    if e.Selector? {
      var o := Unparen(e.x).obj.value;
      assert TypedCarrier(p, o, e.sel, t.carriers[o][e.sel]);
      VariableHasNoPath(p, t, e.x, b);
    }
  }

  lemma {:induction false} VariableHasNoPath(p: Package, t: Tables, e: Expr, b: Binding)
    requires Unparen(e).Ident? && (Unparen(e).obj.Some? ==> Unparen(e).obj.value !in t.aliases)
    ensures Resolve(p, t, e).None? && FieldPath(p, t, e, b).None?
  {
    if e.Paren? { VariableHasNoPath(p, t, e.x, b); }
  }

  /** A field of one binding is no field of another. */
  lemma OtherBinding(p: Package, t: Tables, receiver: Expr, f: string, c: Binding, b: Binding)
    requires TypedTables(p, t) && Resolve(p, t, receiver) == Some(c) && b != c
    ensures FieldPath(p, t, Selector(receiver, f), b).None?
  {
    ResolvedTyped(p, t, receiver);
    if receiver.Selector? { MembersHaveNoPath(p, t, receiver.x, b); }
  }

  lemma ExtendedPasses(p: Package, t: Tables, cond: Expr, c: Binding, g: Branch, b: Binding)
    requires TypedTables(p, t) && DiscoveryTest(cond) && Resolve(p, t, cond.x.x) == Some(c)
    requires g.cond == Extend(cond) && g.taken
    ensures Passes(p, t, g, b)
  {
    hide TargetLookup, Evaluate, TypedTables;
    if b == c {
      OnTarget(p, t, cond, b);
    } else {
      var x := cond.x.x;
      OtherBinding(p, t, x, "DiscovType", c, b);
      OtherBinding(p, t, x, "Target", c, b);
      NoFieldHere(p, t, x, "DiscovType", b);
      NoFieldHere(p, t, x, "Target", b);
      ExtendEvaluates(cond, TargetLookup(p, t, b), !p.ShadowsLen());
      assert cond == Binary(NeqOp, Selector(x, "DiscovType"), StringLit("", true));
      TestEvaluates(cond.x, TargetLookup(p, t, b), !p.ShadowsLen());
      TestEvaluates(Extend(cond).y.x, TargetLookup(p, t, b), !p.ShadowsLen());
    }
  }

  lemma NoFieldHere(p: Package, t: Tables, x: Expr, f: string, b: Binding)
    requires FieldPath(p, t, Selector(x, f), b).None?
    ensures TargetLookup(p, t, b)(Selector(x, f)) == (Unknown, false)
  {
    hide FieldPath;
  }

  // ---- Blocking ifs stay mendable ----

  /** Every if that blocks a construction is a bare discovery guard of the binding that is passed on. */
  ghost predicate OnlyMendable(p: Package, t: Tables, sites: seq<Site>) {
    forall site, a, g, b | site in sites && a in Arguments(site.args) && g in site.branches
      && Resolve(p, t, a) == Some(b) ::
      Fine(p, t, g, b)
  }

  ghost predicate Fine(p: Package, t: Tables, g: Branch, b: Binding) {
    Passes(p, t, g, b) || Mendable(p, t, g, b)
  }

  /** The branch as the repair leaves it passes or is mendable just when it was before. */
  lemma FineKept(p: Package, x: Repair, t: Tables, g: Branch, c: Binding, b: Binding, pos: nat, cond: Expr)
    requires Named(p) && TypedTables(p, t) && (g.bare ==> g.taken) && Sought(cond)
    requires DiscoveryTest(cond) ==> Resolve(p, t, cond.x.x) == Some(c)
    ensures Fine(Mend(x, p), MendTables(t, pos, cond), MendBranch(g, pos, cond), b) <==> Fine(p, t, g, b)
  {
    hide TargetVerdict, Resolve, Mend, MendTables;
    var q, u, h := Mend(x, p), MendTables(t, pos, cond), MendBranch(g, pos, cond);
    assert SameTypes(p, q) by { MendTypes(p, x); }
    if g.bare && g.pos == pos && g.cond == cond && DiscoveryTest(cond) {
      SimpleUntouched(cond.x.x, pos, cond);
      ResolveKept(p, q, t, cond.x.x, pos, cond);
      MendedTyped(p, q, t, pos, cond);
      ExtendedPasses(q, u, cond, c, h, b);
      GuardFine(p, t, g, c, b);
    } else {
      VerdictKept(p, x, t, b, g.cond, pos, cond);
      StillMendable(p, q, t, g, b, pos, cond);
    }
  }

  /** A bare discovery guard of some binding blocks no other one. */
  lemma GuardFine(p: Package, t: Tables, g: Branch, c: Binding, b: Binding)
    requires TypedTables(p, t) && g.bare && DiscoveryTest(g.cond) && Resolve(p, t, g.cond.x.x) == Some(c)
    ensures Fine(p, t, g, b)
  {
    hide TargetLookup, Evaluate, TypedTables, Resolve;
    var x := g.cond.x.x;
    assert g.cond == Binary(NeqOp, Selector(x, "DiscovType"), StringLit("", true));
    if b != c {
      OtherBinding(p, t, x, "DiscovType", c, b);
      NoFieldHere(p, t, x, "DiscovType", b);
      TestEvaluates(g.cond.x, TargetLookup(p, t, b), !p.ShadowsLen());
    }
  }

  lemma StillMendable(p: Package, q: Package, t: Tables, g: Branch, b: Binding, pos: nat, cond: Expr)
    requires SameTypes(p, q)
    ensures Mendable(q, MendTables(t, pos, cond), g.(cond := RepairExpr(g.cond, pos, cond)), b) <==>
      Mendable(p, t, g, b)
  {
    hide Resolve, MendTables;
    var h := g.(cond := RepairExpr(g.cond, pos, cond));
    if Mendable(p, t, g, b) {
      var y :| g.cond == Binary(NeqOp, Selector(y, "DiscovType"), StringLit("", true)) && Resolve(p, t, y) == Some(b);
      ResolveKept(p, q, t, y, pos, cond);
      TestRepaired(y, pos, cond);
    }
    if Mendable(q, MendTables(t, pos, cond), h, b) {
      var y :| h.cond == Binary(NeqOp, Selector(y, "DiscovType"), StringLit("", true))
        && Resolve(q, MendTables(t, pos, cond), y) == Some(b);
      WasTest(g.cond, y, pos, cond);
      assert g.cond == Binary(NeqOp, Selector(g.cond.x.x, "DiscovType"), StringLit("", true));
      ResolveKept(p, q, t, g.cond.x.x, pos, cond);
      TestRepaired(g.cond.x.x, pos, cond);
    }
  }

  lemma WasTest(e: Expr, y: Expr, pos: nat, cond: Expr)
    requires RepairExpr(e, pos, cond) == Binary(NeqOp, Selector(y, "DiscovType"), StringLit("", true))
    ensures DiscoveryTest(e) && RepairExpr(e.x.x, pos, cond) == y
  {
    SameKind(e, pos, cond);
    SameKind(e.x, pos, cond);
    SameKind(e.y, pos, cond);
  }

  lemma TestRepaired(y: Expr, pos: nat, cond: Expr)
    ensures RepairExpr(Binary(NeqOp, Selector(y, "DiscovType"), StringLit("", true)), pos, cond) ==
      Binary(NeqOp, Selector(RepairExpr(y, pos, cond), "DiscovType"), StringLit("", true))
  {
    assert RepairExpr(Selector(y, "DiscovType"), pos, cond) == Selector(RepairExpr(y, pos, cond), "DiscovType");
    assert RepairExpr(StringLit("", true), pos, cond) == StringLit("", true);
  }

  lemma MendedTyped(p: Package, q: Package, t: Tables, pos: nat, cond: Expr)
    requires SameTypes(p, q) && TypedTables(p, t)
    ensures TypedTables(q, MendTables(t, pos, cond))
  {
    forall o, f | o in t.carriers && f in t.carriers[o] ensures TypedCarrier(q, o, f, t.carriers[o][f]) {
      assert TypedCarrier(p, o, f, t.carriers[o][f]);
    }
  }

  lemma SitesStayFine(p: Package, x: Repair, t: Tables, sites: seq<Site>, ifs: seq<Stmt>, c: Binding, pos: nat,
    cond: Expr)
    requires Named(p) && TypedTables(p, t) && Sought(cond) && FromIfs(sites, ifs, [])
    requires DiscoveryTest(cond) ==> Resolve(p, t, cond.x.x) == Some(c)
    ensures OnlyMendable(Mend(x, p), MendTables(t, pos, cond), MendSites(sites, pos, cond)) <==>
      OnlyMendable(p, t, sites)
  {
    hide Fine, Resolve, Mend, MendTables, TypedTables, Sought, FromIfs, OnlyMendable;
    if OnlyMendable(p, t, sites) { FineAfter(p, x, t, sites, ifs, c, pos, cond); }
    if OnlyMendable(Mend(x, p), MendTables(t, pos, cond), MendSites(sites, pos, cond)) {
      FineBefore(p, x, t, sites, ifs, c, pos, cond);
    }
  }

  lemma FineAfter(p: Package, x: Repair, t: Tables, sites: seq<Site>, ifs: seq<Stmt>, c: Binding, pos: nat, cond: Expr)
    requires Named(p) && TypedTables(p, t) && Sought(cond) && FromIfs(sites, ifs, [])
    requires DiscoveryTest(cond) ==> Resolve(p, t, cond.x.x) == Some(c)
    requires OnlyMendable(p, t, sites)
    ensures OnlyMendable(Mend(x, p), MendTables(t, pos, cond), MendSites(sites, pos, cond))
  {
    hide Fine, Resolve, Mend, MendTables, TypedTables, Sought, FromIfs, SideOf;
    var q, u, after := Mend(x, p), MendTables(t, pos, cond), MendSites(sites, pos, cond);
    forall site, a, h, b | site in after && a in Arguments(site.args) && h in site.branches
      && Resolve(q, u, a) == Some(b)
      ensures Fine(q, u, h, b)
    {
      var i :| 0 <= i < |sites| && site == MendSite(sites[i], pos, cond);
      var j :| 0 <= j < |site.branches| && site.branches[j] == h;
      var k :| 0 <= k < |Arguments(site.args)| && Arguments(site.args)[k] == a;
      var g := sites[i].branches[j];
      assert g in sites[i].branches && sites[i] in sites;
      BareIsTaken(sites, ifs, sites[i], g);
      ArgumentsKept(sites[i].args, pos, cond);
      assert Arguments(sites[i].args)[k] in Arguments(sites[i].args);
      assert SameTypes(p, q) by { MendTypes(p, x); }
      ResolveKept(p, q, t, Arguments(sites[i].args)[k], pos, cond);
      FineKept(p, x, t, g, c, b, pos, cond);
    }
  }

  lemma FineBefore(p: Package, x: Repair, t: Tables, sites: seq<Site>, ifs: seq<Stmt>, c: Binding, pos: nat, cond: Expr)
    requires Named(p) && TypedTables(p, t) && Sought(cond) && FromIfs(sites, ifs, [])
    requires DiscoveryTest(cond) ==> Resolve(p, t, cond.x.x) == Some(c)
    requires OnlyMendable(Mend(x, p), MendTables(t, pos, cond), MendSites(sites, pos, cond))
    ensures OnlyMendable(p, t, sites)
  {
    hide Fine, Resolve, Mend, MendTables, TypedTables, Sought, FromIfs, SideOf;
    var q, u, after := Mend(x, p), MendTables(t, pos, cond), MendSites(sites, pos, cond);
    forall site, a, g, b | site in sites && a in Arguments(site.args) && g in site.branches
      && Resolve(p, t, a) == Some(b)
      ensures Fine(p, t, g, b)
    {
      var i :| 0 <= i < |sites| && site == sites[i];
      var j :| 0 <= j < |site.branches| && site.branches[j] == g;
      var k :| 0 <= k < |Arguments(site.args)| && Arguments(site.args)[k] == a;
      ArgumentsKept(site.args, pos, cond);
      assert after[i] in after && after[i].branches[j] in after[i].branches;
      BareIsTaken(sites, ifs, site, g);
      assert Arguments(after[i].args)[k] in Arguments(after[i].args);
      assert SameTypes(p, q) by { MendTypes(p, x); }
      ResolveKept(p, q, t, a, pos, cond);
      FineKept(p, x, t, g, c, b, pos, cond);
    }
  }

  ghost predicate FunctionTyped(p: Package, name: string)
    requires name in p.functions
  {
    TypedTables(p, TablesOf(p, p.functions[name]))
  }

  /** In the function only bare discovery guards of the binding passed on block its construction. */
  ghost predicate FunctionMendable(p: Package, name: string)
    requires name in p.functions
  {
    OnlyMendable(p, TablesOf(p, p.functions[name]), Sites(p.functions[name].body, false, []))
  }

  lemma FunctionKept(p: Package, x: Repair, name: string, c: Binding)
    requires Named(p) && name in p.functions && FunctionTyped(p, name) && Sought(x.cond)
    requires name == x.name && DiscoveryTest(x.cond) ==>
      Resolve(p, TablesOf(p, p.functions[name]), x.cond.x.x) == Some(c)
    ensures FunctionTyped(Mend(x, p), name)
    ensures FunctionMendable(Mend(x, p), name) <==> FunctionMendable(p, name)
  {
    hide OnlyMendable, Resolve, TypedTables, DiscoveryTest;
    var q, fn := Mend(x, p), p.functions[name];
    var cond := CondIn(x, fn);
    assert Sought(cond) && (fn.name != x.name ==> !DiscoveryTest(cond)) by { ZeroSought(); }
    MendTypes(p, x);
    TablesKept(p, q, fn, x.pos, cond);
    SitesKept(fn.body, false, [], x.pos, cond);
    assert MendBranches([], x.pos, cond) == [];
    SitesFromIfs(fn.body, false, []);
    SitesStayFine(p, x, TablesOf(p, fn), Sites(fn.body, false, []), IfsOf(fn.body), c, x.pos, cond);
    MendedTyped(p, q, TablesOf(p, fn), x.pos, cond);
    assert q.functions[name] == fn.(body := RepairStmt(fn.body, x.pos, cond));
  }

  lemma ZeroSought()
    ensures Sought(IntLit(0)) && !DiscoveryTest(IntLit(0))
  {
  }

  // ---- Where the loop ends ----

  ghost predicate EveryTyped(p: Package, order: seq<string>) {
    forall name | name in order :: name in p.functions && FunctionTyped(p, name)
  }

  /** In every inspected function only bare discovery guards block. */
  ghost predicate EveryMendable(p: Package, order: seq<string>) {
    forall name | name in order :: name in p.functions && FunctionMendable(p, name)
  }

  lemma ReportedBranch(p: Package, t: Tables, site: Site, d: Diagnostic, j: nat, i: nat)
    requires Reports(p, t, site, d, j, i)
    ensures j < |Arguments(site.args)| && i < |site.branches|
    ensures Resolve(p, t, Arguments(site.args)[j]) == Some(d.binding) && !Passes(p, t, site.branches[i], d.binding)
    ensures d.cond == site.branches[i].cond && (d.repairable <==> Mendable(p, t, site.branches[i], d.binding))
  {
  }

  /** What a report says of its guard; in a package in which only discovery guards block, it is repairable. */
  lemma ReportMeans(p: Package, order: seq<string>)
    requires (forall name | name in order :: name in p.functions) && InspectPackage(p, order).Some?
    ensures var (name, d) := InspectPackage(p, order).value;
      && name in order && (EveryMendable(p, order) ==> d.repairable)
      && (d.repairable ==>
        DiscoveryTest(d.cond) && Simple(d.cond.x.x)
        && Resolve(p, TablesOf(p, p.functions[name]), d.cond.x.x) == Some(d.binding))
  {
    hide InspectPackage, TablesOf, Sites, Passes, Resolve, AllPass, Simple;
    var (name, d) := InspectPackage(p, order).value;
    PackageReported(p, order);
    assert name in order && FirstReport(p, TablesOf(p, p.functions[name]), Sites(p.functions[name].body, false, []), d);
    var t, sites := TablesOf(p, p.functions[name]), Sites(p.functions[name].body, false, []);
    var k :| 0 <= k < |sites| && exists j: nat, i: nat :: Reports(p, t, sites[k], d, j, i);
    var j: nat, i: nat :| Reports(p, t, sites[k], d, j, i);
    ReportedBranch(p, t, sites[k], d, j, i);
    assert sites[k] in sites && Arguments(sites[k].args)[j] in Arguments(sites[k].args);
    if EveryMendable(p, order) {
      assert FunctionMendable(p, name);
      assert Fine(p, t, sites[k].branches[i], d.binding);
    }
    if d.repairable {
      var x :| d.cond == Binary(NeqOp, Selector(x, "DiscovType"), StringLit("", true))
        && Resolve(p, t, x) == Some(d.binding);
      ResolvedSimple(p, t, x);
    }
  }

  /** The repairs that the inspection asks for do not decide whether only discovery guards block. */
  lemma {:induction false} RepairsKeepMendable(p: Package, order: seq<string>, xs: seq<Repair>)
    requires Named(p) && EveryTyped(p, order) && EachAskedFor(p, order, xs)
    ensures var q := Repaired(p, xs);
      Named(q) && EveryTyped(q, order) && (EveryMendable(q, order) <==> EveryMendable(p, order))
    decreases |xs|
  {
    hide FunctionMendable, FunctionTyped, InspectPackage, RepairOnce, Resolve, DiscoveryTest, Simple;
    if xs == [] {
      NothingRepaired(p);
    } else {
      var n := |xs| - 1;
      var init, x := xs[..n], xs[n];
      assert forall i | 0 <= i < n :: init[..i] == xs[..i] && init[i] == xs[i];
      RepairsKeepMendable(p, order, init);
      var q := Repaired(p, init);
      assert AskedFor(q, order, x);
      ReportMeans(q, order);
      MendIsRepair(x, q);
      forall name | name in order
        ensures FunctionTyped(Mend(x, q), name) && (FunctionMendable(Mend(x, q), name) <==> FunctionMendable(q, name))
      {
        FunctionKept(q, x, name, InspectPackage(q, order).value.1.binding);
      }
      RepairedMore(p, init, x);
      assert xs == init + [x];
    }
  }

  lemma PassingIsMendable(p: Package, order: seq<string>)
    requires (forall name | name in order :: name in p.functions) && InspectPackage(p, order).None?
    ensures EveryMendable(p, order)
  {
    hide InspectPackage, TablesOf, Sites, Passes, Mendable, Resolve;
    PackageReported(p, order);
    forall name | name in order ensures FunctionMendable(p, name) {
      var t, sites := TablesOf(p, p.functions[name]), Sites(p.functions[name].body, false, []);
      assert FunctionPasses(p, name);
      forall site, a, g, b | site in sites && a in Arguments(site.args) && g in site.branches
        && Resolve(p, t, a) == Some(b)
        ensures Fine(p, t, g, b)
      {
        assert SitePasses(p, t, site);
      }
    }
  }

  /**
   Where the loop ends, exactly: what it returns is accepted just when every if that blocked a
   construction at first was a bare x.DiscovType != "" on the binding that is passed on.
   */
  lemma RepairedExactly(p: Package, order: seq<string>, repairs: seq<Repair>)
    requires Named(p) && SensibleTypes(p)
    requires forall name | name in order :: name in p.functions && WellDeclared(p, p.functions[name])
    requires EachAskedFor(p, order, repairs) && forall name | name in order :: name in Repaired(p, repairs).functions
    requires var left := InspectPackage(Repaired(p, repairs), order); left.Some? ==> !left.value.1.repairable
    ensures InspectPackage(Repaired(p, repairs), order).None? <==> EveryMendable(p, order)
  {
    hide InspectPackage, Repaired, EachAskedFor, WellDeclared, TypedTables, FunctionMendable, TablesOf;
    forall name | name in order ensures FunctionTyped(p, name) { DeclaredTyped(p, p.functions[name]); }
    RepairsKeepMendable(p, order, repairs);
    var q := Repaired(p, repairs);
    if InspectPackage(q, order).Some? { ReportMeans(q, order); } else { PassingIsMendable(q, order); }
  }

  // ---- A guard as repositories write it ----

  const CLIENT := Binding("Config", "ChatclbtRpc")

  /** c.ChatclbtRpc, where c is the parameter of the function below. */
  const RECEIVER := Selector(Ident("c", Some(1)), "ChatclbtRpc")

  const DISCOVERY_ONLY := Binary(NeqOp, Selector(RECEIVER, "DiscovType"), StringLit("", true))

  /** func use(c config.Config) { if <guard> { client(c.ChatclbtRpc) } } */
  function GuardedUse(guard: Expr): Function {
    Function("use", 0, [Param(1, "Config")], false,
      If(7, Skip, guard, ExprStmt(Call(Ident("client", None), Cons("", RECEIVER, Nil))), Skip))
  }

  function UsePackage(guard: Expr): Package {
    Package(map["use" := GuardedUse(guard)], {CLIENT}, map[], map[], map[1 := "Config"], false)
  }

  lemma UseTables(guard: Expr)
    requires AssignsIn(guard) == []
    ensures var p := UsePackage(guard);
      TablesOf(p, GuardedUse(guard)) == Tables(map[1 := "Config"], map[], map[])
      && Resolve(p, TablesOf(p, GuardedUse(guard)), RECEIVER) == Some(CLIENT)
      && TypedTables(p, TablesOf(p, GuardedUse(guard)))
  {
    hide TablesOf, Initial;
    var p, fn := UsePackage(guard), GuardedUse(guard);
    assert AssignsOf(fn.body) == [];
    NoAssignments(p, fn);
    UseParams(guard);
    assert Binding("Config", "ChatclbtRpc") in p.bindings;
  }

  lemma NoAssignments(p: Package, fn: Function)
    requires AssignsOf(fn.body) == []
    ensures TablesOf(p, fn) == Initial(p, fn)
  {
    hide Initial;
  }

  lemma UseParams(guard: Expr)
    ensures Initial(UsePackage(guard), GuardedUse(guard)) == Tables(map[1 := "Config"], map[], map[])
  {
    var p, fn := UsePackage(guard), GuardedUse(guard);
    assert p.IsConfigType("Config") by { assert CLIENT in p.bindings; }
    assert fn.params[1..] == [] && ParamConfigs(p, []) == map[];
  }

  /** The discovery-only guard is reported as repairable, and accepted once it is repaired. */
  lemma DiscoveryOnlyRepaired()
    ensures InspectPackage(UsePackage(DISCOVERY_ONLY), ["use"]) ==
      Some(("use", Diagnostic(CLIENT, 7, DISCOVERY_ONLY, true)))
    ensures var q := RepairPackage(UsePackage(DISCOVERY_ONLY), "use", 7, DISCOVERY_ONLY);
      q == UsePackage(Extend(DISCOVERY_ONLY)) && InspectPackage(q, ["use"]).None?
  {
    hide InspectTarget, Extend, RepairStmt;
    UseVerdicts();
    UseRepaired();
    OnlyUse(UsePackage(DISCOVERY_ONLY));
    OnlyUse(UsePackage(Extend(DISCOVERY_ONLY)));
    var p, q := UsePackage(DISCOVERY_ONLY), UsePackage(Extend(DISCOVERY_ONLY));
    assert RepairPackage(p, "use", 7, DISCOVERY_ONLY).functions == q.functions;
  }

  lemma OnlyUse(p: Package)
    requires "use" in p.functions
    ensures var d := InspectTarget(p, p.functions["use"]);
      InspectPackage(p, ["use"]) == if d.Some? then Some(("use", d.value)) else None
  {
    hide InspectTarget;
    assert ["use"][1..] == [] && InspectPackage(p, []).None?;
  }

  lemma UseVerdicts()
    ensures InspectTarget(UsePackage(DISCOVERY_ONLY), GuardedUse(DISCOVERY_ONLY)) ==
      Some(Diagnostic(CLIENT, 7, DISCOVERY_ONLY, true))
    ensures InspectTarget(UsePackage(Extend(DISCOVERY_ONLY)), GuardedUse(Extend(DISCOVERY_ONLY))).None?
  {
    hide TablesOf, TargetVerdict, Resolve, TypedTables, InspectTarget;
    var p, q := UsePackage(DISCOVERY_ONLY), UsePackage(Extend(DISCOVERY_ONLY));
    GuardAssignsNothing(DISCOVERY_ONLY);
    UseTables(DISCOVERY_ONLY);
    UseTables(Extend(DISCOVERY_ONLY));
    ExtendedVerdicts(p, TablesOf(p, GuardedUse(DISCOVERY_ONLY)), DISCOVERY_ONLY, CLIENT);
    ExtendedVerdicts(q, TablesOf(q, GuardedUse(Extend(DISCOVERY_ONLY))), DISCOVERY_ONLY, CLIENT);
    UseInspected(DISCOVERY_ONLY);
    UseInspected(Extend(DISCOVERY_ONLY));
  }

  lemma UseRepaired()
    ensures RepairStmt(GuardedUse(DISCOVERY_ONLY).body, 7, DISCOVERY_ONLY) == GuardedUse(Extend(DISCOVERY_ONLY)).body
  {
    SimpleUntouched(RECEIVER, 7, DISCOVERY_ONLY);
    CallUntouched();
    var s := GuardedUse(DISCOVERY_ONLY).body;
    assert IsGuard(s, 7, DISCOVERY_ONLY);
    hide RepairExpr, Extend;
    assert RepairStmt(s.body, 7, DISCOVERY_ONLY) == s.body;
  }

  lemma CallUntouched()
    ensures var call := Call(Ident("client", None), Cons("", RECEIVER, Nil));
      RepairExpr(call, 7, DISCOVERY_ONLY) == call
  {
    SimpleUntouched(RECEIVER, 7, DISCOVERY_ONLY);
    hide Simple;
    var call := Call(Ident("client", None), Cons("", RECEIVER, Nil));
    assert RepairExprs(call.args.tail, 7, DISCOVERY_ONLY) == Nil;
    assert RepairExprs(call.args, 7, DISCOVERY_ONLY) == call.args;
    assert RepairExpr(call.fun, 7, DISCOVERY_ONLY) == call.fun;
  }

  lemma UseInspected(guard: Expr)
    requires guard.Binary?
    requires DiscoveryTest(guard) || (guard.bop.OrOp? && DiscoveryTest(guard.x) && guard == Extend(guard.x))
    requires Resolve(UsePackage(guard), TablesOf(UsePackage(guard), GuardedUse(guard)), RECEIVER) == Some(CLIENT)
    requires (if guard.bop.OrOp? then guard.x else guard) == DISCOVERY_ONLY
    ensures var p, fn, g := UsePackage(guard), GuardedUse(guard), Branch(7, guard, true, true);
      InspectTarget(p, fn) ==
        if Passes(p, TablesOf(p, fn), g, CLIENT) then None else Some(Diagnostic(CLIENT, 7, guard, DiscoveryTest(guard)))
  {
    hide TablesOf, Passes, Resolve;
    var p, fn, g := UsePackage(guard), GuardedUse(guard), Branch(7, guard, true, true);
    var t := TablesOf(p, fn);
    GuardUninspected(p, t, guard);
    assert Then(fn.body) == g && [g] + [] == [g] && [g][1..] == [];
    CallInspected(p, t, g);
    var call := Call(Ident("client", None), Cons("", RECEIVER, Nil));
    assert fn.body.body == ExprStmt(call);
    assert TargetStmt(p, t, fn.body.body, false, [g]) == FirstBlocked(p, t, [g], CLIENT);
    assert TargetStmt(p, t, Skip, false, []).None? && TargetStmt(p, t, Skip, false, [Else(fn.body)] + []).None?;
  }

  lemma CallInspected(p: Package, t: Tables, g: Branch)
    requires Resolve(p, t, RECEIVER) == Some(CLIENT)
    ensures var call := Call(Ident("client", None), Cons("", RECEIVER, Nil));
      TargetExpr(p, t, call, false, [g]) == FirstBlocked(p, t, [g], CLIENT)
    ensures FirstBlocked(p, t, [g], CLIENT) ==
      if Passes(p, t, g, CLIENT) then None
      else Some(Diagnostic(CLIENT, g.pos, g.cond,
        g.bare && DiscoveryTest(g.cond) && Resolve(p, t, g.cond.x.x) == Some(CLIENT)))
  {
    hide Passes, Resolve;
    assert [g][1..] == [];
    assert TargetExpr(p, t, RECEIVER, false, [g]).None?;
    var call := Call(Ident("client", None), Cons("", RECEIVER, Nil));
    assert JudgeArgs(p, t, call.args.tail, [g]).None?;
    assert JudgeArgs(p, t, call.args, [g]) == FirstBlocked(p, t, [g], CLIENT);
    assert TargetExprs(p, t, call.args, false, [g]).None?;
  }

  lemma GuardUninspected(p: Package, t: Tables, guard: Expr)
    requires guard == DISCOVERY_ONLY || guard == Extend(DISCOVERY_ONLY)
    ensures TargetExpr(p, t, guard, true, []).None?
  {
    assert TargetExpr(p, t, RECEIVER, true, []).None?;
    assert TargetExpr(p, t, DISCOVERY_ONLY.x, true, []).None?;
    assert TargetExpr(p, t, DISCOVERY_ONLY, true, []).None?;
    assert TargetExpr(p, t, Extend(DISCOVERY_ONLY).y, true, []).None?;
  }
}
