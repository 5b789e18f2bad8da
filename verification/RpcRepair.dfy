/** The repair of discovery guards, and the loop that repeats it until the inspection is content. */
module RpcRepair {
  import opened Options
  import opened GoSyntax
  import opened GoSemantics
  import opened RpcGuards
  import opened RpcAliases
  import opened RpcCertifier
  import opened RpcSoundness
  import opened RpcTarget

  /** x.DiscovType != "" becomes x.DiscovType != "" || x.Target != "". */
  function Extend(cond: Expr): Expr
    requires DiscoveryTest(cond)
  {
    Binary(OrOp, cond, Binary(NeqOp, Selector(cond.x.x, "Target"), StringLit("", true)))
  }

  predicate Bare(s: Stmt) { s.If? && s.init.Skip? && s.els.Skip? }

  /** The guard a repair rewrites: a bare if at the reported place with the reported condition. */
  predicate IsGuard(s: Stmt, pos: nat, cond: Expr) {
    Bare(s) && s.pos == pos && s.cond == cond && DiscoveryTest(cond)
  }

  function RepairStmt(s: Stmt, pos: nat, cond: Expr): Stmt {
    match s
    case Skip => s
    case Seq(a, b) => Seq(RepairStmt(a, pos, cond), RepairStmt(b, pos, cond))
    case Assign(q, kind, lhs, rhs) => Assign(q, kind, RepairExpr(lhs, pos, cond), RepairExpr(rhs, pos, cond))
    case ExprStmt(e) => ExprStmt(RepairExpr(e, pos, cond))
    case IncDec(e) => IncDec(RepairExpr(e, pos, cond))
    case Return(e) => Return(RepairExpr(e, pos, cond))
    case If(q, init, c, body, els) =>
      If(q, RepairStmt(init, pos, cond), if IsGuard(s, pos, cond) then Extend(c) else RepairExpr(c, pos, cond),
         RepairStmt(body, pos, cond), RepairStmt(els, pos, cond))
    case For(c, body) => For(RepairExpr(c, pos, cond), RepairStmt(body, pos, cond))
  }

  function RepairExpr(e: Expr, pos: nat, cond: Expr): Expr {
    match e
    case Ident(_, _) => e
    case StringLit(_, _) => e
    case IntLit(_) => e
    case Paren(x) => Paren(RepairExpr(x, pos, cond))
    case Star(x) => Star(RepairExpr(x, pos, cond))
    case Unary(op, x) => Unary(op, RepairExpr(x, pos, cond))
    case Selector(x, f) => Selector(RepairExpr(x, pos, cond), f)
    case Binary(op, x, y) => Binary(op, RepairExpr(x, pos, cond), RepairExpr(y, pos, cond))
    case Call(fun, args) => Call(RepairExpr(fun, pos, cond), RepairExprs(args, pos, cond))
    case Composite(typ, elts) => Composite(typ, RepairExprs(elts, pos, cond))
    case FuncLit(body) => FuncLit(RepairStmt(body, pos, cond))
    case Other(parts) => Other(RepairExprs(parts, pos, cond))
  }

  function RepairExprs(es: Exprs, pos: nat, cond: Expr): Exprs {
    if es.Nil? then es else Cons(es.key, RepairExpr(es.head, pos, cond), RepairExprs(es.tail, pos, cond))
  }

  // ---- Each repair leaves fewer bare discovery guards ----

  /** The bare ifs whose condition is a discovery test. */
  function Guards(s: Stmt): nat {
    match s
    case Skip => 0
    case Seq(a, b) => Guards(a) + Guards(b)
    case Assign(_, _, lhs, rhs) => GuardsIn(lhs) + GuardsIn(rhs)
    case ExprStmt(e) => GuardsIn(e)
    case IncDec(e) => GuardsIn(e)
    case Return(e) => GuardsIn(e)
    case If(_, init, c, body, els) =>
      (if Bare(s) && DiscoveryTest(c) then 1 else 0) + Guards(init) + GuardsIn(c) + Guards(body) + Guards(els)
    case For(c, body) => GuardsIn(c) + Guards(body)
  }

  function GuardsIn(e: Expr): nat {
    match e
    case Ident(_, _) => 0
    case StringLit(_, _) => 0
    case IntLit(_) => 0
    case Paren(x) => GuardsIn(x)
    case Star(x) => GuardsIn(x)
    case Unary(_, x) => GuardsIn(x)
    case Selector(x, _) => GuardsIn(x)
    case Binary(_, x, y) => GuardsIn(x) + GuardsIn(y)
    case Call(fun, args) => GuardsIn(fun) + GuardsInAll(args)
    case Composite(_, elts) => GuardsInAll(elts)
    case FuncLit(body) => Guards(body)
    case Other(parts) => GuardsInAll(parts)
  }

  function GuardsInAll(es: Exprs): nat {
    if es.Nil? then 0 else GuardsIn(es.head) + GuardsInAll(es.tail)
  }

  predicate HasGuard(s: Stmt, pos: nat, cond: Expr) {
    match s
    case Skip => false
    case Seq(a, b) => HasGuard(a, pos, cond) || HasGuard(b, pos, cond)
    case Assign(_, _, lhs, rhs) => HasGuardIn(lhs, pos, cond) || HasGuardIn(rhs, pos, cond)
    case ExprStmt(e) => HasGuardIn(e, pos, cond)
    case IncDec(e) => HasGuardIn(e, pos, cond)
    case Return(e) => HasGuardIn(e, pos, cond)
    case If(_, init, c, body, els) =>
      IsGuard(s, pos, cond) || HasGuard(init, pos, cond) || HasGuardIn(c, pos, cond) || HasGuard(body, pos, cond)
        || HasGuard(els, pos, cond)
    case For(c, body) => HasGuardIn(c, pos, cond) || HasGuard(body, pos, cond)
  }

  predicate HasGuardIn(e: Expr, pos: nat, cond: Expr) {
    match e
    case Ident(_, _) => false
    case StringLit(_, _) => false
    case IntLit(_) => false
    case Paren(x) => HasGuardIn(x, pos, cond)
    case Star(x) => HasGuardIn(x, pos, cond)
    case Unary(_, x) => HasGuardIn(x, pos, cond)
    case Selector(x, _) => HasGuardIn(x, pos, cond)
    case Binary(_, x, y) => HasGuardIn(x, pos, cond) || HasGuardIn(y, pos, cond)
    case Call(fun, args) => HasGuardIn(fun, pos, cond) || HasGuardInAll(args, pos, cond)
    case Composite(_, elts) => HasGuardInAll(elts, pos, cond)
    case FuncLit(body) => HasGuard(body, pos, cond)
    case Other(parts) => HasGuardInAll(parts, pos, cond)
  }

  predicate HasGuardInAll(es: Exprs, pos: nat, cond: Expr) {
    es.Cons? && (HasGuardIn(es.head, pos, cond) || HasGuardInAll(es.tail, pos, cond))
  }

  /** Expressions without function literals, calls or literals: what a binding is spelled with. */
  predicate Simple(e: Expr) {
    match e
    case Ident(_, _) => true
    case Paren(x) => Simple(x)
    case Star(x) => Simple(x)
    case Unary(_, x) => Simple(x)
    case Selector(x, _) => Simple(x)
    case _ => false
  }

  lemma {:induction false} ResolvedSimple(p: Package, t: Tables, e: Expr)
    ensures Resolve(p, t, e).Some? ==> Simple(e)
    ensures ConfigMembers(t, e).Some? ==> Simple(e)
  {
    match e
    case Paren(x) => ResolvedSimple(p, t, x);
    case Star(x) => ResolvedSimple(p, t, x);
    case Unary(_, x) => ResolvedSimple(p, t, x);
    case Selector(x, _) =>
      ResolvedSimple(p, t, x);
      if Unparen(x).Ident? { UnparenSimple(x); }
    case _ =>
  }

  lemma {:induction false} UnparenSimple(e: Expr)
    requires Unparen(e).Ident?
    ensures Simple(e)
  {
    if e.Paren? { UnparenSimple(e.x); }
  }

  lemma {:induction false} SimpleUntouched(e: Expr, pos: nat, cond: Expr)
    requires Simple(e)
    ensures GuardsIn(e) == 0 && RepairExpr(e, pos, cond) == e && StripExpr(e) == e
  {
    match e
    case Paren(x) => SimpleUntouched(x, pos, cond);
    case Star(x) => SimpleUntouched(x, pos, cond);
    case Unary(_, x) => SimpleUntouched(x, pos, cond);
    case Selector(x, _) => SimpleUntouched(x, pos, cond);
    case _ =>
  }

  lemma {:induction false} FewerGuards(s: Stmt, pos: nat, cond: Expr)
    requires DiscoveryTest(cond) && Simple(cond.x.x)
    ensures Guards(RepairStmt(s, pos, cond)) <= Guards(s)
    ensures HasGuard(s, pos, cond) ==> Guards(RepairStmt(s, pos, cond)) < Guards(s)
    decreases s
  {
    match s
    case Skip =>
    case Seq(a, b) =>
      FewerGuards(a, pos, cond);
      FewerGuards(b, pos, cond);
    case Assign(_, _, lhs, rhs) =>
      FewerGuardsIn(lhs, pos, cond);
      FewerGuardsIn(rhs, pos, cond);
    case ExprStmt(e) => FewerGuardsIn(e, pos, cond);
    case IncDec(e) => FewerGuardsIn(e, pos, cond);
    case Return(e) => FewerGuardsIn(e, pos, cond);
    case If(_, init, c, body, els) =>
      FewerGuards(init, pos, cond);
      FewerGuardsIn(c, pos, cond);
      FewerGuards(body, pos, cond);
      FewerGuards(els, pos, cond);
      RepairKeepsShape(s, pos, cond);
      if IsGuard(s, pos, cond) { ExtendCounts(cond); }
    case For(c, body) =>
      FewerGuardsIn(c, pos, cond);
      FewerGuards(body, pos, cond);
  }

  lemma ExtendCounts(cond: Expr)
    requires DiscoveryTest(cond) && Simple(cond.x.x)
    ensures GuardsIn(Extend(cond)) == 0 && GuardsIn(cond) == 0 && !DiscoveryTest(Extend(cond))
  {
    SimpleUntouched(cond.x.x, 0, cond);
    assert GuardsIn(cond) == GuardsIn(cond.x) + GuardsIn(cond.y);
    var target := Extend(cond).y;
    assert GuardsIn(target) == GuardsIn(target.x) + GuardsIn(target.y);
  }

  lemma RepairKeepsShape(s: Stmt, pos: nat, cond: Expr)
    requires s.If?
    ensures Bare(RepairStmt(s, pos, cond)) == Bare(s)
    ensures DiscoveryTest(RepairExpr(s.cond, pos, cond)) == DiscoveryTest(s.cond)
  {
  }

  lemma {:induction false} FewerGuardsIn(e: Expr, pos: nat, cond: Expr)
    requires DiscoveryTest(cond) && Simple(cond.x.x)
    ensures GuardsIn(RepairExpr(e, pos, cond)) <= GuardsIn(e)
    ensures HasGuardIn(e, pos, cond) ==> GuardsIn(RepairExpr(e, pos, cond)) < GuardsIn(e)
    decreases e
  {
    match e
    case Ident(_, _) =>
    case StringLit(_, _) =>
    case IntLit(_) =>
    case Paren(x) => FewerGuardsIn(x, pos, cond);
    case Star(x) => FewerGuardsIn(x, pos, cond);
    case Unary(_, x) => FewerGuardsIn(x, pos, cond);
    case Selector(x, _) => FewerGuardsIn(x, pos, cond);
    case Binary(_, x, y) =>
      FewerGuardsIn(x, pos, cond);
      FewerGuardsIn(y, pos, cond);
    case Call(fun, args) =>
      FewerGuardsIn(fun, pos, cond);
      FewerGuardsInAll(args, pos, cond);
    case Composite(_, elts) => FewerGuardsInAll(elts, pos, cond);
    case FuncLit(body) => FewerGuards(body, pos, cond);
    case Other(parts) => FewerGuardsInAll(parts, pos, cond);
  }

  lemma {:induction false} FewerGuardsInAll(es: Exprs, pos: nat, cond: Expr)
    requires DiscoveryTest(cond) && Simple(cond.x.x)
    ensures GuardsInAll(RepairExprs(es, pos, cond)) <= GuardsInAll(es)
    ensures HasGuardInAll(es, pos, cond) ==> GuardsInAll(RepairExprs(es, pos, cond)) < GuardsInAll(es)
    decreases es
  {
    if es.Cons? {
      FewerGuardsIn(es.head, pos, cond);
      FewerGuardsInAll(es.tail, pos, cond);
    }
  }

  // ---- Everything outside the extended conditions is preserved ----

  predicate ExtendedTest(cond: Expr) {
    && cond.Binary? && cond.bop.OrOp? && DiscoveryTest(cond.x) && Simple(cond.x.x.x)
    && cond == Extend(cond.x)
  }

  /** The program text with every extended guard taken back to its discovery test. */
  function StripStmt(s: Stmt): Stmt {
    match s
    case Skip => s
    case Seq(a, b) => Seq(StripStmt(a), StripStmt(b))
    case Assign(q, kind, lhs, rhs) => Assign(q, kind, StripExpr(lhs), StripExpr(rhs))
    case ExprStmt(e) => ExprStmt(StripExpr(e))
    case IncDec(e) => IncDec(StripExpr(e))
    case Return(e) => Return(StripExpr(e))
    case If(q, init, c, body, els) =>
      If(q, StripStmt(init), StripExpr(if Bare(s) && ExtendedTest(c) then c.x else c), StripStmt(body), StripStmt(els))
    case For(c, body) => For(StripExpr(c), StripStmt(body))
  }

  function StripExpr(e: Expr): Expr {
    match e
    case Ident(_, _) => e
    case StringLit(_, _) => e
    case IntLit(_) => e
    case Paren(x) => Paren(StripExpr(x))
    case Star(x) => Star(StripExpr(x))
    case Unary(op, x) => Unary(op, StripExpr(x))
    case Selector(x, f) => Selector(StripExpr(x), f)
    case Binary(op, x, y) => Binary(op, StripExpr(x), StripExpr(y))
    case Call(fun, args) => Call(StripExpr(fun), StripExprs(args))
    case Composite(typ, elts) => Composite(typ, StripExprs(elts))
    case FuncLit(body) => FuncLit(StripStmt(body))
    case Other(parts) => Other(StripExprs(parts))
  }

  function StripExprs(es: Exprs): Exprs {
    if es.Nil? then es else Cons(es.key, StripExpr(es.head), StripExprs(es.tail))
  }

  lemma {:induction false} SimpleKept(e: Expr, pos: nat, cond: Expr)
    ensures Simple(RepairExpr(e, pos, cond)) == Simple(e)
  {
    match e
    case Paren(x) => SimpleKept(x, pos, cond);
    case Star(x) => SimpleKept(x, pos, cond);
    case Unary(_, x) => SimpleKept(x, pos, cond);
    case Selector(x, _) => SimpleKept(x, pos, cond);
    case _ =>
  }

  lemma TestKept(c: Expr, pos: nat, cond: Expr)
    requires c.Binary? && c.x.Selector? && c.y.StringLit?
    ensures RepairExpr(c, pos, cond) == Binary(c.bop, Selector(RepairExpr(c.x.x, pos, cond), c.x.sel), c.y)
    ensures Simple(RepairExpr(c.x.x, pos, cond)) == Simple(c.x.x)
    ensures Simple(c.x.x) ==> RepairExpr(c.x.x, pos, cond) == c.x.x
  {
    SimpleKept(c.x.x, pos, cond);
    if Simple(c.x.x) { SimpleUntouched(c.x.x, pos, cond); }
  }

  lemma {:induction false} ExtendedKept(c: Expr, pos: nat, cond: Expr)
    ensures ExtendedTest(RepairExpr(c, pos, cond)) == ExtendedTest(c)
    ensures ExtendedTest(c) ==> RepairExpr(c, pos, cond) == c
  {
    if c.Binary? && c.bop.OrOp? {
      var d := RepairExpr(c, pos, cond);
      assert d == Binary(OrOp, RepairExpr(c.x, pos, cond), RepairExpr(c.y, pos, cond));
      if c.x.Binary? && c.x.x.Selector? && c.x.y.StringLit? && c.y.Binary? && c.y.x.Selector? && c.y.y.StringLit? {
        TestKept(c.x, pos, cond);
        TestKept(c.y, pos, cond);
      } else {
        SameKind(c.x, pos, cond);
        SameKind(c.y, pos, cond);
        if c.x.Binary? { SameKind(c.x.x, pos, cond); SameKind(c.x.y, pos, cond); }
        if c.y.Binary? { SameKind(c.y.x, pos, cond); SameKind(c.y.y, pos, cond); }
      }
    }
  }

  lemma {:induction false} SameKind(e: Expr, pos: nat, cond: Expr)
    ensures var d := RepairExpr(e, pos, cond);
      d.Binary? == e.Binary? && d.Selector? == e.Selector? && d.StringLit? == e.StringLit?
      && (e.Binary? ==> d == Binary(e.bop, RepairExpr(e.x, pos, cond), RepairExpr(e.y, pos, cond)))
  {
  }

  lemma {:induction false} RepairPreserves(s: Stmt, pos: nat, cond: Expr)
    requires DiscoveryTest(cond) && Simple(cond.x.x)
    ensures StripStmt(RepairStmt(s, pos, cond)) == StripStmt(s)
    decreases s
  {
    match s
    case Skip =>
    case Seq(a, b) =>
      RepairPreserves(a, pos, cond);
      RepairPreserves(b, pos, cond);
    case Assign(_, _, lhs, rhs) =>
      RepairPreservesIn(lhs, pos, cond);
      RepairPreservesIn(rhs, pos, cond);
    case ExprStmt(e) => RepairPreservesIn(e, pos, cond);
    case IncDec(e) => RepairPreservesIn(e, pos, cond);
    case Return(e) => RepairPreservesIn(e, pos, cond);
    case If(_, init, c, body, els) =>
      RepairPreserves(init, pos, cond);
      RepairPreservesIn(c, pos, cond);
      RepairPreserves(body, pos, cond);
      RepairPreserves(els, pos, cond);
      RepairKeepsShape(s, pos, cond);
      ExtendedKept(c, pos, cond);
      if IsGuard(s, pos, cond) { assert ExtendedTest(Extend(c)); }
    case For(c, body) =>
      RepairPreservesIn(c, pos, cond);
      RepairPreserves(body, pos, cond);
  }

  lemma {:induction false} RepairPreservesIn(e: Expr, pos: nat, cond: Expr)
    requires DiscoveryTest(cond) && Simple(cond.x.x)
    ensures StripExpr(RepairExpr(e, pos, cond)) == StripExpr(e)
    decreases e
  {
    match e
    case Ident(_, _) =>
    case StringLit(_, _) =>
    case IntLit(_) =>
    case Paren(x) => RepairPreservesIn(x, pos, cond);
    case Star(x) => RepairPreservesIn(x, pos, cond);
    case Unary(_, x) => RepairPreservesIn(x, pos, cond);
    case Selector(x, _) => RepairPreservesIn(x, pos, cond);
    case Binary(_, x, y) =>
      RepairPreservesIn(x, pos, cond);
      RepairPreservesIn(y, pos, cond);
    case Call(fun, args) =>
      RepairPreservesIn(fun, pos, cond);
      RepairPreservesInAll(args, pos, cond);
    case Composite(_, elts) => RepairPreservesInAll(elts, pos, cond);
    case FuncLit(body) => RepairPreserves(body, pos, cond);
    case Other(parts) => RepairPreservesInAll(parts, pos, cond);
  }

  lemma {:induction false} RepairPreservesInAll(es: Exprs, pos: nat, cond: Expr)
    requires DiscoveryTest(cond) && Simple(cond.x.x)
    ensures StripExprs(RepairExprs(es, pos, cond)) == StripExprs(es)
    decreases es
  {
    if es.Cons? {
      RepairPreservesIn(es.head, pos, cond);
      RepairPreservesInAll(es.tail, pos, cond);
    }
  }

  // ---- A reported repair always finds its guard ----

  predicate Around(branches: seq<Branch>, pos: nat, cond: Expr) {
    exists g :: g in branches && g.bare && g.pos == pos && g.cond == cond
  }

  /** A repairable report is about an if of the statement, or one around it. */
  predicate Traced(d: Option<Diagnostic>, found: bool, branches: seq<Branch>) {
    d.Some? && d.value.repairable ==>
      DiscoveryTest(d.value.cond) && (found || Around(branches, d.value.pos, d.value.cond))
  }

  lemma {:induction false} BlockedTraced(p: Package, t: Tables, branches: seq<Branch>, b: Binding)
    ensures Traced(FirstBlocked(p, t, branches, b), false, branches)
    ensures FirstBlocked(p, t, branches, b).Some? && FirstBlocked(p, t, branches, b).value.repairable ==>
      Simple(FirstBlocked(p, t, branches, b).value.cond.x.x)
  {
    if branches != [] && Passes(p, t, branches[0], b) {
      BlockedTraced(p, t, branches[1..], b);
      assert forall g | g in branches[1..] :: g in branches;
    } else if branches != [] {
      assert branches[0] in branches;
      if DiscoveryTest(branches[0].cond) { ResolvedSimple(p, t, branches[0].cond.x.x); }
    }
  }

  /** What a report of the inspection of s says, when it is repairable. */
  predicate Located(d: Option<Diagnostic>, found: bool, branches: seq<Branch>) {
    Traced(d, found, branches) && (d.Some? && d.value.repairable ==> Simple(d.value.cond.x.x))
  }

  function PosOf(d: Option<Diagnostic>): nat { if d.Some? then d.value.pos else 0 }

  function CondOf(d: Option<Diagnostic>): Expr { if d.Some? then d.value.cond else IntLit(0) }

  lemma {:induction false} ArgsLocated(p: Package, t: Tables, args: Exprs, branches: seq<Branch>)
    ensures Located(JudgeArgs(p, t, args, branches), false, branches)
  {
    if args.Cons? {
      var b := Resolve(p, t, args.head);
      if b.Some? { BlockedTraced(p, t, branches, b.value); }
      ArgsLocated(p, t, args.tail, branches);
    }
  }

  lemma {:induction false} ExprLocated(p: Package, t: Tables, e: Expr, inCond: bool, branches: seq<Branch>)
    ensures var d := TargetExpr(p, t, e, inCond, branches); Located(d, HasGuardIn(e, PosOf(d), CondOf(d)), branches)
    decreases e
  {
    hide JudgeArgs;
    match e
    case Ident(_, _) =>
    case StringLit(_, _) =>
    case IntLit(_) =>
    case Paren(x) => ExprLocated(p, t, x, inCond, branches);
    case Star(x) => ExprLocated(p, t, x, inCond, branches);
    case Unary(_, x) => ExprLocated(p, t, x, inCond, branches);
    case Selector(x, _) => ExprLocated(p, t, x, inCond, branches);
    case Binary(_, x, y) =>
      ExprLocated(p, t, x, inCond, branches);
      ExprLocated(p, t, y, inCond, branches);
    case Call(fun, args) =>
      ArgsLocated(p, t, args, branches);
      ExprLocated(p, t, fun, inCond, branches);
      ExprsLocated(p, t, args, inCond, branches);
    case Composite(_, elts) => ExprsLocated(p, t, elts, inCond, branches);
    case FuncLit(body) => StmtLocated(p, t, body, false, branches);
    case Other(parts) => ExprsLocated(p, t, parts, inCond, branches);
  }

  lemma {:induction false} ExprsLocated(p: Package, t: Tables, es: Exprs, inCond: bool, branches: seq<Branch>)
    ensures var d := TargetExprs(p, t, es, inCond, branches);
      Located(d, HasGuardInAll(es, PosOf(d), CondOf(d)), branches)
    decreases es
  {
    if es.Cons? {
      ExprLocated(p, t, es.head, inCond, branches);
      ExprsLocated(p, t, es.tail, inCond, branches);
    }
  }

  lemma {:induction false} StmtLocated(p: Package, t: Tables, s: Stmt, inCond: bool, branches: seq<Branch>)
    ensures var d := TargetStmt(p, t, s, inCond, branches); Located(d, HasGuard(s, PosOf(d), CondOf(d)), branches)
    decreases s
  {
    match s
    case Skip =>
    case Seq(a, b) =>
      StmtLocated(p, t, a, inCond, branches);
      StmtLocated(p, t, b, inCond, branches);
    case Assign(_, _, lhs, rhs) =>
      ExprLocated(p, t, lhs, inCond, branches);
      ExprLocated(p, t, rhs, inCond, branches);
    case ExprStmt(e) => ExprLocated(p, t, e, inCond, branches);
    case IncDec(e) => ExprLocated(p, t, e, inCond, branches);
    case Return(e) => ExprLocated(p, t, e, inCond, branches);
    case If(_, init, cond, body, els) =>
      StmtLocated(p, t, init, inCond, branches);
      ExprLocated(p, t, cond, true, branches);
      StmtLocated(p, t, body, inCond, [Then(s)] + branches);
      StmtLocated(p, t, els, inCond, [Else(s)] + branches);
      var d1 := TargetStmt(p, t, body, inCond, [Then(s)] + branches);
      var d2 := TargetStmt(p, t, els, inCond, [Else(s)] + branches);
      AroundOuter(Then(s), branches, PosOf(d1), CondOf(d1));
      AroundOuter(Else(s), branches, PosOf(d2), CondOf(d2));
    case For(cond, body) =>
      ExprLocated(p, t, cond, inCond, branches);
      StmtLocated(p, t, body, inCond, branches);
  }

  lemma AroundOuter(g: Branch, branches: seq<Branch>, pos: nat, cond: Expr)
    ensures Around([g] + branches, pos, cond) ==>
      (g.bare && g.pos == pos && g.cond == cond) || Around(branches, pos, cond)
  {
  }

  // ---- The loop ----

  /** Inspects the functions in order and reports the first guard that is not proven. */
  function InspectPackage(p: Package, order: seq<string>): Option<(string, Diagnostic)>
    requires forall name | name in order :: name in p.functions
  {
    if order == [] then None
    else
      var d := InspectTarget(p, p.functions[order[0]]);
      if d.Some? then Some((order[0], d.value)) else InspectPackage(p, order[1..])
  }

  ghost predicate FunctionPasses(p: Package, name: string)
    requires name in p.functions
  {
    AllPass(p, TablesOf(p, p.functions[name]), Sites(p.functions[name].body, false, []))
  }

  /** The first function with a site that does not pass is the one that is reported. */
  ghost predicate PackageReport(p: Package, order: seq<string>, r: Option<(string, Diagnostic)>)
    requires forall name | name in order :: name in p.functions
  {
    if r.None? then forall name | name in order :: FunctionPasses(p, name)
    else exists n | 0 <= n < |order| ::
      && order[n] == r.value.0
      && (forall k | 0 <= k < n :: FunctionPasses(p, order[k]))
      && FirstReport(p, TablesOf(p, p.functions[order[n]]), Sites(p.functions[order[n]].body, false, []), r.value.1)
  }

  lemma {:induction false} PackageReported(p: Package, order: seq<string>)
    requires forall name | name in order :: name in p.functions
    ensures PackageReport(p, order, InspectPackage(p, order))
    decreases |order|
  {
    hide FirstReport, AllPass, Sites, TablesOf, InspectTarget;
    if order != [] {
      var r := InspectPackage(p, order);
      var rest := order[1..];
      ReportExact(p, p.functions[order[0]]);
      PackageReported(p, rest);
      if r.None? {
        assert forall name | name in order :: name == order[0] || name in rest;
      } else if FunctionPasses(p, order[0]) {
        var n :| 0 <= n < |rest| && rest[n] == r.value.0
          && (forall k | 0 <= k < n :: FunctionPasses(p, rest[k]))
          && FirstReport(p, TablesOf(p, p.functions[rest[n]]), Sites(p.functions[rest[n]].body, false, []), r.value.1);
        assert order[n + 1] == rest[n] && forall k | 0 < k < n + 1 :: order[k] == rest[k - 1];
      } else {
        assert order[0] == r.value.0;
      }
    }
  }

  function RepairPackage(p: Package, name: string, pos: nat, cond: Expr): Package
    requires name in p.functions
  {
    var fn := p.functions[name];
    p.(functions := p.functions[name := fn.(body := RepairStmt(fn.body, pos, cond))])
  }

  /** One repair: the guards with this position and condition in the function of this name. */
  datatype Repair = Repair(name: string, pos: nat, cond: Expr)

  /** The repairs of discovery guards whose receivers contain no call. */
  predicate ProperRepairs(xs: seq<Repair>) {
    forall i | 0 <= i < |xs| :: DiscoveryTest(xs[i].cond) && Simple(xs[i].cond.x.x)
  }

  function RepairOnce(p: Package, x: Repair): Package {
    if x.name in p.functions then RepairPackage(p, x.name, x.pos, x.cond) else p
  }

  /** Repairs one after the other. */
  function Repaired(p: Package, xs: seq<Repair>): Package
    decreases |xs|
  {
    if xs == [] then p else Repaired(RepairOnce(p, xs[0]), xs[1..])
  }

  lemma {:induction false} RepairedMore(p: Package, xs: seq<Repair>, x: Repair)
    ensures Repaired(p, xs + [x]) == RepairOnce(Repaired(p, xs), x)
    decreases |xs|
  {
    hide RepairOnce;
    if xs == [] {
      assert ([x])[1..] == [] && [] + [x] == [x];
    } else {
      assert (xs + [x])[1..] == xs[1..] + [x];
      RepairedMore(RepairOnce(p, xs[0]), xs[1..], x);
    }
  }

  /** The inspection of the package asks for this repair. */
  ghost predicate AskedFor(p: Package, order: seq<string>, x: Repair) {
    && (forall name | name in order :: name in p.functions)
    && var r := InspectPackage(p, order);
    r.Some? && r.value.1.repairable && x == Repair(r.value.0, r.value.1.pos, r.value.1.cond)
  }

  /** Each repair is the one asked for after the ones before it. */
  ghost predicate EachAskedFor(p: Package, order: seq<string>, xs: seq<Repair>) {
    forall i | 0 <= i < |xs| :: AskedFor(Repaired(p, xs[..i]), order, xs[i])
  }

  lemma OneMoreAskedFor(p: Package, order: seq<string>, xs: seq<Repair>, x: Repair)
    requires EachAskedFor(p, order, xs) && AskedFor(Repaired(p, xs), order, x)
    ensures EachAskedFor(p, order, xs + [x])
  {
    hide AskedFor, Repaired;
    forall i | 0 <= i < |xs + [x]| ensures AskedFor(Repaired(p, (xs + [x])[..i]), order, (xs + [x])[i]) {
      assert (xs + [x])[..i] == xs[..i] && xs[..|xs|] == xs;
    }
  }

  function PackageGuards(p: Package, order: seq<string>): nat
    requires forall name | name in order :: name in p.functions
  {
    if order == [] then 0 else Guards(p.functions[order[0]].body) + PackageGuards(p, order[1..])
  }

  /** Both packages are the same but for discovery guards that q has extended. */
  ghost predicate SameButExtended(p: Package, q: Package) {
    && q.bindings == p.bindings && q.configFields == p.configFields && q.fieldAt == p.fieldAt
    && q.objTypes == p.objTypes && q.declaresLen == p.declaresLen && q.functions.Keys == p.functions.Keys
    && forall name | name in p.functions :: SameFunction(p.functions[name], q.functions[name])
  }

  predicate SameFunction(f: Function, g: Function) {
    g == f.(body := g.body) && StripStmt(g.body) == StripStmt(f.body)
  }

  lemma {:induction false} ReportLocated(p: Package, order: seq<string>)
    requires forall name | name in order :: name in p.functions
    ensures var r := InspectPackage(p, order);
      r.Some? ==> r.value.0 in order && (r.value.1.repairable ==>
        DiscoveryTest(r.value.1.cond) && Simple(r.value.1.cond.x.x)
        && HasGuard(p.functions[r.value.0].body, r.value.1.pos, r.value.1.cond))
  {
    if order != [] {
      var fn := p.functions[order[0]];
      StmtLocated(p, TablesOf(p, fn), fn.body, false, []);
      ReportLocated(p, order[1..]);
    }
  }

  lemma {:induction false} RepairProgress(p: Package, order: seq<string>, name: string, pos: nat, cond: Expr)
    requires (forall n | n in order :: n in p.functions) && name in p.functions
    requires DiscoveryTest(cond) && Simple(cond.x.x) && HasGuard(p.functions[name].body, pos, cond)
    ensures var q := RepairPackage(p, name, pos, cond);
      PackageGuards(q, order) <= PackageGuards(p, order)
      && (name in order ==> PackageGuards(q, order) < PackageGuards(p, order))
  {
    if order != [] {
      FewerGuards(p.functions[name].body, pos, cond);
      RepairProgress(p, order[1..], name, pos, cond);
    }
  }

  /**
   Inspect, repair, inspect again. The loop ends: every repair removes a bare discovery guard.
   Every repair is one the inspection asked for. What is left is accepted, or blocked first by an if
   that is no bare discovery guard of the binding, and the program is otherwise untouched.
   */
  method RepairTargetGuards(p: Package, order: seq<string>)
    returns (q: Package, repairs: seq<Repair>, left: Option<(string, Diagnostic)>)
    requires forall name | name in order :: name in p.functions
    ensures q.functions.Keys == p.functions.Keys && left == InspectPackage(q, order)
    ensures PackageReport(q, order, left) && (left.Some? ==> !left.value.1.repairable)
    ensures EachAskedFor(p, order, repairs)
    ensures SameButExtended(p, q) && q == Repaired(p, repairs) && ProperRepairs(repairs)
    ensures |repairs| + PackageGuards(q, order) <= PackageGuards(p, order)
    ensures repairs == [] <==> q == p
  {
    hide InspectPackage, PackageGuards, Guards, RepairStmt, Repaired, DiscoveryTest, Simple, PackageReport;
    q, repairs := p, [];
    assert Repaired(p, []) == p by { NothingRepaired(p); }
    left := InspectPackage(q, order);
    while left.Some? && left.value.1.repairable
      invariant q.functions.Keys == p.functions.Keys && left == InspectPackage(q, order)
      invariant SameButExtended(p, q) && q == Repaired(p, repairs) && ProperRepairs(repairs)
      invariant EachAskedFor(p, order, repairs)
      invariant |repairs| + PackageGuards(q, order) <= PackageGuards(p, order)
      invariant repairs == [] <==> q == p
      decreases PackageGuards(q, order)
    {
      var (name, d) := left.value;
      ReportLocated(q, order);
      RepairProgress(q, order, name, d.pos, d.cond);
      RepairPreserves(q.functions[name].body, d.pos, d.cond);
      RepairedMore(p, repairs, Repair(name, d.pos, d.cond));
      OneMoreAskedFor(p, order, repairs, Repair(name, d.pos, d.cond));
      q, repairs := RepairPackage(q, name, d.pos, d.cond), repairs + [Repair(name, d.pos, d.cond)];
      left := InspectPackage(q, order);
    }
    PackageReported(q, order);
  }

  lemma NothingRepaired(p: Package)
    ensures Repaired(p, []) == p
  {
  }

  // ---- What an extended guard means ----

  /**
   A repaired guard is proven true on target-only configurations, where the old one was
   proven false, and keeps the verdict false on blank ones.
   */
  lemma ExtendedVerdicts(p: Package, t: Tables, cond: Expr, b: Binding)
    requires TypedTables(p, t) && DiscoveryTest(cond) && Resolve(p, t, cond.x.x) == Some(b)
    ensures TargetVerdict(p, t, cond, b) == (IsFalse, true)
    ensures TargetVerdict(p, t, Extend(cond), b) == (IsTrue, true)
    ensures EvaluateCondition(p, t, cond, b) == EvaluateCondition(p, t, Extend(cond), b) == (IsFalse, true)
  {
    OnTarget(p, t, cond, b);
    OnBlank(p, t, cond, b);
  }

  lemma OnTarget(p: Package, t: Tables, cond: Expr, b: Binding)
    requires TypedTables(p, t) && DiscoveryTest(cond) && Resolve(p, t, cond.x.x) == Some(b)
    ensures TargetVerdict(p, t, cond, b) == (IsFalse, true)
    ensures TargetVerdict(p, t, Extend(cond), b) == (IsTrue, true)
  {
    hide FieldPath, Resolve, Evaluate;
    RoutePaths(p, t, cond.x.x, b);
    var lookup := TargetLookup(p, t, b);
    assert cond.x == Selector(cond.x.x, "DiscovType") && cond == Binary(NeqOp, cond.x, StringLit("", true));
    TestEvaluates(cond.x, lookup, !p.ShadowsLen());
    TestEvaluates(Extend(cond).y.x, lookup, !p.ShadowsLen());
    ExtendEvaluates(cond, lookup, !p.ShadowsLen());
    assert lookup(cond.x) == (BlankString, true) && lookup(Extend(cond).y.x) == (NonemptyString, true);
  }

  lemma OnBlank(p: Package, t: Tables, cond: Expr, b: Binding)
    requires TypedTables(p, t) && DiscoveryTest(cond) && Resolve(p, t, cond.x.x) == Some(b)
    ensures EvaluateCondition(p, t, cond, b) == EvaluateCondition(p, t, Extend(cond), b) == (IsFalse, true)
  {
    hide FieldPath, Resolve, Evaluate;
    RoutePaths(p, t, cond.x.x, b);
    var lookup := BindingLookup(p, t, b, Blank);
    assert cond.x == Selector(cond.x.x, "DiscovType") && cond == Binary(NeqOp, cond.x, StringLit("", true));
    TestEvaluates(cond.x, lookup, !p.ShadowsLen());
    TestEvaluates(Extend(cond).y.x, lookup, !p.ShadowsLen());
    ExtendEvaluates(cond, lookup, !p.ShadowsLen());
    assert lookup(cond.x) == (BlankString, true) && lookup(Extend(cond).y.x) == (BlankString, true);
  }

  lemma RoutePaths(p: Package, t: Tables, receiver: Expr, b: Binding)
    requires TypedTables(p, t) && Resolve(p, t, receiver) == Some(b)
    ensures FieldPath(p, t, Selector(receiver, "DiscovType"), b) == Some(["DiscovType"])
    ensures FieldPath(p, t, Selector(receiver, "Target"), b) == Some(["Target"])
  {
    ResolvedTyped(p, t, receiver);
    assert FieldPath(p, t, receiver, b) == Some([]);
    assert [] + ["DiscovType"] == ["DiscovType"] && [] + ["Target"] == ["Target"];
  }

  lemma ExtendEvaluates(cond: Expr, lookup: Lookup, builtinLen: bool)
    requires DiscoveryTest(cond)
    ensures var (l, r) := (Evaluate(cond, lookup, builtinLen), Evaluate(Extend(cond).y, lookup, builtinLen));
      Evaluate(Extend(cond), lookup, builtinLen) == (Combine(OrOp, l.0, r.0), l.1 || r.1)
  {
  }

  lemma TestEvaluates(field: Expr, lookup: Lookup, builtinLen: bool)
    requires field.Selector?
    ensures Evaluate(Binary(NeqOp, field, StringLit("", true)), lookup, builtinLen) ==
      (Combine(NeqOp, lookup(field).0, BlankString), lookup(field).1)
  {
    assert Evaluate(field, lookup, builtinLen) == lookup(field);
    assert Evaluate(StringLit("", true), lookup, builtinLen) == (BlankString, false);
  }

  /** A value with both route fields, as strings. */
  predicate HasRoute(v: Value) {
    (v.VConf? || v.VStruct?)
    && "DiscovType" in v.fields && v.fields["DiscovType"].VStr?
    && "Target" in v.fields && v.fields["Target"].VStr?
  }

  /** More fuel does not change what a resolved expression evaluates to. */
  lemma {:induction false} MoreFuel(p: Package, w: World, t: Tables, b: Binding, profile: Profile, e: Expr, st: State,
    fuel: nat, more: nat)
    requires TypedTables(p, t) && StoreOk(p, t, b, profile, Contents(p, w, st)) && fuel <= more
    requires Resolve(p, t, e).Some? || ConfigMembers(t, e).Some? || (Unparen(e).Ident? && Unparen(e).obj.Some?)
    requires Eval(p, w, e, st, InCond, fuel).Ok?
    ensures Eval(p, w, e, st, InCond, more) == Eval(p, w, e, st, InCond, fuel)
    decreases e
  {
    match e
    case Ident(_, _) =>
    case Paren(x) => MoreFuel(p, w, t, b, profile, x, st, fuel - 1, more - 1);
    case Star(x) => MoreFuel(p, w, t, b, profile, x, st, fuel - 1, more - 1);
    case Unary(_, x) => MoreFuel(p, w, t, b, profile, x, st, fuel - 2, more - 2);
    case Selector(x, f) =>
      MoreFuel(p, w, t, b, profile, x, st, fuel - 1, more - 1);
      if Resolve(p, t, e).Some? {
        MembersEval(p, w, t, b, profile, x, st, InCond, fuel - 1);
      } else {
        var o := Unparen(x).obj.value;
        assert TypedCarrier(p, o, f, t.carriers[o][f]);
        UnparenEval(p, w, t, b, profile, x, st, InCond, fuel - 1);
      }
  }

  /**
   The repair changes what runs in exactly one case: in any state, the old and the new guard
   differ if and only if DiscovType is empty and Target is not. The new guard then holds, and
   evaluating it has no further effect.
   */
  lemma RepairedGuardDiffers(p: Package, w: World, t: Tables, b: Binding, profile: Profile, cond: Expr, st: State,
    conf: Value, fuel: nat)
    requires TypedTables(p, t) && StoreOk(p, t, b, profile, Contents(p, w, st))
    requires DiscoveryTest(cond) && Resolve(p, t, cond.x.x).Some?
    requires Eval(p, w, cond.x.x, st, InCond, fuel) == Ok(conf, st) && HasRoute(conf)
    ensures var before := Eval(p, w, cond, st, InCond, fuel + 5);
      var after := Eval(p, w, Extend(cond), st, InCond, fuel + 5);
      && before.Ok? && after.Ok? && before.v.VBool? && after.v.VBool?
      && before.st == after.st == st
      && (before.v != after.v <==> conf.fields["DiscovType"].s == "" && conf.fields["Target"].s != "")
      && (before.v != after.v ==> after.v.b)
  {
    var receiver := cond.x.x;
    MoreFuel(p, w, t, b, profile, receiver, st, fuel, fuel + 2);
    TestEval(p, w, cond, st, Ok(conf, st), fuel + 5);
    TestEval(p, w, cond, st, Ok(conf, st), fuel + 3);
    TestEval(p, w, Extend(cond).y, st, Ok(conf, st), fuel + 3);
  }

  lemma TestEval(p: Package, w: World, test: Expr, st: State, r: Result, fuel: nat)
    requires test.Binary? && test.bop.NeqOp? && test.x.Selector? && test.y == StringLit("", true) && fuel >= 4
    requires r == Eval(p, w, test.x.x, st, InCond, fuel - 3) && r.Ok? && r.st == st
    requires (r.v.VConf? || r.v.VStruct?) && test.x.sel in r.v.fields && r.v.fields[test.x.sel].VStr?
    ensures Eval(p, w, test, st, InCond, fuel) == Ok(VBool(r.v.fields[test.x.sel].s != ""), st)
  {
    assert Eval(p, w, test.x, st, InCond, fuel - 2) == Ok(r.v.fields[test.x.sel], st);
    assert Eval(p, w, test.y, st, InCond, fuel - 2) == Ok(VStr(""), st);
  }
}
