/**
 Local routes set Target and leave discovery empty. This inspection checks that every if
 around a client construction then takes the branch that constructs the client, and the
 repair loop extends the one kind of guard it knows how to extend.
 */
module RpcTarget {
  import opened Options
  import opened GoSyntax
  import opened GoSemantics
  import opened RpcGuards
  import opened RpcAliases
  import opened RpcCertifier
  import opened RpcSoundness
  import opened RpcSafety

  /** An if around a node: where it is, its condition, whether it is bare, and the branch the node is in. */
  datatype Branch = Branch(pos: nat, cond: Expr, bare: bool, taken: bool)

  datatype Diagnostic = Diagnostic(binding: Binding, pos: nat, cond: Expr, repairable: bool)

  /** The function of helper shape called on binding b by an expression, if that is what it is. */
  function HelperOn(p: Package, t: Tables, e: Expr, b: Binding): Option<Function> {
    if e.Call? && e.args.Cons? && e.args.tail.Nil? && Resolve(p, t, e.args.head) == Some(b)
       && p.Callee(e.fun).Some? && HasHelperShape(p.Callee(e.fun).value)
    then p.Callee(e.fun) else None
  }

  /** What such a function returns for a target-only configuration; anything, unless it just returns. */
  function HelperTarget(p: Package, fn: Function): Verdict {
    if IsPredicateHelper(fn) then HelperVerdict(p, fn, TargetOnly).0 else Unknown
  }

  function TargetLookup(p: Package, t: Tables, b: Binding): Lookup {
    e =>
      var helper := HelperOn(p, t, e, b);
      if helper.Some? then (HelperTarget(p, helper.value), true)
      else FieldVerdict(TargetOnly, FieldPath(p, t, e, b))
  }

  function TargetVerdict(p: Package, t: Tables, cond: Expr, b: Binding): (Verdict, bool) {
    Evaluate(cond, TargetLookup(p, t, b), !p.ShadowsLen())
  }

  /** An if whose condition does not depend on the binding, or is proven to take this branch. */
  predicate Passes(p: Package, t: Tables, branch: Branch, b: Binding) {
    var (verdict, referenced) := TargetVerdict(p, t, branch.cond, b);
    referenced ==> verdict == if branch.taken then IsTrue else IsFalse
  }

  /** The condition x.DiscovType != "". */
  predicate DiscoveryTest(cond: Expr) {
    cond.Binary? && cond.bop.NeqOp? && cond.x.Selector? && cond.x.sel == "DiscovType" && cond.y == StringLit("", true)
  }

  function FirstBlocked(p: Package, t: Tables, branches: seq<Branch>, b: Binding): Option<Diagnostic> {
    if branches == [] then None
    else if Passes(p, t, branches[0], b) then FirstBlocked(p, t, branches[1..], b)
    else
      var g := branches[0];
      Some(Diagnostic(b, g.pos, g.cond, g.bare && DiscoveryTest(g.cond) && Resolve(p, t, g.cond.x.x) == Some(b)))
  }

  function JudgeArgs(p: Package, t: Tables, args: Exprs, branches: seq<Branch>): Option<Diagnostic> {
    if args.Nil? then None
    else
      var b := Resolve(p, t, args.head);
      var first := if b.Some? then FirstBlocked(p, t, branches, b.value) else None;
      if first.Some? then first else JudgeArgs(p, t, args.tail, branches)
  }

  function Earlier(first: Option<Diagnostic>, second: Option<Diagnostic>): Option<Diagnostic> {
    if first.Some? then first else second
  }

  function TargetExpr(p: Package, t: Tables, e: Expr, inCond: bool, branches: seq<Branch>): Option<Diagnostic> {
    match e
    case Ident(_, _) => None
    case StringLit(_, _) => None
    case IntLit(_) => None
    case Paren(x) => TargetExpr(p, t, x, inCond, branches)
    case Star(x) => TargetExpr(p, t, x, inCond, branches)
    case Unary(_, x) => TargetExpr(p, t, x, inCond, branches)
    case Selector(x, _) => TargetExpr(p, t, x, inCond, branches)
    case Binary(_, x, y) => Earlier(TargetExpr(p, t, x, inCond, branches), TargetExpr(p, t, y, inCond, branches))
    case Call(fun, args) =>
      Earlier(if inCond then None else JudgeArgs(p, t, args, branches),
        Earlier(TargetExpr(p, t, fun, inCond, branches), TargetExprs(p, t, args, inCond, branches)))
    case Composite(_, elts) => TargetExprs(p, t, elts, inCond, branches)
    case FuncLit(body) => TargetStmt(p, t, body, false, branches)
    case Other(parts) => TargetExprs(p, t, parts, inCond, branches)
  }

  function TargetExprs(p: Package, t: Tables, es: Exprs, inCond: bool, branches: seq<Branch>): Option<Diagnostic> {
    if es.Nil? then None
    else Earlier(TargetExpr(p, t, es.head, inCond, branches), TargetExprs(p, t, es.tail, inCond, branches))
  }

  function Then(s: Stmt): Branch requires s.If? { Branch(s.pos, s.cond, s.init.Skip? && s.els.Skip?, true) }

  function Else(s: Stmt): Branch requires s.If? { Branch(s.pos, s.cond, s.init.Skip? && s.els.Skip?, false) }

  function TargetStmt(p: Package, t: Tables, s: Stmt, inCond: bool, branches: seq<Branch>): Option<Diagnostic> {
    match s
    case Skip => None
    case Seq(a, b) => Earlier(TargetStmt(p, t, a, inCond, branches), TargetStmt(p, t, b, inCond, branches))
    case Assign(_, _, lhs, rhs) => Earlier(TargetExpr(p, t, lhs, inCond, branches),
      TargetExpr(p, t, rhs, inCond, branches))
    case ExprStmt(e) => TargetExpr(p, t, e, inCond, branches)
    case IncDec(e) => TargetExpr(p, t, e, inCond, branches)
    case Return(e) => TargetExpr(p, t, e, inCond, branches)
    case If(_, init, cond, body, els) =>
      Earlier(TargetStmt(p, t, init, inCond, branches), Earlier(TargetExpr(p, t, cond, true, branches),
        Earlier(TargetStmt(p, t, body, inCond, [Then(s)] + branches),
          TargetStmt(p, t, els, inCond, [Else(s)] + branches))))
    case For(cond, body) => Earlier(TargetExpr(p, t, cond, inCond, branches), TargetStmt(p, t, body, inCond, branches))
  }

  /** The inspection of one function. */
  function InspectTarget(p: Package, fn: Function): Option<Diagnostic> {
    TargetStmt(p, TablesOf(p, fn), fn.body, false, [])
  }

  // ---- Call sites, written down without the inspection ----

  /** A call outside every condition, with the ifs around it. */
  datatype Site = Site(args: Exprs, branches: seq<Branch>)

  function SitesIn(e: Expr, inCond: bool, branches: seq<Branch>): seq<Site> {
    match e
    case Ident(_, _) => []
    case StringLit(_, _) => []
    case IntLit(_) => []
    case Paren(x) => SitesIn(x, inCond, branches)
    case Star(x) => SitesIn(x, inCond, branches)
    case Unary(_, x) => SitesIn(x, inCond, branches)
    case Selector(x, _) => SitesIn(x, inCond, branches)
    case Binary(_, x, y) => SitesIn(x, inCond, branches) + SitesIn(y, inCond, branches)
    case Call(fun, args) =>
      (if inCond then [] else [Site(args, branches)]) + SitesIn(fun, inCond, branches)
        + SitesInAll(args, inCond, branches)
    case Composite(_, elts) => SitesInAll(elts, inCond, branches)
    case FuncLit(body) => Sites(body, false, branches)
    case Other(parts) => SitesInAll(parts, inCond, branches)
  }

  function SitesInAll(es: Exprs, inCond: bool, branches: seq<Branch>): seq<Site> {
    if es.Nil? then [] else SitesIn(es.head, inCond, branches) + SitesInAll(es.tail, inCond, branches)
  }

  function Sites(s: Stmt, inCond: bool, branches: seq<Branch>): seq<Site> {
    match s
    case Skip => []
    case Seq(a, b) => Sites(a, inCond, branches) + Sites(b, inCond, branches)
    case Assign(_, _, lhs, rhs) => SitesIn(lhs, inCond, branches) + SitesIn(rhs, inCond, branches)
    case ExprStmt(e) => SitesIn(e, inCond, branches)
    case IncDec(e) => SitesIn(e, inCond, branches)
    case Return(e) => SitesIn(e, inCond, branches)
    case If(_, init, cond, body, els) =>
      Sites(init, inCond, branches) + SitesIn(cond, true, branches)
      + Sites(body, inCond, [Then(s)] + branches) + Sites(els, inCond, [Else(s)] + branches)
    case For(cond, body) => SitesIn(cond, inCond, branches) + Sites(body, inCond, branches)
  }

  function Arguments(es: Exprs): seq<Expr> {
    if es.Nil? then [] else [es.head] + Arguments(es.tail)
  }

  /** Every if around the site that depends on a binding it passes on is proven to lead to it. */
  ghost predicate SitePasses(p: Package, t: Tables, site: Site) {
    forall a, branch, b | a in Arguments(site.args) && branch in site.branches && Resolve(p, t, a) == Some(b) ::
      Passes(p, t, branch, b)
  }

  ghost predicate AllPass(p: Package, t: Tables, sites: seq<Site>) {
    forall site | site in sites :: SitePasses(p, t, site)
  }

  lemma AllPassSplit(p: Package, t: Tables, a: seq<Site>, b: seq<Site>)
    ensures AllPass(p, t, a + b) <==> AllPass(p, t, a) && AllPass(p, t, b)
  {
    hide SitePasses;
    assert forall x | x in a || x in b :: x in a + b;
  }

  lemma {:induction false} BlockedExact(p: Package, t: Tables, branches: seq<Branch>, b: Binding)
    ensures FirstBlocked(p, t, branches, b).None? <==> forall branch | branch in branches :: Passes(p, t, branch, b)
  {
    if branches != [] {
      BlockedExact(p, t, branches[1..], b);
      assert branches == [branches[0]] + branches[1..];
    }
  }

  lemma {:induction false} JudgeArgsExact(p: Package, t: Tables, args: Exprs, branches: seq<Branch>)
    ensures JudgeArgs(p, t, args, branches).None? <==> SitePasses(p, t, Site(args, branches))
  {
    if args.Cons? {
      var head := Resolve(p, t, args.head);
      var rest := Site(args.tail, branches);
      if head.Some? { BlockedExact(p, t, branches, head.value); }
      JudgeArgsExact(p, t, args.tail, branches);
      assert Arguments(args) == [args.head] + Arguments(args.tail);
      assert SitePasses(p, t, Site(args, branches)) <==>
        SitePasses(p, t, rest)
          && (head.Some? ==> forall branch | branch in branches :: Passes(p, t, branch, head.value))
      by {
        assert forall a :: a in Arguments(args) <==> a == args.head || a in Arguments(args.tail);
      }
    }
  }

  lemma {:induction false} ExprExact(p: Package, t: Tables, e: Expr, inCond: bool, branches: seq<Branch>)
    ensures TargetExpr(p, t, e, inCond, branches).None? <==> AllPass(p, t, SitesIn(e, inCond, branches))
    decreases e
  {
    hide SitePasses;
    match e
    case Ident(_, _) =>
    case StringLit(_, _) =>
    case IntLit(_) =>
    case Paren(x) => ExprExact(p, t, x, inCond, branches);
    case Star(x) => ExprExact(p, t, x, inCond, branches);
    case Unary(_, x) => ExprExact(p, t, x, inCond, branches);
    case Selector(x, _) => ExprExact(p, t, x, inCond, branches);
    case Binary(_, x, y) =>
      ExprExact(p, t, x, inCond, branches);
      ExprExact(p, t, y, inCond, branches);
      AllPassSplit(p, t, SitesIn(x, inCond, branches), SitesIn(y, inCond, branches));
    case Call(fun, args) =>
      var own := if inCond then [] else [Site(args, branches)];
      JudgeArgsExact(p, t, args, branches);
      ExprExact(p, t, fun, inCond, branches);
      ExprsExact(p, t, args, inCond, branches);
      AllPassSplit(p, t, own + SitesIn(fun, inCond, branches), SitesInAll(args, inCond, branches));
      AllPassSplit(p, t, own, SitesIn(fun, inCond, branches));
    case Composite(_, elts) => ExprsExact(p, t, elts, inCond, branches);
    case FuncLit(body) => StmtExact(p, t, body, false, branches);
    case Other(parts) => ExprsExact(p, t, parts, inCond, branches);
  }

  lemma {:induction false} ExprsExact(p: Package, t: Tables, es: Exprs, inCond: bool, branches: seq<Branch>)
    ensures TargetExprs(p, t, es, inCond, branches).None? <==> AllPass(p, t, SitesInAll(es, inCond, branches))
    decreases es
  {
    hide SitePasses;
    if es.Cons? {
      ExprExact(p, t, es.head, inCond, branches);
      ExprsExact(p, t, es.tail, inCond, branches);
      AllPassSplit(p, t, SitesIn(es.head, inCond, branches), SitesInAll(es.tail, inCond, branches));
    }
  }

  lemma {:induction false} StmtExact(p: Package, t: Tables, s: Stmt, inCond: bool, branches: seq<Branch>)
    ensures TargetStmt(p, t, s, inCond, branches).None? <==> AllPass(p, t, Sites(s, inCond, branches))
    decreases s
  {
    hide SitePasses;
    match s
    case Skip =>
    case Seq(a, b) =>
      StmtExact(p, t, a, inCond, branches);
      StmtExact(p, t, b, inCond, branches);
      AllPassSplit(p, t, Sites(a, inCond, branches), Sites(b, inCond, branches));
    case Assign(_, _, lhs, rhs) =>
      ExprExact(p, t, lhs, inCond, branches);
      ExprExact(p, t, rhs, inCond, branches);
      AllPassSplit(p, t, SitesIn(lhs, inCond, branches), SitesIn(rhs, inCond, branches));
    case ExprStmt(e) => ExprExact(p, t, e, inCond, branches);
    case IncDec(e) => ExprExact(p, t, e, inCond, branches);
    case Return(e) => ExprExact(p, t, e, inCond, branches);
    case If(_, init, cond, body, els) =>
      var first := Sites(init, inCond, branches);
      var second := SitesIn(cond, true, branches);
      var third := Sites(body, inCond, [Then(s)] + branches);
      var fourth := Sites(els, inCond, [Else(s)] + branches);
      StmtExact(p, t, init, inCond, branches);
      ExprExact(p, t, cond, true, branches);
      StmtExact(p, t, body, inCond, [Then(s)] + branches);
      StmtExact(p, t, els, inCond, [Else(s)] + branches);
      AllPassSplit(p, t, first, second);
      AllPassSplit(p, t, first + second, third);
      AllPassSplit(p, t, first + second + third, fourth);
    case For(cond, body) =>
      ExprExact(p, t, cond, inCond, branches);
      StmtExact(p, t, body, inCond, branches);
      AllPassSplit(p, t, SitesIn(cond, inCond, branches), Sites(body, inCond, branches));
  }

  // ---- What a report says ----

  /** Every if of a statement, those in function literals included. */
  function IfsOf(s: Stmt): seq<Stmt> {
    match s
    case Skip => []
    case Seq(a, b) => IfsOf(a) + IfsOf(b)
    case Assign(_, _, lhs, rhs) => IfsIn(lhs) + IfsIn(rhs)
    case ExprStmt(e) => IfsIn(e)
    case IncDec(e) => IfsIn(e)
    case Return(e) => IfsIn(e)
    case If(_, init, cond, body, els) => [s] + IfsOf(init) + IfsIn(cond) + IfsOf(body) + IfsOf(els)
    case For(cond, body) => IfsIn(cond) + IfsOf(body)
  }

  function IfsIn(e: Expr): seq<Stmt> {
    match e
    case Ident(_, _) => []
    case StringLit(_, _) => []
    case IntLit(_) => []
    case Paren(x) => IfsIn(x)
    case Star(x) => IfsIn(x)
    case Unary(_, x) => IfsIn(x)
    case Selector(x, _) => IfsIn(x)
    case Binary(_, x, y) => IfsIn(x) + IfsIn(y)
    case Call(fun, args) => IfsIn(fun) + IfsInAll(args)
    case Composite(_, elts) => IfsInAll(elts)
    case FuncLit(body) => IfsOf(body)
    case Other(parts) => IfsInAll(parts)
  }

  function IfsInAll(es: Exprs): seq<Stmt> {
    if es.Nil? then [] else IfsIn(es.head) + IfsInAll(es.tail)
  }

  /** The arguments of every call of a statement. */
  function CallsOf(s: Stmt): seq<Exprs> {
    match s
    case Skip => []
    case Seq(a, b) => CallsOf(a) + CallsOf(b)
    case Assign(_, _, lhs, rhs) => CallsIn(lhs) + CallsIn(rhs)
    case ExprStmt(e) => CallsIn(e)
    case IncDec(e) => CallsIn(e)
    case Return(e) => CallsIn(e)
    case If(_, init, cond, body, els) => CallsOf(init) + CallsIn(cond) + CallsOf(body) + CallsOf(els)
    case For(cond, body) => CallsIn(cond) + CallsOf(body)
  }

  function CallsIn(e: Expr): seq<Exprs> {
    match e
    case Ident(_, _) => []
    case StringLit(_, _) => []
    case IntLit(_) => []
    case Paren(x) => CallsIn(x)
    case Star(x) => CallsIn(x)
    case Unary(_, x) => CallsIn(x)
    case Selector(x, _) => CallsIn(x)
    case Binary(_, x, y) => CallsIn(x) + CallsIn(y)
    case Call(fun, args) => [args] + CallsIn(fun) + CallsInAll(args)
    case Composite(_, elts) => CallsInAll(elts)
    case FuncLit(body) => CallsOf(body)
    case Other(parts) => CallsInAll(parts)
  }

  function CallsInAll(es: Exprs): seq<Exprs> {
    if es.Nil? then [] else CallsIn(es.head) + CallsInAll(es.tail)
  }

  lemma {:induction false} SitesAreCalls(s: Stmt, inCond: bool, branches: seq<Branch>)
    ensures forall site | site in Sites(s, inCond, branches) :: site.args in CallsOf(s)
    decreases s
  {
    match s
    case Skip =>
    case Seq(a, b) =>
      SitesAreCalls(a, inCond, branches);
      SitesAreCalls(b, inCond, branches);
    case Assign(_, _, lhs, rhs) =>
      SitesAreCallsIn(lhs, inCond, branches);
      SitesAreCallsIn(rhs, inCond, branches);
    case ExprStmt(e) => SitesAreCallsIn(e, inCond, branches);
    case IncDec(e) => SitesAreCallsIn(e, inCond, branches);
    case Return(e) => SitesAreCallsIn(e, inCond, branches);
    case If(_, init, cond, body, els) =>
      SitesAreCalls(init, inCond, branches);
      SitesAreCallsIn(cond, true, branches);
      SitesAreCalls(body, inCond, [Then(s)] + branches);
      SitesAreCalls(els, inCond, [Else(s)] + branches);
    case For(cond, body) =>
      SitesAreCallsIn(cond, inCond, branches);
      SitesAreCalls(body, inCond, branches);
  }

  lemma {:induction false} SitesAreCallsIn(e: Expr, inCond: bool, branches: seq<Branch>)
    ensures forall site | site in SitesIn(e, inCond, branches) :: site.args in CallsIn(e)
    decreases e
  {
    match e
    case Ident(_, _) =>
    case StringLit(_, _) =>
    case IntLit(_) =>
    case Paren(x) => SitesAreCallsIn(x, inCond, branches);
    case Star(x) => SitesAreCallsIn(x, inCond, branches);
    case Unary(_, x) => SitesAreCallsIn(x, inCond, branches);
    case Selector(x, _) => SitesAreCallsIn(x, inCond, branches);
    case Binary(_, x, y) =>
      SitesAreCallsIn(x, inCond, branches);
      SitesAreCallsIn(y, inCond, branches);
    case Call(fun, args) =>
      SitesAreCallsIn(fun, inCond, branches);
      SitesAreCallsInAll(args, inCond, branches);
    case Composite(_, elts) => SitesAreCallsInAll(elts, inCond, branches);
    case FuncLit(body) => SitesAreCalls(body, false, branches);
    case Other(parts) => SitesAreCallsInAll(parts, inCond, branches);
  }

  lemma {:induction false} SitesAreCallsInAll(es: Exprs, inCond: bool, branches: seq<Branch>)
    ensures forall site | site in SitesInAll(es, inCond, branches) :: site.args in CallsInAll(es)
    decreases es
  {
    if es.Cons? {
      SitesAreCallsIn(es.head, inCond, branches);
      SitesAreCallsInAll(es.tail, inCond, branches);
    }
  }

  /**
   The branch is the side of one of these ifs in which the call stands: it is taken when that is the body.
   It is bare when the if has neither init statement nor else, so that it can only be the one that is taken.
   */
  ghost predicate SideOf(args: Exprs, branch: Branch, ifs: seq<Stmt>) {
    (branch.bare ==> branch.taken) && exists s | s in ifs && s.If? ::
      branch.pos == s.pos && branch.cond == s.cond && (branch.bare <==> s.init == Skip && s.els == Skip)
      && args in CallsOf(if branch.taken then s.body else s.els)
  }

  ghost predicate FromIfs(sites: seq<Site>, ifs: seq<Stmt>, branches: seq<Branch>) {
    forall site, branch | site in sites && branch in site.branches ::
      branch in branches || SideOf(site.args, branch, ifs)
  }

  lemma FromMore(sites: seq<Site>, ifs: seq<Stmt>, all: seq<Stmt>, branches: seq<Branch>)
    requires FromIfs(sites, ifs, branches) && forall s | s in ifs :: s in all
    ensures FromIfs(sites, all, branches)
  {
    forall site, branch | site in sites && branch in site.branches
      ensures branch in branches || SideOf(site.args, branch, all)
    {
      if branch !in branches { assert SideOf(site.args, branch, ifs); }
    }
  }

  lemma FromBoth(a: seq<Site>, b: seq<Site>, ifs: seq<Stmt>, more: seq<Stmt>, branches: seq<Branch>)
    requires FromIfs(a, ifs, branches) && FromIfs(b, more, branches)
    ensures FromIfs(a + b, ifs + more, branches)
  {
    FromMore(a, ifs, ifs + more, branches);
    FromMore(b, more, ifs + more, branches);
    hide SideOf;
  }

  lemma FromBranch(sites: seq<Site>, ifs: seq<Stmt>, s: Stmt, branch: Branch, branches: seq<Branch>)
    requires s.If? && branch in {Then(s), Else(s)} && FromIfs(sites, ifs, [branch] + branches)
    requires forall site | site in sites :: site.args in CallsOf(if branch == Then(s) then s.body else s.els)
    requires sites == [] || (branch.bare ==> branch.taken)
    ensures FromIfs(sites, [s] + ifs, branches)
  {
    FromMore(sites, ifs, [s] + ifs, [branch] + branches);
    forall site | site in sites ensures SideOf(site.args, branch, [s] + ifs) { assert s in [s] + ifs; }
    hide SideOf;
    forall site, g | site in sites && g in site.branches ensures g in branches || SideOf(site.args, g, [s] + ifs) {
      assert g in [branch] + branches || SideOf(site.args, g, [s] + ifs);
    }
  }

  /** Around a site of a whole function, a bare if is one whose body the site is in. */
  lemma BareIsTaken(sites: seq<Site>, ifs: seq<Stmt>, site: Site, branch: Branch)
    requires FromIfs(sites, ifs, []) && site in sites && branch in site.branches
    ensures SideOf(site.args, branch, ifs) && (branch.bare ==> branch.taken)
  {
    assert branch in [] || SideOf(site.args, branch, ifs);
  }

  lemma {:induction false} SitesFromIfs(s: Stmt, inCond: bool, branches: seq<Branch>)
    ensures FromIfs(Sites(s, inCond, branches), IfsOf(s), branches)
    decreases s
  {
    hide FromIfs;
    match s
    case Skip => assert FromIfs([], [], branches) by { NoSites(branches); }
    case Seq(a, b) =>
      SitesFromIfs(a, inCond, branches);
      SitesFromIfs(b, inCond, branches);
      FromBoth(Sites(a, inCond, branches), Sites(b, inCond, branches), IfsOf(a), IfsOf(b), branches);
    case Assign(_, _, lhs, rhs) =>
      SitesFromIfsIn(lhs, inCond, branches);
      SitesFromIfsIn(rhs, inCond, branches);
      FromBoth(SitesIn(lhs, inCond, branches), SitesIn(rhs, inCond, branches), IfsIn(lhs), IfsIn(rhs), branches);
    case ExprStmt(e) => SitesFromIfsIn(e, inCond, branches);
    case IncDec(e) => SitesFromIfsIn(e, inCond, branches);
    case Return(e) => SitesFromIfsIn(e, inCond, branches);
    case If(_, init, cond, body, els) =>
      SitesFromIfs(init, inCond, branches);
      SitesFromIfsIn(cond, true, branches);
      SitesFromIfs(body, inCond, [Then(s)] + branches);
      SitesFromIfs(els, inCond, [Else(s)] + branches);
      SitesAreCalls(body, inCond, [Then(s)] + branches);
      SitesAreCalls(els, inCond, [Else(s)] + branches);
      FromFour(s, Sites(init, inCond, branches), SitesIn(cond, true, branches),
        Sites(body, inCond, [Then(s)] + branches), Sites(els, inCond, [Else(s)] + branches), branches);
    case For(cond, body) =>
      SitesFromIfsIn(cond, inCond, branches);
      SitesFromIfs(body, inCond, branches);
      FromBoth(SitesIn(cond, inCond, branches), Sites(body, inCond, branches), IfsIn(cond), IfsOf(body), branches);
  }

  lemma FromFour(s: Stmt, a: seq<Site>, b: seq<Site>, c: seq<Site>, d: seq<Site>, branches: seq<Branch>)
    requires s.If? && FromIfs(a, IfsOf(s.init), branches) && FromIfs(b, IfsIn(s.cond), branches)
    requires FromIfs(c, IfsOf(s.body), [Then(s)] + branches) && FromIfs(d, IfsOf(s.els), [Else(s)] + branches)
    requires s.els.Skip? ==> d == []
    requires forall site | site in c :: site.args in CallsOf(s.body)
    requires forall site | site in d :: site.args in CallsOf(s.els)
    ensures FromIfs(a + b + c + d, IfsOf(s), branches)
  {
    hide FromIfs, IfsIn;
    var all := IfsOf(s);
    FromMore(a, IfsOf(s.init), all, branches);
    FromMore(b, IfsIn(s.cond), all, branches);
    FromBranch(c, IfsOf(s.body), s, Then(s), branches);
    FromBranch(d, IfsOf(s.els), s, Else(s), branches);
    FromMore(c, [s] + IfsOf(s.body), all, branches);
    FromMore(d, [s] + IfsOf(s.els), all, branches);
    FromBoth(a, b, all, all, branches);
    FromBoth(a + b, c, all + all, all, branches);
    FromBoth(a + b + c, d, all + all + all, all, branches);
    FromMore(a + b + c + d, all + all + all + all, all, branches);
  }

  lemma NoSites(branches: seq<Branch>)
    ensures FromIfs([], [], branches)
  {
  }

  lemma {:induction false} SitesFromIfsIn(e: Expr, inCond: bool, branches: seq<Branch>)
    ensures FromIfs(SitesIn(e, inCond, branches), IfsIn(e), branches)
    decreases e
  {
    hide FromIfs;
    assert FromIfs([], [], branches) by { NoSites(branches); }
    match e
    case Ident(_, _) =>
    case StringLit(_, _) =>
    case IntLit(_) =>
    case Paren(x) => SitesFromIfsIn(x, inCond, branches);
    case Star(x) => SitesFromIfsIn(x, inCond, branches);
    case Unary(_, x) => SitesFromIfsIn(x, inCond, branches);
    case Selector(x, _) => SitesFromIfsIn(x, inCond, branches);
    case Binary(_, x, y) =>
      SitesFromIfsIn(x, inCond, branches);
      SitesFromIfsIn(y, inCond, branches);
      FromBoth(SitesIn(x, inCond, branches), SitesIn(y, inCond, branches), IfsIn(x), IfsIn(y), branches);
    case Call(fun, args) =>
      var own := if inCond then [] else [Site(args, branches)];
      assert FromIfs(own, [], branches) by { OwnSite(args, inCond, branches); }
      SitesFromIfsIn(fun, inCond, branches);
      SitesFromIfsInAll(args, inCond, branches);
      FromBoth(own, SitesIn(fun, inCond, branches), [], IfsIn(fun), branches);
      assert [] + IfsIn(fun) == IfsIn(fun);
      FromBoth(own + SitesIn(fun, inCond, branches), SitesInAll(args, inCond, branches), IfsIn(fun), IfsInAll(args),
        branches);
    case Composite(_, elts) => SitesFromIfsInAll(elts, inCond, branches);
    case FuncLit(body) => SitesFromIfs(body, false, branches);
    case Other(parts) => SitesFromIfsInAll(parts, inCond, branches);
  }

  lemma OwnSite(args: Exprs, inCond: bool, branches: seq<Branch>)
    ensures FromIfs(if inCond then [] else [Site(args, branches)], [], branches)
  {
  }

  lemma {:induction false} SitesFromIfsInAll(es: Exprs, inCond: bool, branches: seq<Branch>)
    ensures FromIfs(SitesInAll(es, inCond, branches), IfsInAll(es), branches)
    decreases es
  {
    hide FromIfs;
    if es.Nil? {
      NoSites(branches);
    } else {
      SitesFromIfsIn(es.head, inCond, branches);
      SitesFromIfsInAll(es.tail, inCond, branches);
      FromBoth(SitesIn(es.head, inCond, branches), SitesInAll(es.tail, inCond, branches), IfsIn(es.head),
        IfsInAll(es.tail), branches);
    }
  }

  ghost predicate ArgumentPasses(p: Package, t: Tables, site: Site, j: nat)
    requires j < |Arguments(site.args)|
  {
    forall branch, b | branch in site.branches && Resolve(p, t, Arguments(site.args)[j]) == Some(b) ::
      Passes(p, t, branch, b)
  }

  /**
   The report is about the innermost if that does not pass, around the first argument with such an if. It
   is repairable just when this if is bare and compares the binding's own DiscovType with "".
   */
  ghost predicate Reports(p: Package, t: Tables, site: Site, d: Diagnostic, j: nat, i: nat) {
    && j < |Arguments(site.args)| && i < |site.branches|
    && Resolve(p, t, Arguments(site.args)[j]) == Some(d.binding)
    && (forall k | 0 <= k < j :: ArgumentPasses(p, t, site, k))
    && (forall k | 0 <= k < i :: Passes(p, t, site.branches[k], d.binding))
    && !Passes(p, t, site.branches[i], d.binding)
    && d.pos == site.branches[i].pos && d.cond == site.branches[i].cond
    && (d.repairable <==> Mendable(p, t, site.branches[i], d.binding))
  }

  /** A bare x.DiscovType != "" on the binding itself. */
  ghost predicate Mendable(p: Package, t: Tables, branch: Branch, b: Binding) {
    branch.bare && exists x ::
      branch.cond == Binary(NeqOp, Selector(x, "DiscovType"), StringLit("", true)) && Resolve(p, t, x) == Some(b)
  }

  ghost predicate FirstReport(p: Package, t: Tables, sites: seq<Site>, d: Diagnostic) {
    exists k | 0 <= k < |sites| ::
      AllPass(p, t, sites[..k]) && exists j: nat, i: nat :: Reports(p, t, sites[k], d, j, i)
  }

  lemma {:induction false} BlockedReports(p: Package, t: Tables, branches: seq<Branch>, b: Binding) returns (i: nat)
    requires FirstBlocked(p, t, branches, b).Some?
    ensures var d := FirstBlocked(p, t, branches, b).value;
      && i < |branches| && d.binding == b && (forall k | 0 <= k < i :: Passes(p, t, branches[k], b))
      && !Passes(p, t, branches[i], b) && d.pos == branches[i].pos && d.cond == branches[i].cond
      && (d.repairable <==> Mendable(p, t, branches[i], b))
  {
    hide Passes, Resolve;
    if Passes(p, t, branches[0], b) {
      i := BlockedReports(p, t, branches[1..], b);
      i := i + 1;
    } else {
      i := 0;
      var cond := branches[0].cond;
      if DiscoveryTest(cond) {
        assert cond == Binary(NeqOp, Selector(cond.x.x, "DiscovType"), StringLit("", true));
      }
    }
  }

  lemma {:induction false} ArgsReport(p: Package, t: Tables, args: Exprs, branches: seq<Branch>)
    returns (j: nat, i: nat)
    requires JudgeArgs(p, t, args, branches).Some?
    ensures Reports(p, t, Site(args, branches), JudgeArgs(p, t, args, branches).value, j, i)
  {
    hide Passes, FirstBlocked, Mendable, Resolve;
    var b := Resolve(p, t, args.head);
    assert Arguments(args) == [args.head] + Arguments(args.tail);
    if b.Some? && FirstBlocked(p, t, branches, b.value).Some? {
      j := 0;
      i := BlockedReports(p, t, branches, b.value);
    } else {
      j, i := ArgsReport(p, t, args.tail, branches);
      var site, rest := Site(args, branches), Site(args.tail, branches);
      if b.Some? { BlockedExact(p, t, branches, b.value); }
      assert ArgumentPasses(p, t, site, 0);
      forall k | 0 < k <= j ensures ArgumentPasses(p, t, site, k) <==> ArgumentPasses(p, t, rest, k - 1) {
        assert Arguments(args)[k] == Arguments(args.tail)[k - 1];
      }
      assert Arguments(args)[j + 1] == Arguments(args.tail)[j];
      j := j + 1;
    }
  }

  lemma ReportThere(p: Package, t: Tables, a: seq<Site>, b: seq<Site>, d: Diagnostic)
    ensures FirstReport(p, t, a, d) ==> FirstReport(p, t, a + b, d)
    ensures AllPass(p, t, a) && FirstReport(p, t, b, d) ==> FirstReport(p, t, a + b, d)
  {
    hide AllPass, Reports;
    if FirstReport(p, t, a, d) {
      var k :| 0 <= k < |a| && AllPass(p, t, a[..k]) && exists j: nat, i: nat :: Reports(p, t, a[k], d, j, i);
      assert (a + b)[..k] == a[..k] && (a + b)[k] == a[k];
    }
    if AllPass(p, t, a) && FirstReport(p, t, b, d) {
      var k :| 0 <= k < |b| && AllPass(p, t, b[..k]) && exists j: nat, i: nat :: Reports(p, t, b[k], d, j, i);
      assert (a + b)[..|a| + k] == a + b[..k] && (a + b)[|a| + k] == b[k];
      AllPassSplit(p, t, a, b[..k]);
    }
  }

  /** A report, if any, is the first among the sites. */
  ghost predicate Foremost(p: Package, t: Tables, sites: seq<Site>, d: Option<Diagnostic>) {
    if d.Some? then FirstReport(p, t, sites, d.value) else AllPass(p, t, sites)
  }

  lemma ForemostOfBoth(p: Package, t: Tables, a: seq<Site>, b: seq<Site>, d: Option<Diagnostic>, e: Option<Diagnostic>)
    requires Foremost(p, t, a, d) && Foremost(p, t, b, e)
    ensures Foremost(p, t, a + b, Earlier(d, e))
  {
    hide AllPass, FirstReport;
    AllPassSplit(p, t, a, b);
    if d.Some? { ReportThere(p, t, a, b, d.value); } else if e.Some? { ReportThere(p, t, a, b, e.value); }
  }

  lemma OwnReport(p: Package, t: Tables, args: Exprs, inCond: bool, branches: seq<Branch>)
    ensures Foremost(p, t, if inCond then [] else [Site(args, branches)],
      if inCond then None else JudgeArgs(p, t, args, branches))
  {
    hide SitePasses, Reports, JudgeArgs;
    if !inCond {
      var site := Site(args, branches);
      JudgeArgsExact(p, t, args, branches);
      if JudgeArgs(p, t, args, branches).Some? {
        var j, i := ArgsReport(p, t, args, branches);
        assert [site][..0] == [] && [site][0] == site;
      }
    }
  }

  lemma {:induction false} ExprForemost(p: Package, t: Tables, e: Expr, inCond: bool, branches: seq<Branch>)
    ensures Foremost(p, t, SitesIn(e, inCond, branches), TargetExpr(p, t, e, inCond, branches))
    decreases e
  {
    hide Foremost, JudgeArgs;
    assert Foremost(p, t, [], None) by { NothingReported(p, t); }
    match e
    case Ident(_, _) =>
    case StringLit(_, _) =>
    case IntLit(_) =>
    case Paren(x) => ExprForemost(p, t, x, inCond, branches);
    case Star(x) => ExprForemost(p, t, x, inCond, branches);
    case Unary(_, x) => ExprForemost(p, t, x, inCond, branches);
    case Selector(x, _) => ExprForemost(p, t, x, inCond, branches);
    case Binary(_, x, y) =>
      ExprForemost(p, t, x, inCond, branches);
      ExprForemost(p, t, y, inCond, branches);
      ForemostOfBoth(p, t, SitesIn(x, inCond, branches), SitesIn(y, inCond, branches),
        TargetExpr(p, t, x, inCond, branches), TargetExpr(p, t, y, inCond, branches));
    case Call(fun, args) =>
      var own := if inCond then [] else [Site(args, branches)];
      var first := if inCond then None else JudgeArgs(p, t, args, branches);
      var second, third := TargetExpr(p, t, fun, inCond, branches), TargetExprs(p, t, args, inCond, branches);
      OwnReport(p, t, args, inCond, branches);
      ExprForemost(p, t, fun, inCond, branches);
      ExprsForemost(p, t, args, inCond, branches);
      ForemostOfBoth(p, t, own, SitesIn(fun, inCond, branches), first, second);
      ForemostOfBoth(p, t, own + SitesIn(fun, inCond, branches), SitesInAll(args, inCond, branches),
        Earlier(first, second), third);
    case Composite(_, elts) => ExprsForemost(p, t, elts, inCond, branches);
    case FuncLit(body) => StmtForemost(p, t, body, false, branches);
    case Other(parts) => ExprsForemost(p, t, parts, inCond, branches);
  }

  lemma NothingReported(p: Package, t: Tables)
    ensures Foremost(p, t, [], None)
  {
  }

  lemma {:induction false} ExprsForemost(p: Package, t: Tables, es: Exprs, inCond: bool, branches: seq<Branch>)
    ensures Foremost(p, t, SitesInAll(es, inCond, branches), TargetExprs(p, t, es, inCond, branches))
    decreases es
  {
    hide Foremost;
    if es.Nil? {
      NothingReported(p, t);
    } else {
      ExprForemost(p, t, es.head, inCond, branches);
      ExprsForemost(p, t, es.tail, inCond, branches);
      ForemostOfBoth(p, t, SitesIn(es.head, inCond, branches), SitesInAll(es.tail, inCond, branches),
        TargetExpr(p, t, es.head, inCond, branches), TargetExprs(p, t, es.tail, inCond, branches));
    }
  }

  lemma {:induction false} StmtForemost(p: Package, t: Tables, s: Stmt, inCond: bool, branches: seq<Branch>)
    ensures Foremost(p, t, Sites(s, inCond, branches), TargetStmt(p, t, s, inCond, branches))
    decreases s
  {
    hide Foremost;
    match s
    case Skip => NothingReported(p, t);
    case Seq(a, b) =>
      StmtForemost(p, t, a, inCond, branches);
      StmtForemost(p, t, b, inCond, branches);
      ForemostOfBoth(p, t, Sites(a, inCond, branches), Sites(b, inCond, branches),
        TargetStmt(p, t, a, inCond, branches), TargetStmt(p, t, b, inCond, branches));
    case Assign(_, _, lhs, rhs) =>
      ExprForemost(p, t, lhs, inCond, branches);
      ExprForemost(p, t, rhs, inCond, branches);
      ForemostOfBoth(p, t, SitesIn(lhs, inCond, branches), SitesIn(rhs, inCond, branches),
        TargetExpr(p, t, lhs, inCond, branches), TargetExpr(p, t, rhs, inCond, branches));
    case ExprStmt(e) => ExprForemost(p, t, e, inCond, branches);
    case IncDec(e) => ExprForemost(p, t, e, inCond, branches);
    case Return(e) => ExprForemost(p, t, e, inCond, branches);
    case If(_, init, cond, body, els) =>
      StmtForemost(p, t, init, inCond, branches);
      ExprForemost(p, t, cond, true, branches);
      StmtForemost(p, t, body, inCond, [Then(s)] + branches);
      StmtForemost(p, t, els, inCond, [Else(s)] + branches);
      var s1, s2 := Sites(init, inCond, branches), SitesIn(cond, true, branches);
      var s3, s4 := Sites(body, inCond, [Then(s)] + branches), Sites(els, inCond, [Else(s)] + branches);
      var d1, d2 := TargetStmt(p, t, init, inCond, branches), TargetExpr(p, t, cond, true, branches);
      var d3 := TargetStmt(p, t, body, inCond, [Then(s)] + branches);
      var d4 := TargetStmt(p, t, els, inCond, [Else(s)] + branches);
      ForemostOfBoth(p, t, s1, s2, d1, d2);
      ForemostOfBoth(p, t, s1 + s2, s3, Earlier(d1, d2), d3);
      ForemostOfBoth(p, t, s1 + s2 + s3, s4, Earlier(Earlier(d1, d2), d3), d4);
    case For(cond, body) =>
      ExprForemost(p, t, cond, inCond, branches);
      StmtForemost(p, t, body, inCond, branches);
      ForemostOfBoth(p, t, SitesIn(cond, inCond, branches), Sites(body, inCond, branches),
        TargetExpr(p, t, cond, inCond, branches), TargetStmt(p, t, body, inCond, branches));
  }

  /** Without a report every site passes; a report is about the first that does not, and names an if of the function. */
  lemma ReportExact(p: Package, fn: Function)
    ensures var t, sites, d := TablesOf(p, fn), Sites(fn.body, false, []), InspectTarget(p, fn);
      && (d.None? <==> AllPass(p, t, sites))
      && (d.Some? ==> FirstReport(p, t, sites, d.value))
      && FromIfs(sites, IfsOf(fn.body), [])
  {
    hide FromIfs, TargetStmt, Sites, IfsOf, AllPass, FirstReport;
    StmtForemost(p, TablesOf(p, fn), fn.body, false, []);
    StmtExact(p, TablesOf(p, fn), fn.body, false, []);
    SitesFromIfs(fn.body, false, []);
  }

  // ---- What passing means when the program runs ----

  lemma HelperOnSound(p: Package, w: World, t: Tables, b: Binding, e: Expr, st: State, fuel: nat)
    requires TypedTables(p, t) && StoreOk(p, t, b, TargetOnly, Contents(p, w, st)) && HelperOn(p, t, e, b).Some?
    requires HelperTarget(p, HelperOn(p, t, e, b).value) != Unknown
    ensures SoundAt(Eval(p, w, e, st, InCond, fuel), st, HelperTarget(p, HelperOn(p, t, e, b).value))
  {
    if fuel < 2 { return; }
    var fn := HelperOn(p, t, e, b).value;
    OneArgument(p, w, e.args, st, InCond, fuel - 2);
    if fuel > 3 {
      var r := Eval(p, w, e.args.head, st, InCond, fuel - 3);
      ResolveEval(p, w, t, b, TargetOnly, e.args.head, st, InCond, fuel - 3);
      if r.Ok? { HelperSound(p, w, fn, b, TargetOnly, r.v.fields, st, fuel - 2); }
    }
    assert Eval(p, w, e, st, InCond, fuel) == EvalCall(p, w, e, st, InCond, fuel - 1);
  }

  /**
   When the inspection accepts a function, every if around a client construction that depends
   on the binding leads to the construction, in every state where the binding is target-only:
   its condition evaluates to the branch's side, or gets stuck, without any effect.
   */
  lemma AcceptedTakesBranch(p: Package, w: World, fn: Function, site: Site, a: Expr, branch: Branch, b: Binding,
    st: State, fuel: nat)
    requires SensibleTypes(p) && WellDeclared(p, fn) && InspectTarget(p, fn).None?
    requires site in Sites(fn.body, false, []) && a in Arguments(site.args) && branch in site.branches
    requires Resolve(p, TablesOf(p, fn), a) == Some(b) && TargetVerdict(p, TablesOf(p, fn), branch.cond, b).1
    requires StoreOk(p, TablesOf(p, fn), b, TargetOnly, Contents(p, w, st))
    ensures SoundAt(Eval(p, w, branch.cond, st, InCond, fuel), st, if branch.taken then IsTrue else IsFalse)
  {
    var t := TablesOf(p, fn);
    DeclaredTyped(p, fn);
    StmtExact(p, t, fn.body, false, []);
    assert SitePasses(p, t, site);
    assert Passes(p, t, branch, b);
    TargetLookupSound(p, w, t, b, st);
    EvaluateIsSound(p, w, branch.cond, st, InCond, TargetLookup(p, t, b), fuel);
  }

  lemma TargetLookupSound(p: Package, w: World, t: Tables, b: Binding, st: State)
    requires TypedTables(p, t) && StoreOk(p, t, b, TargetOnly, Contents(p, w, st))
    ensures SoundLookup(p, w, st, InCond, TargetLookup(p, t, b))
  {
    LookupSound(p, w, t, b, TargetOnly, st);
    forall e, fuel: nat | TargetLookup(p, t, b)(e).0 != Unknown
      ensures SoundAt(Eval(p, w, e, st, InCond, fuel), st, TargetLookup(p, t, b)(e).0)
    {
      if HelperOn(p, t, e, b).Some? {
        HelperOnSound(p, w, t, b, e, st, fuel);
      } else {
        assert BindingLookup(p, t, b, TargetOnly)(e) == TargetLookup(p, t, b)(e);
      }
    }
  }
}
