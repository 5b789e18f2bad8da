/**
 The inspection that certifies a function for disabled bindings: every expression that
 denotes a binding must be the definition of an alias, or sit in an if-condition that is
 false for a blank binding, or below a branch such a condition keeps from running.
 */
module RpcCertifier {
  import opened Options
  import opened GoSyntax
  import opened RpcGuards
  import opened RpcAliases

  /** The ancestors of a node that matter to the inspection, innermost first. */
  datatype Context =
    | Top
    | AssignLhs(outer: Context)
    | AssignRhs(outer: Context)
    | InIncDec(outer: Context)
    | InCondition(cond: Expr, outer: Context)
    | InThen(cond: Expr, outer: Context)
    | InElse(cond: Expr, outer: Context)
    | InFuncLit(outer: Context)

  /** Whether the node lies on the left of its nearest assignment. */
  predicate AssignmentTarget(c: Context) {
    match c
    case Top => false
    case AssignLhs(_) => true
    case InIncDec(_) => true
    case AssignRhs(_) => false
    case _ => AssignmentTarget(c.outer)
  }

  /** The if-condition a node belongs to, unless a function literal comes between. */
  function ContainingCondition(c: Context): Option<Expr> {
    match c
    case Top => None
    case InFuncLit(_) => None
    case InCondition(cond, _) => Some(cond)
    case _ => ContainingCondition(c.outer)
  }

  /** Whether a call hands the binding to a proven helper, and nothing else is in the condition. */
  predicate ProvenHelperCall(p: Package, t: Tables, e: Expr, b: Binding) {
    e.Call? && e.args.Cons? && e.args.tail.Nil? && p.Callee(e.fun).Some?
    && ValidHelper(p, p.Callee(e.fun).value) && Resolve(p, t, e.args.head) == Some(b)
  }

  function BindingLookup(p: Package, t: Tables, b: Binding, profile: Profile): Lookup {
    e => FieldVerdict(profile, FieldPath(p, t, e, b))
  }

  function EvaluateCondition(p: Package, t: Tables, cond: Expr, b: Binding): (Verdict, bool) {
    if ProvenHelperCall(p, t, cond, b) then (IsFalse, true)
    else Evaluate(cond, BindingLookup(p, t, b, Blank), !p.ShadowsLen())
  }

  predicate UseGuarded(p: Package, t: Tables, b: Binding, c: Context) {
    match c
    case Top => false
    case InFuncLit(_) => false
    case InThen(cond, outer) => EvaluateCondition(p, t, cond, b) == (IsFalse, true) || UseGuarded(p, t, b, outer)
    case InElse(cond, outer) => EvaluateCondition(p, t, cond, b) == (IsTrue, true) || UseGuarded(p, t, b, outer)
    case _ => UseGuarded(p, t, b, c.outer)
  }

  datatype Failure = Mutated | UnknownGuard | Unguarded | UnresolvedReceiver

  function JudgeNode(p: Package, t: Tables, e: Expr, c: Context): Option<Failure> {
    var binding := Resolve(p, t, e);
    if binding.None? then
      if e.Selector? && p.IsBindingField(e.sel) then Some(UnresolvedReceiver) else None
    else if AssignmentTarget(c) then Some(Mutated)
    else if ContainingCondition(c).Some? then
      if EvaluateCondition(p, t, ContainingCondition(c).value, binding.value) == (IsFalse, true) then None
      else Some(UnknownGuard)
    else if UseGuarded(p, t, binding.value, c) then None
    else Some(Unguarded)
  }

  function Or(first: Option<Failure>, second: Option<Failure>): Option<Failure> {
    if first.Some? then first else second
  }

  function InspectExpr(p: Package, t: Tables, e: Expr, c: Context): Option<Failure>
    decreases e, 1
  {
    Or(JudgeNode(p, t, e, c), InspectParts(p, t, e, c))
  }

  function InspectParts(p: Package, t: Tables, e: Expr, c: Context): Option<Failure>
    decreases e, 0
  {
    match e
    case Ident(_, _) => None
    case StringLit(_, _) => None
    case IntLit(_) => None
    case Paren(x) => InspectExpr(p, t, x, c)
    case Star(x) => InspectExpr(p, t, x, c)
    case Unary(_, x) => InspectExpr(p, t, x, c)
    case Selector(x, _) => InspectExpr(p, t, x, c)
    case Binary(_, x, y) => Or(InspectExpr(p, t, x, c), InspectExpr(p, t, y, c))
    case Call(fun, args) => Or(InspectExpr(p, t, fun, c), InspectAll(p, t, args, c))
    case Composite(_, elts) => InspectAll(p, t, elts, c)
    case FuncLit(body) => InspectStmt(p, t, body, InFuncLit(c))
    case Other(parts) => InspectAll(p, t, parts, c)
  }

  function InspectAll(p: Package, t: Tables, es: Exprs, c: Context): Option<Failure>
    decreases es, 1
  {
    if es.Nil? then None else Or(InspectExpr(p, t, es.head, c), InspectAll(p, t, es.tail, c))
  }

  /** The assignment that made its left side an alias: both sides are exempt as nodes. */
  predicate AliasDefinition(t: Tables, s: Stmt) {
    s.Assign? && s.lhs.Ident? && s.lhs.obj.Some?
    && s.lhs.obj.value in t.aliases && t.aliases[s.lhs.obj.value].def == s
  }

  function InspectStmt(p: Package, t: Tables, s: Stmt, c: Context): Option<Failure>
    decreases s, 1
  {
    match s
    case Skip => None
    case Seq(a, b) => Or(InspectStmt(p, t, a, c), InspectStmt(p, t, b, c))
    case Assign(_, kind, lhs, rhs) =>
      var left := if kind.VarDecl? then c else AssignLhs(c);
      var right := if kind.VarDecl? then c else AssignRhs(c);
      if AliasDefinition(t, s) then InspectParts(p, t, rhs, right)
      else Or(InspectExpr(p, t, lhs, left), InspectExpr(p, t, rhs, right))
    case ExprStmt(e) => InspectExpr(p, t, e, c)
    case IncDec(e) => InspectExpr(p, t, e, InIncDec(c))
    case Return(e) => InspectExpr(p, t, e, c)
    case If(_, init, cond, body, els) =>
      Or(InspectStmt(p, t, init, c), Or(InspectExpr(p, t, cond, InCondition(cond, c)),
         Or(InspectStmt(p, t, body, InThen(cond, c)), InspectStmt(p, t, els, InElse(cond, c)))))
    case For(cond, body) => Or(InspectExpr(p, t, cond, c), InspectStmt(p, t, body, c))
  }

  /** An alias assigned anywhere but in the statement that defined it. */
  predicate Reassigns(t: Tables, s: Stmt) {
    s.Assign? && !s.kind.VarDecl? && s.lhs.Ident? && s.lhs.obj.Some?
    && s.lhs.obj.value in t.aliases && t.aliases[s.lhs.obj.value].def != s
  }

  function JudgeFunction(p: Package, t: Tables, fn: Function): Option<Failure> {
    if exists s :: s in AssignsOf(fn.body) && Reassigns(t, s) then Some(Mutated)
    else InspectStmt(p, t, fn.body, Top)
  }

  /** Inspects one function: fills its tables, looks for mutated aliases, then judges every node. */
  method InspectFunction(p: Package, fn: Function) returns (failure: Option<Failure>)
    ensures failure == JudgeFunction(p, TablesOf(p, fn), fn)
  {
    var t := BuildTables(p, fn);
    var stmts := AssignsOf(fn.body);
    var i := 0;
    while i < |stmts|
      invariant 0 <= i <= |stmts|
      invariant forall j | 0 <= j < i :: !Reassigns(t, stmts[j])
    {
      if Reassigns(t, stmts[i]) { return Some(Mutated); }
      i := i + 1;
    }
    failure := InspectStmt(p, t, fn.body, Top);
  }

  predicate Accepted(p: Package, fn: Function) {
    JudgeFunction(p, TablesOf(p, fn), fn).None?
  }
}
