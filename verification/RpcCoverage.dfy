/**
 What the certification accepts, told from a list of all nodes of a function with what lies above each
 of them, and from the values of the guards. The inspection itself does not occur in the conditions.
 */
module RpcCoverage {
  import opened Options
  import opened GoSyntax
  import opened GoSemantics
  import opened RpcGuards
  import opened RpcAliases
  import opened RpcCertifier
  import opened RpcTarget
  import opened RpcDecisions

  /** What a node may be part of: a side of an assignment, a condition or branch of an if, a function literal. */
  datatype Above =
    | OnLeft
    | OnRight
    | Incremented
    | Tested(cond: Expr)
    | Chosen(cond: Expr, taken: bool)
    | Enclosed

  /** An expression and what lies above it, outermost first. */
  datatype Node = Node(e: Expr, above: seq<Above>)

  function NodesIn(t: Tables, e: Expr, above: seq<Above>): seq<Node>
    decreases e, 1
  {
    [Node(e, above)] + Below(t, e, above)
  }

  function Below(t: Tables, e: Expr, above: seq<Above>): seq<Node>
    decreases e, 0
  {
    match e
    case Ident(_, _) => []
    case StringLit(_, _) => []
    case IntLit(_) => []
    case Paren(x) => NodesIn(t, x, above)
    case Star(x) => NodesIn(t, x, above)
    case Unary(_, x) => NodesIn(t, x, above)
    case Selector(x, _) => NodesIn(t, x, above)
    case Binary(_, x, y) => NodesIn(t, x, above) + NodesIn(t, y, above)
    case Call(fun, args) => NodesIn(t, fun, above) + NodesInAll(t, args, above)
    case Composite(_, elts) => NodesInAll(t, elts, above)
    case FuncLit(body) => Nodes(t, body, above + [Enclosed])
    case Other(parts) => NodesInAll(t, parts, above)
  }

  function NodesInAll(t: Tables, es: Exprs, above: seq<Above>): seq<Node>
    decreases es, 1
  {
    if es.Nil? then [] else NodesIn(t, es.head, above) + NodesInAll(t, es.tail, above)
  }

  /** All nodes of a statement, less the two sides of the definition of an alias. */
  function Nodes(t: Tables, s: Stmt, above: seq<Above>): seq<Node>
    decreases s, 1
  {
    match s
    case Skip => []
    case Seq(a, b) => Nodes(t, a, above) + Nodes(t, b, above)
    case Assign(_, kind, lhs, rhs) =>
      var right := if kind.VarDecl? then above else above + [OnRight];
      if lhs.Ident? && lhs.obj.Some? && lhs.obj.value in t.aliases && t.aliases[lhs.obj.value].def == s
      then Below(t, rhs, right)
      else NodesIn(t, lhs, if kind.VarDecl? then above else above + [OnLeft]) + NodesIn(t, rhs, right)
    case ExprStmt(e) => NodesIn(t, e, above)
    case IncDec(e) => NodesIn(t, e, above + [Incremented])
    case Return(e) => NodesIn(t, e, above)
    case If(_, init, cond, body, els) =>
      Nodes(t, init, above) + NodesIn(t, cond, above + [Tested(cond)])
      + Nodes(t, body, above + [Chosen(cond, true)]) + Nodes(t, els, above + [Chosen(cond, false)])
    case For(cond, body) => NodesIn(t, cond, above) + Nodes(t, body, above)
  }

  // ---- When a node does no harm ----

  /** The nearest assignment above has the node on its left, or increments it. */
  ghost predicate Written(above: seq<Above>) {
    exists i | 0 <= i < |above| ::
      (above[i].OnLeft? || above[i].Incremented?) && forall j | i < j < |above| :: !above[j].OnRight?
  }

  /** No function literal lies between. */
  ghost predicate Near(above: seq<Above>, i: nat)
    requires i < |above|
  {
    forall j | i < j < |above| :: !above[j].Enclosed?
  }

  /** The condition the node belongs to. */
  ghost predicate InCondition(above: seq<Above>, i: nat)
    requires i < |above|
  {
    above[i].Tested? && Near(above, i) && forall j | i < j < |above| :: !above[j].Tested?
  }

  ghost predicate InSomeCondition(above: seq<Above>) {
    exists i | 0 <= i < |above| :: InCondition(above, i)
  }

  /** The inspection finds the condition to have this value while the binding is blank. */
  predicate Found(p: Package, t: Tables, cond: Expr, b: Binding, value: bool) {
    EvaluateCondition(p, t, cond, b) == (if value then IsTrue else IsFalse, true)
  }

  /** The node lies below a branch that a condition keeps from running. */
  ghost predicate Excluded(p: Package, t: Tables, b: Binding, above: seq<Above>) {
    exists i | 0 <= i < |above| && above[i].Chosen? ::
      Near(above, i) && Found(p, t, above[i].cond, b, !above[i].taken)
  }

  /** Nodes that denote no binding must not look like one, all others must not run while it is blank. */
  ghost predicate Harmless(p: Package, t: Tables, node: Node) {
    var b := Resolve(p, t, node.e);
    if b.None? then !(node.e.Selector? && p.IsBindingField(node.e.sel))
    else
      && !Written(node.above)
      && if InSomeCondition(node.above)
         then forall i | 0 <= i < |node.above| && InCondition(node.above, i) ::
           Found(p, t, node.above[i].cond, b.value, false)
         else Excluded(p, t, b.value, node.above)
  }

  // ---- The inspection's own view of what lies above ----

  function Within(a: Above, outer: Context): Context {
    match a
    case OnLeft => AssignLhs(outer)
    case OnRight => AssignRhs(outer)
    case Incremented => InIncDec(outer)
    case Tested(cond) => Context.InCondition(cond, outer)
    case Chosen(cond, taken) => if taken then InThen(cond, outer) else InElse(cond, outer)
    case Enclosed => InFuncLit(outer)
  }

  function ContextOf(above: seq<Above>): Context {
    if above == [] then Top else Within(above[|above| - 1], ContextOf(above[..|above| - 1]))
  }

  lemma ContextMore(above: seq<Above>, a: Above)
    ensures ContextOf(above + [a]) == Within(a, ContextOf(above))
  {
    assert (above + [a])[..|above + [a]| - 1] == above;
  }

  lemma {:induction false} WrittenExact(above: seq<Above>)
    ensures AssignmentTarget(ContextOf(above)) <==> Written(above)
  {
    if above != [] {
      var n := |above| - 1;
      var init := above[..n];
      WrittenExact(init);
      if above[n].OnLeft? || above[n].Incremented? {
        assert Written(above);
      } else if above[n].OnRight? {
      } else {
        assert Written(above) <==> Written(init) by { WrittenSame(above); }
      }
    }
  }

  lemma WrittenSame(above: seq<Above>)
    requires above != [] && !above[|above| - 1].OnLeft? && !above[|above| - 1].Incremented?
    requires !above[|above| - 1].OnRight?
    ensures Written(above) <==> Written(above[..|above| - 1])
  {
    var init := above[..|above| - 1];
    if Written(above) {
      var i :| 0 <= i < |above| && (above[i].OnLeft? || above[i].Incremented?)
        && forall j | i < j < |above| :: !above[j].OnRight?;
      assert init[i] == above[i] && forall j | i < j < |init| :: init[j] == above[j];
    }
    if Written(init) {
      var i :| 0 <= i < |init| && (init[i].OnLeft? || init[i].Incremented?)
        && forall j | i < j < |init| :: !init[j].OnRight?;
      assert above[i] == init[i] && forall j | i < j < |init| :: init[j] == above[j];
    }
  }

  lemma {:induction false} ConditionExact(above: seq<Above>)
    ensures ContainingCondition(ContextOf(above)).Some? <==> InSomeCondition(above)
    ensures forall i | 0 <= i < |above| && InCondition(above, i) ::
      ContainingCondition(ContextOf(above)) == Some(above[i].cond)
  {
    if above != [] {
      var n := |above| - 1;
      ConditionExact(above[..n]);
      if above[n].Tested? {
        assert InCondition(above, n);
      } else {
        forall i | 0 <= i < n ensures InCondition(above, i) <==> !above[n].Enclosed? && InCondition(above[..n], i) {
          InConditionBefore(above, i);
        }
      }
    }
  }

  lemma InConditionBefore(above: seq<Above>, i: nat)
    requires i < |above| - 1
    ensures var n := |above| - 1;
      InCondition(above, i) <==> !above[n].Enclosed? && !above[n].Tested? && InCondition(above[..n], i)
    ensures var n := |above| - 1; Near(above, i) <==> !above[n].Enclosed? && Near(above[..n], i)
  {
    var n := |above| - 1;
    assert forall j | i <= j < n :: above[..n][j] == above[j];
  }

  lemma {:induction false} ExcludedExact(p: Package, t: Tables, b: Binding, above: seq<Above>)
    ensures UseGuarded(p, t, b, ContextOf(above)) <==> Excluded(p, t, b, above)
  {
    hide EvaluateCondition;
    if above != [] {
      var n := |above| - 1;
      ExcludedExact(p, t, b, above[..n]);
      forall i | 0 <= i < n ensures Near(above, i) <==> !above[n].Enclosed? && Near(above[..n], i) {
        InConditionBefore(above, i);
      }
      if above[n].Chosen? && Found(p, t, above[n].cond, b, !above[n].taken) {
        assert Near(above, n);
      } else {
        ExcludedBefore(p, t, b, above);
      }
    }
  }

  lemma ExcludedBefore(p: Package, t: Tables, b: Binding, above: seq<Above>)
    requires above != []
    requires var n := |above| - 1;
      && !(above[n].Chosen? && Found(p, t, above[n].cond, b, !above[n].taken))
      && forall i | 0 <= i < n :: Near(above, i) <==> !above[n].Enclosed? && Near(above[..n], i)
    ensures var n := |above| - 1; Excluded(p, t, b, above) <==> !above[n].Enclosed? && Excluded(p, t, b, above[..n])
  {
    hide Found, Near;
    var n := |above| - 1;
    var init := above[..n];
    if Excluded(p, t, b, above) {
      var i :| 0 <= i < |above| && above[i].Chosen? && Near(above, i) && Found(p, t, above[i].cond, b, !above[i].taken);
      assert init[i] == above[i];
    }
    if !above[n].Enclosed? && Excluded(p, t, b, init) {
      var i :| 0 <= i < |init| && init[i].Chosen? && Near(init, i) && Found(p, t, init[i].cond, b, !init[i].taken);
      assert above[i] == init[i];
    }
  }

  lemma NodeExact(p: Package, t: Tables, e: Expr, above: seq<Above>)
    ensures JudgeNode(p, t, e, ContextOf(above)).None? <==> Harmless(p, t, Node(e, above))
  {
    hide EvaluateCondition, ContextOf, ContainingCondition, UseGuarded, AssignmentTarget, Excluded, Written, Resolve;
    var b := Resolve(p, t, e);
    if b.Some? {
      WrittenExact(above);
      ConditionExact(above);
      ExcludedExact(p, t, b.value, above);
    }
  }

  ghost predicate AllHarmless(p: Package, t: Tables, nodes: seq<Node>) {
    forall node | node in nodes :: Harmless(p, t, node)
  }

  lemma HarmlessSplit(p: Package, t: Tables, a: seq<Node>, b: seq<Node>)
    ensures AllHarmless(p, t, a + b) <==> AllHarmless(p, t, a) && AllHarmless(p, t, b)
  {
    hide Harmless;
    assert forall x | x in a || x in b :: x in a + b;
  }

  lemma {:induction false} ExprExact(p: Package, t: Tables, e: Expr, above: seq<Above>)
    ensures InspectExpr(p, t, e, ContextOf(above)).None? <==> AllHarmless(p, t, NodesIn(t, e, above))
    decreases e, 1
  {
    hide Harmless, JudgeNode, ContextOf, InspectParts, Below;
    NodeExact(p, t, e, above);
    PartsExact(p, t, e, above);
    HarmlessSplit(p, t, [Node(e, above)], Below(t, e, above));
    assert AllHarmless(p, t, [Node(e, above)]) <==> Harmless(p, t, Node(e, above)) by {
      assert Node(e, above) in [Node(e, above)];
    }
  }

  lemma {:induction false} PartsExact(p: Package, t: Tables, e: Expr, above: seq<Above>)
    ensures InspectParts(p, t, e, ContextOf(above)).None? <==> AllHarmless(p, t, Below(t, e, above))
    decreases e, 0
  {
    hide Harmless, ContextOf, InspectExpr, InspectAll, InspectStmt, NodesIn, NodesInAll, Nodes, AllHarmless;
    NothingHarms(p, t);
    match e
    case Ident(_, _) =>
    case StringLit(_, _) =>
    case IntLit(_) =>
    case Paren(x) => ExprExact(p, t, x, above);
    case Star(x) => ExprExact(p, t, x, above);
    case Unary(_, x) => ExprExact(p, t, x, above);
    case Selector(x, _) => ExprExact(p, t, x, above);
    case Binary(_, x, y) =>
      ExprExact(p, t, x, above);
      ExprExact(p, t, y, above);
      HarmlessSplit(p, t, NodesIn(t, x, above), NodesIn(t, y, above));
    case Call(fun, args) =>
      ExprExact(p, t, fun, above);
      ExprsExact(p, t, args, above);
      HarmlessSplit(p, t, NodesIn(t, fun, above), NodesInAll(t, args, above));
    case Composite(_, elts) => ExprsExact(p, t, elts, above);
    case FuncLit(body) =>
      ContextMore(above, Enclosed);
      StmtExact(p, t, body, above + [Enclosed]);
    case Other(parts) => ExprsExact(p, t, parts, above);
  }

  lemma NothingHarms(p: Package, t: Tables)
    ensures AllHarmless(p, t, [])
  {
  }

  lemma {:induction false} ExprsExact(p: Package, t: Tables, es: Exprs, above: seq<Above>)
    ensures InspectAll(p, t, es, ContextOf(above)).None? <==> AllHarmless(p, t, NodesInAll(t, es, above))
    decreases es, 1
  {
    hide Harmless, ContextOf, InspectExpr, NodesIn, AllHarmless;
    NothingHarms(p, t);
    if es.Cons? {
      ExprExact(p, t, es.head, above);
      ExprsExact(p, t, es.tail, above);
      HarmlessSplit(p, t, NodesIn(t, es.head, above), NodesInAll(t, es.tail, above));
    }
  }

  lemma {:induction false} StmtExact(p: Package, t: Tables, s: Stmt, above: seq<Above>)
    ensures InspectStmt(p, t, s, ContextOf(above)).None? <==> AllHarmless(p, t, Nodes(t, s, above))
    decreases s, 1
  {
    hide Harmless, ContextOf, InspectExpr, InspectParts, NodesIn, Below, AllHarmless;
    NothingHarms(p, t);
    match s
    case Skip =>
    case Seq(a, b) =>
      StmtExact(p, t, a, above);
      StmtExact(p, t, b, above);
      HarmlessSplit(p, t, Nodes(t, a, above), Nodes(t, b, above));
    case Assign(_, kind, lhs, rhs) =>
      ContextMore(above, OnLeft);
      ContextMore(above, OnRight);
      var left := if kind.VarDecl? then above else above + [OnLeft];
      var right := if kind.VarDecl? then above else above + [OnRight];
      ExprExact(p, t, lhs, left);
      if AliasDefinition(t, s) { PartsExact(p, t, rhs, right); } else { ExprExact(p, t, rhs, right); }
      HarmlessSplit(p, t, NodesIn(t, lhs, left), NodesIn(t, rhs, right));
    case ExprStmt(e) => ExprExact(p, t, e, above);
    case IncDec(e) =>
      ContextMore(above, Incremented);
      ExprExact(p, t, e, above + [Incremented]);
    case Return(e) => ExprExact(p, t, e, above);
    case If(_, _, _, _, _) => IfExact(p, t, s, above);
    case For(cond, body) =>
      ExprExact(p, t, cond, above);
      StmtExact(p, t, body, above);
      HarmlessSplit(p, t, NodesIn(t, cond, above), Nodes(t, body, above));
  }

  lemma {:induction false} IfExact(p: Package, t: Tables, s: Stmt, above: seq<Above>)
    requires s.If?
    ensures InspectStmt(p, t, s, ContextOf(above)).None? <==> AllHarmless(p, t, Nodes(t, s, above))
    decreases s, 0
  {
    hide Harmless, ContextOf, InspectExpr, NodesIn, AllHarmless;
    var cond := s.cond;
    var chosen, other := above + [Chosen(cond, true)], above + [Chosen(cond, false)];
    ContextMore(above, Tested(cond));
    ContextMore(above, Chosen(cond, true));
    ContextMore(above, Chosen(cond, false));
    StmtExact(p, t, s.init, above);
    ExprExact(p, t, cond, above + [Tested(cond)]);
    StmtExact(p, t, s.body, chosen);
    StmtExact(p, t, s.els, other);
    var first, second := Nodes(t, s.init, above), NodesIn(t, cond, above + [Tested(cond)]);
    HarmlessSplit(p, t, first, second);
    HarmlessSplit(p, t, first + second, Nodes(t, s.body, chosen));
    HarmlessSplit(p, t, first + second + Nodes(t, s.body, chosen), Nodes(t, s.els, other));
  }

  /** Aliases are assigned by the statement that defines them only. */
  ghost predicate AliasesStay(t: Tables, stmts: seq<Stmt>) {
    forall s | s in stmts && s.Assign? && (s.kind.Define? || s.kind.Plain?) && s.lhs.Ident? && s.lhs.obj.Some?
      && s.lhs.obj.value in t.aliases :: t.aliases[s.lhs.obj.value].def == s
  }

  /** The certification, exactly: no alias is assigned again, and every node does no harm. */
  lemma CertifiedExactly(p: Package, fn: Function)
    ensures Accepted(p, fn) <==>
      && AliasesStay(TablesOf(p, fn), AssignsOf(fn.body))
      && forall node | node in Nodes(TablesOf(p, fn), fn.body, []) :: Harmless(p, TablesOf(p, fn), node)
  {
    hide Harmless, InspectStmt, Nodes, TablesOf;
    StmtExact(p, TablesOf(p, fn), fn.body, []);
    forall s ensures Reassigns(TablesOf(p, fn), s) <==>
      && s.Assign? && (s.kind.Define? || s.kind.Plain?) && s.lhs.Ident? && s.lhs.obj.Some?
      && s.lhs.obj.value in TablesOf(p, fn).aliases && TablesOf(p, fn).aliases[s.lhs.obj.value].def != s {}
    hide Reassigns;
  }

  // ---- Guards of the grammar suffice ----

  function ClientPath(p: Package, t: Tables, b: Binding): Expr -> Option<seq<string>> {
    e => FieldPath(p, t, e, b)
  }

  /**
   A guard over the fields of the binding that has this value while nothing is set; or, for false, the
   call of a helper whose body is such a guard on the binding.
   */
  ghost predicate Settles(p: Package, t: Tables, cond: Expr, b: Binding, value: bool) {
    var leaf := FieldLeaf(ClientPath(p, t, b), "");
    || (Guard(cond, leaf, !p.ShadowsLen()) && Mentions(cond, leaf) && Denotes(cond, leaf) == VBool(value))
    || (!value && cond.Call? && cond.args.Cons? && cond.args.tail.Nil? && Resolve(p, t, cond.args.head) == Some(b)
        && p.Callee(cond.fun).Some?
        && var fn := p.Callee(cond.fun).value;
        && GuardHelper(p, fn, "")
        && Mentions(fn.body.e, FieldLeaf(ParamPath(fn), ""))
        && Denotes(fn.body.e, FieldLeaf(ParamPath(fn), "")) == VBool(false))
  }

  lemma SettledIsFound(p: Package, t: Tables, cond: Expr, b: Binding, value: bool)
    requires Settles(p, t, cond, b, value)
    ensures Found(p, t, cond, b, value)
  {
    hide Evaluate, Resolve, FieldPath, Denotes, Mentions, SelectorPath;
    var leaf := FieldLeaf(ClientPath(p, t, b), "");
    if Guard(cond, leaf, !p.ShadowsLen()) && Mentions(cond, leaf) && Denotes(cond, leaf) == VBool(value) {
      GuardFound(p, t, cond, b);
    } else {
      HelperDecides(p, p.Callee(cond.fun).value, "");
    }
  }

  lemma GuardFound(p: Package, t: Tables, cond: Expr, b: Binding)
    requires Guard(cond, FieldLeaf(ClientPath(p, t, b), ""), !p.ShadowsLen())
    ensures var leaf := FieldLeaf(ClientPath(p, t, b), "");
      && Denotes(cond, leaf).VBool?
      && EvaluateCondition(p, t, cond, b) == (if Denotes(cond, leaf).b then IsTrue else IsFalse, Mentions(cond, leaf))
  {
    hide Evaluate, Denotes, Mentions;
    var leaf := FieldLeaf(ClientPath(p, t, b), "");
    assert !cond.Call? by { GuardIsNoCall(p, t, cond, b); }
    FieldsAnswer(ClientPath(p, t, b), "", BindingLookup(p, t, b, Blank));
    EvaluateDecides(cond, leaf, BindingLookup(p, t, b, Blank), !p.ShadowsLen());
  }

  lemma GuardIsNoCall(p: Package, t: Tables, cond: Expr, b: Binding)
    requires Guard(cond, FieldLeaf(ClientPath(p, t, b), ""), !p.ShadowsLen())
    ensures !cond.Call?
  {
  }

  /** A function is certified once all its uses sit in, or below, conditions that such guards settle. */
  lemma GuardedIsAccepted(p: Package, fn: Function)
    requires AliasesStay(TablesOf(p, fn), AssignsOf(fn.body))
    requires var t := TablesOf(p, fn); forall node | node in Nodes(t, fn.body, []) ::
      var b := Resolve(p, t, node.e);
      if b.None? then !(node.e.Selector? && p.IsBindingField(node.e.sel))
      else
        && !Written(node.above)
        && if InSomeCondition(node.above)
           then forall i | 0 <= i < |node.above| && InCondition(node.above, i) ::
             Settles(p, t, node.above[i].cond, b.value, false)
           else exists i | 0 <= i < |node.above| && node.above[i].Chosen? ::
             Near(node.above, i) && Settles(p, t, node.above[i].cond, b.value, !node.above[i].taken)
    ensures Accepted(p, fn)
  {
    hide Settles, Found, Nodes, Written, Resolve, Accepted, Near, AliasesStay;
    var t := TablesOf(p, fn);
    forall node | node in Nodes(t, fn.body, []) ensures Harmless(p, t, node) {
      var b := Resolve(p, t, node.e);
      if b.Some? {
        if InSomeCondition(node.above) {
          forall i | 0 <= i < |node.above| && InCondition(node.above, i)
            ensures Found(p, t, node.above[i].cond, b.value, false)
          {
            SettledIsFound(p, t, node.above[i].cond, b.value, false);
          }
        } else {
          var i :| 0 <= i < |node.above| && node.above[i].Chosen? && Near(node.above, i)
            && Settles(p, t, node.above[i].cond, b.value, !node.above[i].taken);
          SettledIsFound(p, t, node.above[i].cond, b.value, !node.above[i].taken);
        }
      }
    }
    CertifiedExactly(p, fn);
  }

  // ---- Target-only configurations ----

  /** The fields of the binding while only its target is set, and the values of guard helpers called on it. */
  function TargetLeaf(p: Package, t: Tables, b: Binding, target: string): Leaf {
    e =>
      var helper := HelperOn(p, t, e, b);
      if helper.None? then FieldLeaf(ClientPath(p, t, b), target)(e)
      else if GuardHelper(p, helper.value, target)
        then Some(Denotes(helper.value.body.e, FieldLeaf(ParamPath(helper.value), target)))
      else None
  }

  lemma TargetLeafIs(p: Package, t: Tables, b: Binding, target: string, e: Expr)
    ensures var helper, path := HelperOn(p, t, e, b), FieldPath(p, t, e, b);
      TargetLeaf(p, t, b, target)(e) ==
        if helper.Some? then
          if GuardHelper(p, helper.value, target)
          then Some(Denotes(helper.value.body.e, FieldLeaf(ParamPath(helper.value), target))) else None
        else if path.Some? then FieldValue(path.value, target) else None
  {
    hide Denotes, GuardHelper, ParamPath;
    var path := ClientPath(p, t, b);
    assert path(e) == FieldPath(p, t, e, b);
    assert FieldLeaf(path, target)(e) == if path(e).Some? then FieldValue(path(e).value, target) else None;
  }

  lemma TargetLookupAnswers(p: Package, t: Tables, b: Binding, target: string)
    requires target != ""
    ensures Answers(TargetLookup(p, t, b), TargetLeaf(p, t, b, target))
  {
    hide Resolve, FieldPath, Denotes, HelperTarget, HelperVerdict, FieldVerdict, FieldValue, GuardHelper, ParamPath;
    var lookup, leaf := TargetLookup(p, t, b), TargetLeaf(p, t, b, target);
    forall e | leaf(e).Some? ensures lookup(e) == (VerdictFor(leaf(e).value), true) {
      TargetLeafIs(p, t, b, target, e);
      if HelperOn(p, t, e, b).Some? {
        HelperTargetKnown(p, HelperOn(p, t, e, b).value, target);
      } else {
        FieldKnown(FieldPath(p, t, e, b).value, target);
      }
    }
    forall e | CountsBlank(e, leaf, true) ensures leaf(e).None? { LenHasNoLeaf(p, t, b, target, e); }
  }

  lemma HelperTargetKnown(p: Package, fn: Function, target: string)
    requires target != "" && GuardHelper(p, fn, target)
    ensures HelperTarget(p, fn) == VerdictFor(Denotes(fn.body.e, FieldLeaf(ParamPath(fn), target)))
  {
    HelperDecides(p, fn, target);
  }

  lemma LenHasNoLeaf(p: Package, t: Tables, b: Binding, target: string, e: Expr)
    requires CountsBlank(e, TargetLeaf(p, t, b, target), true)
    ensures TargetLeaf(p, t, b, target)(e).None?
  {
    hide Denotes, SelectorPath;
    var head := e.args.head;
    TargetLeafIs(p, t, b, target, head);
    TargetLeafIs(p, t, b, target, e);
    if HelperOn(p, t, head, b).Some? { HelperDecides(p, HelperOn(p, t, head, b).value, target); }
    assert FieldPath(p, t, head, b).Some? && FieldPath(p, t, head, b).value != [] by {
      assert FieldValue([], target).None?;
    }
  }

  lemma TargetDecides(p: Package, t: Tables, cond: Expr, b: Binding, target: string)
    requires target != "" && Guard(cond, TargetLeaf(p, t, b, target), !p.ShadowsLen())
    ensures var leaf := TargetLeaf(p, t, b, target);
      && Denotes(cond, leaf).VBool?
      && TargetVerdict(p, t, cond, b) == (if Denotes(cond, leaf).b then IsTrue else IsFalse, Mentions(cond, leaf))
  {
    hide Evaluate, Denotes, Mentions, SortOf, TargetLookup;
    TargetLookupAnswers(p, t, b, target);
    EvaluateDecides(cond, TargetLeaf(p, t, b, target), TargetLookup(p, t, b), !p.ShadowsLen());
  }

  /** The binding itself, a field of it, or a function with the shape of a helper called on it. */
  predicate Concerns(p: Package, t: Tables, b: Binding, e: Expr) {
    || FieldPath(p, t, e, b).Some?
    || (e.Call? && e.args.Cons? && e.args.tail.Nil? && Resolve(p, t, e.args.head) == Some(b)
        && p.Callee(e.fun).Some?
        && var fn := p.Callee(e.fun).value;
        |fn.params| == 1 && fn.params[0].typ == RPC_CLIENT_CONF && fn.returnsBool)
  }

  /** Such a term occurs in the condition, under its operators or as what len counts. */
  predicate Touches(p: Package, t: Tables, b: Binding, e: Expr) {
    match e
    case Paren(x) => Touches(p, t, b, x)
    case Unary(_, x) => Touches(p, t, b, x)
    case Binary(_, x, y) => Touches(p, t, b, x) || Touches(p, t, b, y)
    case Call(_, args) => if p.IsBuiltinLen(e) then Concerns(p, t, b, args.head) else Concerns(p, t, b, e)
    case _ => Concerns(p, t, b, e)
  }

  lemma {:induction false} TouchesExact(p: Package, t: Tables, b: Binding, e: Expr)
    ensures TargetVerdict(p, t, e, b).1 <==> Touches(p, t, b, e)
    decreases e
  {
    hide HelperOn, FieldPath, HelperTarget, FieldVerdict, Concerns;
    LookupConcerns(p, t, b, e);
    match e
    case Paren(x) => TouchesExact(p, t, b, x);
    case Unary(_, x) => TouchesExact(p, t, b, x);
    case Binary(_, x, y) =>
      TouchesExact(p, t, b, x);
      TouchesExact(p, t, b, y);
    case Call(_, args) => if args.Cons? { LookupConcerns(p, t, b, args.head); }
    case StringLit(_, _) => LiteralUnconcerned(p, t, b, e);
    case IntLit(_) => LiteralUnconcerned(p, t, b, e);
    case _ =>
  }

  lemma LookupConcerns(p: Package, t: Tables, b: Binding, e: Expr)
    ensures TargetLookup(p, t, b)(e).1 <==> Concerns(p, t, b, e)
  {
  }

  lemma LiteralUnconcerned(p: Package, t: Tables, b: Binding, e: Expr)
    requires e.StringLit? || e.IntLit?
    ensures !Concerns(p, t, b, e)
  {
  }

  /** The if has nothing to do with the binding, or its guard leads to the branch once only the target is set. */
  ghost predicate Leads(p: Package, t: Tables, branch: Branch, b: Binding, target: string) {
    Touches(p, t, b, branch.cond) ==> Denotes(branch.cond, TargetLeaf(p, t, b, target)) == VBool(branch.taken)
  }

  lemma LeadsExactly(p: Package, t: Tables, branch: Branch, b: Binding, target: string)
    requires target != ""
    requires Touches(p, t, b, branch.cond) ==> Guard(branch.cond, TargetLeaf(p, t, b, target), !p.ShadowsLen())
    ensures Passes(p, t, branch, b) <==> Leads(p, t, branch, b, target)
  {
    hide TargetVerdict, Touches, Denotes, Guard, TargetLeaf;
    TouchesExact(p, t, b, branch.cond);
    if Touches(p, t, b, branch.cond) { TargetDecides(p, t, branch.cond, b, target); }
  }

  /** The ifs around this construction that concern the binding are guards of the grammar. */
  ghost predicate SiteGuarded(p: Package, t: Tables, site: Site, target: string) {
    forall a, branch, b | a in Arguments(site.args) && branch in site.branches && Resolve(p, t, a) == Some(b) ::
      Touches(p, t, b, branch.cond) ==> Guard(branch.cond, TargetLeaf(p, t, b, target), !p.ShadowsLen())
  }

  ghost predicate SiteLeads(p: Package, t: Tables, site: Site, target: string) {
    forall a, branch, b | a in Arguments(site.args) && branch in site.branches && Resolve(p, t, a) == Some(b) ::
      Leads(p, t, branch, b, target)
  }

  lemma SiteLeadsExactly(p: Package, t: Tables, site: Site, target: string)
    requires target != "" && SiteGuarded(p, t, site, target)
    ensures SitePasses(p, t, site) <==> SiteLeads(p, t, site, target)
  {
    hide Guard, TargetLeaf, Touches, Leads, Passes, Resolve;
    forall a, branch, b | a in Arguments(site.args) && branch in site.branches && Resolve(p, t, a) == Some(b)
      ensures Passes(p, t, branch, b) <==> Leads(p, t, branch, b, target)
    {
      LeadsExactly(p, t, branch, b, target);
    }
  }

  /**
   The target inspection, exactly: when the ifs around constructions that concern the binding passed on
   are guards of the grammar, it accepts just the functions whose guards all lead to the construction.
   */
  lemma TargetExactly(p: Package, fn: Function, target: string)
    requires target != ""
    requires forall site | site in Sites(fn.body, false, []) :: SiteGuarded(p, TablesOf(p, fn), site, target)
    ensures InspectTarget(p, fn).None? <==>
      forall site | site in Sites(fn.body, false, []) :: SiteLeads(p, TablesOf(p, fn), site, target)
  {
    hide SiteGuarded, SiteLeads, SitePasses, Sites, TablesOf, TargetStmt;
    var t, sites := TablesOf(p, fn), Sites(fn.body, false, []);
    RpcTarget.StmtExact(p, t, fn.body, false, []);
    forall site | site in sites ensures SitePasses(p, t, site) <==> SiteLeads(p, t, site, target) {
      SiteLeadsExactly(p, t, site, target);
    }
  }
}
