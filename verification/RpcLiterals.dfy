/**
 A certified package that uses a client configuration although the one it was given is blank: it
 declares a configuration with a literal that fills the binding, by name or by position, and assigns
 the real one to it later.
 */
module RpcLiterals {
  import opened Options
  import opened GoSyntax
  import opened GoSemantics
  import opened RpcGuards
  import opened RpcAliases
  import opened RpcCertifier
  import opened RpcConstruction
  import opened RpcSoundness
  import opened RpcSafety

  const CONFIG: TypeName := "Config"
  const BINDING := Binding(CONFIG, "A")
  const GIVEN := Ident("cfg", Some(1))
  const OWN := Ident("c", Some(2))
  const CLIENT := Selector(OWN, "A")
  const CLIENT_LITERAL := Composite(RPC_CLIENT_CONF, Cons("Target", StringLit("x", true), Nil))
  const GUARD := Binary(NeqOp, Selector(CLIENT, "Target"), StringLit("", true))
  const USE := ExprStmt(Call(Ident("use", None), Cons("", CLIENT, Nil)))
  const GUARDED := If(1, Skip, GUARD, USE, Skip)
  const REASSIGNMENT := Assign(2, Plain, OWN, GIVEN)

  /** Config{A: RpcClientConf{Target: "x"}}, or the same without the key. */
  function Literal(keyed: bool): Expr {
    Composite(CONFIG, Cons(if keyed then "A" else "", CLIENT_LITERAL, Nil))
  }

  function Declaration(keyed: bool): Stmt {
    Assign(0, VarDecl, OWN, Literal(keyed))
  }

  function Body(keyed: bool): Stmt {
    Seq(Declaration(keyed), Seq(GUARDED, REASSIGNMENT))
  }

  /** var c = Config{A: RpcClientConf{Target: "x"}}; if c.A.Target != "" { use(c.A) }; c = cfg */
  function Starter(keyed: bool): Function {
    Function("start", 3, [Param(1, CONFIG)], false, Body(keyed))
  }

  function Example(keyed: bool): Package {
    Package(map["start" := Starter(keyed)], {BINDING}, map[], map[(CONFIG, 0) := "A"], map[1 := CONFIG, 2 := CONFIG],
      false)
  }

  const FOUND := Tables(map[1 := CONFIG, 2 := CONFIG], map[], map[])

  // ---- The package is certified ----

  lemma Assignments(keyed: bool)
    ensures AssignsOf(Body(keyed)) == [Declaration(keyed), REASSIGNMENT]
  {
    assert AssignsIn(Literal(keyed)) == [] && AssignsIn(OWN) == [] && AssignsIn(GIVEN) == [] && AssignsIn(GUARD) == [];
    assert AssignsOf(Declaration(keyed)) == [Declaration(keyed)] && AssignsOf(REASSIGNMENT) == [REASSIGNMENT];
    assert AssignsOf(USE) == [] && AssignsOf(GUARDED) == [];
  }

  lemma AssignmentsTyped(keyed: bool)
    ensures TypedAssign(Example(keyed), Declaration(keyed)) && TypedAssign(Example(keyed), REASSIGNMENT)
  {
  }

  lemma Declared(keyed: bool)
    ensures WellTyped(Example(keyed))
  {
    Assignments(keyed);
    AssignmentsTyped(keyed);
    hide TypedAssign, AssignsOf;
    assert !Declares(Declaration(keyed), 1) && !Declares(REASSIGNMENT, 1) && !Declares(REASSIGNMENT, 2);
    assert forall s | s in AssignsOf(Body(keyed)) :: s == Declaration(keyed) || s == REASSIGNMENT;
    assert WellDeclared(Example(keyed), Starter(keyed));
  }

  /** The declaration adds nothing to tables without carriers and aliases. */
  lemma {:induction false} DeclarationAddsNothing(keyed: bool, t: Tables)
    requires t.carriers == map[] && t.aliases == map[]
    ensures Step(Example(keyed), t, Declaration(keyed)) == t
  {
    var p, e := Example(keyed), Literal(keyed);
    assert CarriedBy(p, t, CONFIG, e.elts) == CarriedBy(p, t, CONFIG, Nil) == map[];
    assert CompositeCarrier(p, t, e) == None && CopiedCarrier(t, e) == None;
    assert ConfigMembers(t, e) == None && Resolve(p, t, e) == None;
  }

  lemma TablesFound(keyed: bool)
    ensures TablesOf(Example(keyed), Starter(keyed)) == FOUND
  {
    var p := Example(keyed);
    Assignments(keyed);
    var t := Tables(map[1 := CONFIG], map[], map[]);
    assert p.IsConfigType(CONFIG) by { assert BINDING in p.bindings; }
    assert ParamConfigs(p, Starter(keyed).params) == map[1 := CONFIG] by { assert Starter(keyed).params[1..] == []; }
    DeclarationAddsNothing(keyed, t);
    DeclarationAddsNothing(keyed, FOUND);
    assert Step(p, t, REASSIGNMENT) == FOUND && Step(p, FOUND, REASSIGNMENT) == FOUND;
    var stmts := [Declaration(keyed), REASSIGNMENT];
    assert stmts[1..] == [REASSIGNMENT] && [REASSIGNMENT][1..] == [];
    hide Step;
    assert forall u :: Pass(p, u, stmts) == Pass(p, Step(p, u, Declaration(keyed)), [REASSIGNMENT]);
    assert forall u :: Pass(p, u, [REASSIGNMENT]) == Step(p, u, REASSIGNMENT);
    assert Fixpoint(p, FOUND, stmts) == FOUND;
  }

  /** A package with this binding only. */
  ghost predicate OneBinding(p: Package) {
    (forall b :: b in p.bindings <==> b == BINDING) && !p.ShadowsLen()
  }

  lemma {:induction false} GuardVerdict(p: Package)
    requires OneBinding(p)
    ensures Resolve(p, FOUND, CLIENT) == Some(BINDING) && Resolve(p, FOUND, GUARD.x) == None
    ensures EvaluateCondition(p, FOUND, GUARD, BINDING) == (IsFalse, true)
  {
    assert ConfigMembers(FOUND, CLIENT) == None && ConfigMembers(FOUND, OWN) == Some(CONFIG);
    assert FieldPath(p, FOUND, CLIENT, BINDING) == Some([]);
    assert FieldPath(p, FOUND, GUARD.x, BINDING) == Some(["Target"]) by { assert [] + ["Target"] == ["Target"]; }
    var lookup := BindingLookup(p, FOUND, BINDING, Blank);
    assert Evaluate(GUARD.x, lookup, true) == lookup(GUARD.x) == (BlankString, true);
    assert Evaluate(GUARD.y, lookup, true) == (BlankString, false);
  }

  lemma {:induction false} Unresolved(p: Package)
    ensures Resolve(p, FOUND, OWN) == Resolve(p, FOUND, GUARD) == Resolve(p, FOUND, GUARD.y) == None
    ensures Resolve(p, FOUND, USE.e) == Resolve(p, FOUND, USE.e.fun) == Resolve(p, FOUND, GIVEN) == None
  {
  }

  lemma {:induction false} OnlyField(p: Package)
    requires OneBinding(p)
    ensures !p.IsBindingField("Target") && p.IsBindingField("A")
  {
    assert |"Target"| != |"A"| && BINDING in p.bindings;
  }

  lemma {:induction false} ConditionJudged(p: Package)
    requires OneBinding(p)
    ensures var there := InCondition(GUARD, Top);
      && JudgeNode(p, FOUND, CLIENT, there) == JudgeNode(p, FOUND, GUARD.x, there) ==
        JudgeNode(p, FOUND, OWN, there) == None
      && JudgeNode(p, FOUND, GUARD.y, there) == JudgeNode(p, FOUND, GUARD, there) == None
  {
    hide EvaluateCondition, UseGuarded, Resolve, Package.IsBindingField, OneBinding;
    GuardVerdict(p);
    Unresolved(p);
    OnlyField(p);
    assert ContainingCondition(InCondition(GUARD, Top)) == Some(GUARD);
  }

  lemma {:induction false} ConditionAccepted(p: Package)
    requires OneBinding(p)
    ensures InspectExpr(p, FOUND, GUARD, InCondition(GUARD, Top)) == None
  {
    hide JudgeNode, OneBinding;
    ConditionJudged(p);
    assert InspectExpr(p, FOUND, CLIENT, InCondition(GUARD, Top)) == None;
    assert InspectExpr(p, FOUND, GUARD.x, InCondition(GUARD, Top)) == None;
  }

  lemma {:induction false} UseAccepted(p: Package)
    requires OneBinding(p)
    ensures InspectStmt(p, FOUND, USE, InThen(GUARD, Top)) == None
  {
    hide EvaluateCondition, Resolve, Package.IsBindingField, OneBinding;
    GuardVerdict(p);
    Unresolved(p);
    var below := InThen(GUARD, Top);
    assert ContainingCondition(below) == None && UseGuarded(p, FOUND, BINDING, below);
    assert InspectExpr(p, FOUND, OWN, below) == None;
    assert InspectExpr(p, FOUND, CLIENT, below) == None;
    assert InspectAll(p, FOUND, USE.e.args, below) == None;
  }

  lemma {:induction false} GuardedAccepted(p: Package)
    requires OneBinding(p)
    ensures InspectStmt(p, FOUND, GUARDED, Top) == None
  {
    hide InspectExpr, EvaluateCondition, OneBinding;
    ConditionAccepted(p);
    UseAccepted(p);
    assert InspectStmt(p, FOUND, Skip, Top) == None;
  }

  lemma AssignmentsAccepted(keyed: bool)
    ensures InspectStmt(Example(keyed), FOUND, Declaration(keyed), Top) == None
    ensures InspectStmt(Example(keyed), FOUND, REASSIGNMENT, Top) == None
  {
    hide EvaluateCondition;
    var p := Example(keyed);
    assert InspectExpr(p, FOUND, CLIENT_LITERAL, Top) == None by {
      assert InspectAll(p, FOUND, CLIENT_LITERAL.elts, Top) == None;
    }
    assert InspectAll(p, FOUND, Literal(keyed).elts, Top) == None;
  }

  lemma IsCertified(keyed: bool)
    ensures Certified(Example(keyed))
  {
    var p := Example(keyed);
    Assignments(keyed);
    TablesFound(keyed);
    GuardedAccepted(p);
    AssignmentsAccepted(keyed);
    assert InspectStmt(p, FOUND, Body(keyed), Top) == None by {
      hide EvaluateCondition, InspectExpr;
      assert InspectStmt(p, FOUND, Body(keyed).second, Top) == None;
    }
    hide InspectStmt, TablesOf;
    assert forall s | s in AssignsOf(Body(keyed)) :: !Reassigns(FOUND, s);
  }

  // ---- It uses the binding ----

  const OWN_CLIENT := VConf(BINDING, ZeroClient()["Target" := VStr("x")])
  const CLIENT_VALUE := VStruct(RPC_CLIENT_CONF, OWN_CLIENT.fields)
  const DECLARED := VStruct(CONFIG, map["A" := OWN_CLIENT])
  const BLANK := VStruct(CONFIG, map["A" := VConf(BINDING, ZeroClient())])
  const WORLD := World(n => VOpaque, n => 0, (n, o, v) => v)

  function Before(keyed: bool): State {
    State(map[1 := BLANK], [], Starter(keyed), {}, 0, [])
  }

  function After(keyed: bool): State {
    Before(keyed).(store := map[1 := BLANK, 2 := DECLARED])
  }

  lemma {:induction false} ClientBuilt(p: Package, st: State)
    requires OneBinding(p) && p.configFields == map[]
    ensures Eval(p, WORLD, CLIENT_LITERAL, st, Normal, 14) == Ok(CLIENT_VALUE, st)
  {
    var elts := CLIENT_LITERAL.elts;
    assert EvalAll(p, WORLD, Nil, st, Normal, 11) == OkAll([], st);
    assert Eval(p, WORLD, elts.head, st, Normal, 11) == Ok(VStr("x"), st);
    assert EvalAll(p, WORLD, elts, st, Normal, 12) == OkAll([VStr("x")], st) by {
      assert [VStr("x")] + [] == [VStr("x")];
    }
    assert Build(p, RPC_CLIENT_CONF, Nil, 1, [VStr("x")][1..]) == Some(ZeroClient());
    assert Attach(p, RPC_CLIENT_CONF, "Target", VStr("x")) == Some(VStr("x"));
    assert Build(p, RPC_CLIENT_CONF, elts, 0, [VStr("x")]) == Some(OWN_CLIENT.fields);
    assert Eval(p, WORLD, CLIENT_LITERAL, st, Normal, 14) == EvalComposite(p, WORLD, RPC_CLIENT_CONF, elts, st, 13);
  }

  const ZERO := map["A" := VConf(BINDING, ZeroClient())]

  lemma ZeroConfig(keyed: bool)
    ensures ZeroFields(Example(keyed), CONFIG) == ZERO
  {
    var p := Example(keyed);
    hide ZeroClient;
    ZeroOfOne(p);
    assert p.configFields == map[];
  }

  lemma {:induction false} ZeroOfOne(p: Package)
    requires OneBinding(p)
    ensures ZeroBindings(p, CONFIG) == ZERO
  {
    hide ZeroClient;
    var zeros := ZeroBindings(p, CONFIG);
    assert BINDING in p.bindings && BINDING.structName == CONFIG;
    assert zeros.Keys == {"A"} && zeros["A"] == VConf(BINDING, ZeroClient());
  }

  lemma ClientAttached(keyed: bool)
    ensures Example(keyed).KeyOf(CONFIG, Literal(keyed).elts.key, 0) == "A"
    ensures Attach(Example(keyed), CONFIG, "A", CLIENT_VALUE) == Some(OWN_CLIENT)
  {
  }

  lemma DeclaredFields(keyed: bool)
    ensures Build(Example(keyed), CONFIG, Literal(keyed).elts, 0, [CLIENT_VALUE]) == Some(DECLARED.fields)
  {
    ZeroConfig(keyed);
    ClientAttached(keyed);
    hide ZeroClient, ZeroFields, Attach;
    assert Build(Example(keyed), CONFIG, Nil, 1, [CLIENT_VALUE][1..]) == Some(ZERO);
    assert ZERO["A" := OWN_CLIENT] == DECLARED.fields;
  }

  lemma ElementsEvaluated(keyed: bool)
    ensures EvalAll(Example(keyed), WORLD, Literal(keyed).elts, Before(keyed), Normal, 15) ==
      OkAll([CLIENT_VALUE], Before(keyed))
  {
    ClientBuilt(Example(keyed), Before(keyed));
    hide Eval;
    assert EvalAll(Example(keyed), WORLD, Nil, Before(keyed), Normal, 14) == OkAll([], Before(keyed));
    assert [CLIENT_VALUE] + [] == [CLIENT_VALUE];
  }

  lemma LiteralBuilt(keyed: bool)
    ensures Eval(Example(keyed), WORLD, Literal(keyed), Before(keyed), AliasDef, 17) == Ok(DECLARED, Before(keyed))
  {
    DeclaredFields(keyed);
    ElementsEvaluated(keyed);
    hide Build, EvalAll;
    assert EvalComposite(Example(keyed), WORLD, CONFIG, Literal(keyed).elts, Before(keyed), 16) ==
      Ok(DECLARED, Before(keyed));
  }

  /** Nobody writes through a pointer here. */
  lemma SeenAsHeld(p: Package, st: State)
    ensures Contents(p, WORLD, st) == st.store
  {
    hide Shares;
  }

  lemma {:induction false} GuardHolds(p: Package, st: State)
    requires 2 in st.store && st.store[2] == DECLARED
    ensures Eval(p, WORLD, GUARD, st, InCond, 16) == Ok(VBool(true), st)
  {
    hide Contents;
    SeenAsHeld(p, st);
    assert Eval(p, WORLD, OWN, st, InCond, 12) == Ok(DECLARED, st);
    assert Eval(p, WORLD, CLIENT, st, InCond, 13) == Select(p, WORLD, DECLARED, "A", st, InCond, 12) ==
      Ok(OWN_CLIENT, st);
    assert Eval(p, WORLD, GUARD.x, st, InCond, 14) == Select(p, WORLD, OWN_CLIENT, "Target", st, InCond, 13) ==
      Ok(VStr("x"), st);
    assert Eval(p, WORLD, GUARD.y, st, InCond, 14) == Ok(VStr(""), st);
    assert Eval(p, WORLD, GUARD, st, InCond, 16) == EvalBinary(p, WORLD, NeqOp, GUARD.x, GUARD.y, st, InCond, 15);
  }

  lemma {:induction false} ClientHandedOver(p: Package, st: State)
    requires 2 in st.store && st.store[2] == DECLARED
    ensures EvalAll(p, WORLD, USE.e.args, st, Normal, 13) == OkAll([OWN_CLIENT], st.(used := st.used + {BINDING}))
  {
    hide Contents;
    SeenAsHeld(p, st);
    var used := st.(used := st.used + {BINDING});
    assert Eval(p, WORLD, OWN, st, Normal, 11) == Ok(DECLARED, st);
    assert Eval(p, WORLD, CLIENT, st, Normal, 12) == Select(p, WORLD, DECLARED, "A", st, Normal, 11) ==
      Ok(OWN_CLIENT, used);
    assert EvalAll(p, WORLD, Nil, used, Normal, 12) == OkAll([], used);
    assert [OWN_CLIENT] + [] == [OWN_CLIENT];
  }

  /** The call of `use` hands on the configuration of the binding. */
  lemma {:induction false} ClientUsed(p: Package, st: State)
    requires "use" !in p.functions && 2 in st.store && st.store[2] == DECLARED && st.pool == []
    ensures var flow := Exec(p, WORLD, USE, st, 16);
      flow == Next(st.(used := st.used + {BINDING}, tick := st.tick + 2))
  {
    hide Contents;
    var once := st.(tick := st.tick + 1);
    var used := once.(used := st.used + {BINDING});
    assert Eval(p, WORLD, USE.e.fun, st, Normal, 13) == Opaque(p, WORLD, st, 12) == Ok(VOpaque, once);
    ClientHandedOver(p, once);
    assert p.Callee(USE.e.fun) == None && !p.IsBuiltinLen(USE.e);
    var done := used.(tick := st.tick + 2);
    assert EvalCall(p, WORLD, USE.e, st, Normal, 14) == Opaque(p, WORLD, used, 13) == Ok(VOpaque, done);
    assert Eval(p, WORLD, USE.e, st, Normal, 15) == EvalCall(p, WORLD, USE.e, st, Normal, 14);
  }

  /** The state behind the guard. */
  function Inside(keyed: bool): State {
    Noted(After(keyed), GUARDED, true, Contents(Example(keyed), WORLD, After(keyed)))
  }

  /** The state once the client has been used. */
  function Used(keyed: bool): State {
    Inside(keyed).(used := {BINDING}, tick := 2)
  }

  lemma GuardedRuns(keyed: bool)
    ensures Exec(Example(keyed), WORLD, GUARDED, After(keyed), 17) == Next(Used(keyed))
  {
    hide Eval, Contents;
    var p, after := Example(keyed), After(keyed);
    GuardHolds(p, after);
    ClientUsed(p, Inside(keyed));
    assert {} + {BINDING} == {BINDING};
    assert Exec(p, WORLD, Skip, after, 16) == Next(after);
    assert Exec(p, WORLD, GUARDED, after, 17) == Exec(p, WORLD, USE, Inside(keyed), 16);
  }

  lemma DeclarationRuns(keyed: bool)
    ensures Exec(Example(keyed), WORLD, Declaration(keyed), Before(keyed), 18) == Next(After(keyed))
  {
    hide Eval, Contents;
    var p, before := Example(keyed), Before(keyed);
    LiteralBuilt(keyed);
    assert before.store[2 := DECLARED] == After(keyed).store;
    assert Store(p, WORLD, OWN, DECLARED, before, 17) == Next(After(keyed));
  }

  function End(keyed: bool): State {
    Used(keyed).(store := map[1 := BLANK, 2 := BLANK])
  }

  lemma ReassignmentRuns(keyed: bool)
    ensures Exec(Example(keyed), WORLD, REASSIGNMENT, Used(keyed), 17) == Next(End(keyed))
  {
    hide Eval, Contents;
    var p, used := Example(keyed), Used(keyed);
    GivenRead(p, used);
    assert used.store[2 := BLANK] == map[1 := BLANK, 2 := BLANK];
    assert Store(p, WORLD, OWN, BLANK, used, 16) == Next(End(keyed));
  }

  lemma GivenRead(p: Package, st: State)
    requires 1 in st.store && st.store[1] == BLANK
    ensures Eval(p, WORLD, GIVEN, st, Normal, 16) == Ok(BLANK, st)
  {
    hide Contents;
    SeenAsHeld(p, st);
  }

  lemma BodyRuns(keyed: bool)
    ensures Exec(Example(keyed), WORLD, Body(keyed), Before(keyed), 19) == Next(End(keyed))
  {
    hide Eval, Store, Contents;
    GuardedRuns(keyed);
    DeclarationRuns(keyed);
    ReassignmentRuns(keyed);
    assert Exec(Example(keyed), WORLD, Body(keyed).second, After(keyed), 18) == Next(End(keyed));
  }

  lemma BindingUsed(keyed: bool)
    ensures Invoke(Example(keyed), WORLD, Starter(keyed), [BLANK], Start(Starter(keyed)), 20).st.used == {BINDING}
  {
    hide Exec, Contents;
    var fn := Starter(keyed);
    BodyRuns(keyed);
    assert BindParams(fn.params, [BLANK]) == map[1 := BLANK] by {
      assert fn.params[1..] == [] && [BLANK][1..] == [] && BindParams([], []) == map[];
    }
    assert Entered(fn, map[1 := BLANK], Start(fn)) == Before(keyed);
  }

  lemma BlankGiven(keyed: bool)
    ensures WorldAgrees(Example(keyed), WORLD, BINDING, Blank) && Wf(Example(keyed), BINDING, Blank, BLANK)
  {
    var p := Example(keyed);
    ZeroClientWf(p, BINDING, Blank);
    ZeroClientBlank();
    assert Wf(p, BINDING, Blank, BLANK.fields["A"]);
  }

  lemma FillsItsBinding(keyed: bool)
    ensures !LiteralsLeaveBindings(Example(keyed))
  {
    var p := Example(keyed);
    assert p.KeyOf(CONFIG, Literal(keyed).elts.key, 0) == "A";
    assert FillsBinding(p, CONFIG, Literal(keyed).elts, 0);
    assert !CodeKeeps(p, Blank, Declaration(keyed)) && !CodeKeeps(p, Blank, Body(keyed));
    assert p.functions["start"] == Starter(keyed);
  }

  /** The package is certified and given a blank configuration only, and yet uses the binding. */
  lemma LiteralEscapesCertification(keyed: bool)
    ensures var p := Example(keyed);
      && WellTyped(p) && Certified(p) && !LiteralsLeaveBindings(p)
      && WorldAgrees(p, WORLD, BINDING, Blank) && Wf(p, BINDING, Blank, BLANK)
      && BINDING in Invoke(p, WORLD, Starter(keyed), [BLANK], Start(Starter(keyed)), 20).st.used
  {
    hide Invoke, WellTyped, Certified, LiteralsLeaveBindings, WorldAgrees, Wf;
    Declared(keyed);
    IsCertified(keyed);
    FillsItsBinding(keyed);
    BlankGiven(keyed);
    BindingUsed(keyed);
  }
}
