/**
 The target inspection does not look at writes. It accepts a function that empties the target of its
 own binding before the guard, by name or through a pointer, and the guard then keeps the client from
 being constructed.
 */
module RpcTargetWrites {
  import opened Options
  import opened GoSyntax
  import opened GoSemantics
  import opened RpcGuards
  import opened RpcAliases
  import opened RpcCertifier
  import opened RpcConstruction
  import opened RpcSoundness
  import opened RpcSafety
  import opened RpcTarget
  import opened RpcTargetRuns

  const CONFIG: TypeName := "Config"
  const BINDING := Binding(CONFIG, "A")
  const GIVEN := Ident("cfg", Some(1))
  const CLIENT := Selector(GIVEN, "A")
  const TARGET := Selector(CLIENT, "Target")
  const EMPTY := StringLit("", true)
  const WRITE := Assign(0, Plain, TARGET, EMPTY)
  const TAKEN := Assign(1, Define, Ident("c", Some(3)), Unary(AddrOp, CLIENT))
  const THROUGH := Assign(2, Plain, Selector(Ident("c", Some(3)), "Target"), EMPTY)
  const GUARD := Binary(NeqOp, TARGET, EMPTY)
  const USE := ExprStmt(Call(Ident("use", None), Cons("", CLIENT, Nil)))
  const GUARDED := If(3, Skip, GUARD, USE, Skip)
  const FOUND := Tables(map[1 := CONFIG], map[], map[])

  function Emptying(pointer: bool): Stmt {
    if pointer then Seq(TAKEN, THROUGH) else WRITE
  }

  function Body(pointer: bool): Stmt {
    Seq(Emptying(pointer), GUARDED)
  }

  /**
   func start(cfg Config) { cfg.A.Target = ""; if cfg.A.Target != "" { use(cfg.A) } }, or
   func start(cfg Config) { c := &cfg.A; c.Target = ""; if cfg.A.Target != "" { use(cfg.A) } }
   */
  function Starter(pointer: bool): Function {
    Function("start", 2, [Param(1, CONFIG)], false, Body(pointer))
  }

  function Example(pointer: bool): Package {
    Package(map["start" := Starter(pointer)], {BINDING}, map[], map[], map[1 := CONFIG, 3 := RPC_CLIENT_CONF], false)
  }

  // ---- The inspection accepts it ----

  lemma Assignments(pointer: bool)
    ensures AssignsOf(Body(pointer)) == if pointer then [TAKEN, THROUGH] else [WRITE]
  {
    assert AssignsIn(TARGET) == [] && AssignsIn(GUARD) == [] && AssignsOf(USE) == [] && AssignsOf(GUARDED) == [];
    assert AssignsOf(WRITE) == [WRITE] && AssignsOf(TAKEN) == [TAKEN] && AssignsOf(THROUGH) == [THROUGH];
    assert [TAKEN] + [THROUGH] == [TAKEN, THROUGH];
  }

  lemma Declared(pointer: bool)
    ensures WellTyped(Example(pointer))
  {
    var p, fn := Example(pointer), Starter(pointer);
    Assignments(pointer);
    assert forall s | s in AssignsOf(fn.body) :: s == WRITE || s == TAKEN || s == THROUGH;
    PointerTyped(pointer);
    hide AssignsOf, TypedAssign;
    assert SensibleTypes(p);
    assert WellDeclared(p, fn);
  }

  lemma PointerTyped(pointer: bool)
    ensures var p := Example(pointer); TypedAssign(p, WRITE) && TypedAssign(p, TAKEN) && TypedAssign(p, THROUGH)
  {
    assert StaticType(Example(pointer), GIVEN) == Some(CONFIG);
    assert StaticType(Example(pointer), TAKEN.rhs) == StaticType(Example(pointer), CLIENT) == Some(RPC_CLIENT_CONF);
  }

  lemma NothingAdded(pointer: bool)
    ensures Step(Example(pointer), FOUND, WRITE) == Step(Example(pointer), FOUND, THROUGH) == FOUND
    ensures Step(Example(pointer), FOUND, TAKEN) == FOUND
  {
    var rhs := TAKEN.rhs;
    assert ConfigMembers(FOUND, rhs) == ConfigMembers(FOUND, CLIENT) == None;
    assert Unparen(CLIENT) == CLIENT && Unparen(rhs) == rhs;
    assert Resolve(Example(pointer), FOUND, rhs) == None;
  }

  lemma TablesFound(pointer: bool)
    ensures TablesOf(Example(pointer), Starter(pointer)) == FOUND
  {
    var p := Example(pointer);
    Assignments(pointer);
    NothingAdded(pointer);
    assert p.IsConfigType(CONFIG) by { assert BINDING in p.bindings; }
    assert Starter(pointer).params[1..] == [] && ParamConfigs(p, Starter(pointer).params) == map[1 := CONFIG];
    hide Step;
    assert [WRITE][1..] == [] && [TAKEN, THROUGH][1..] == [THROUGH] && [THROUGH][1..] == [];
    assert Pass(p, FOUND, [WRITE]) == Pass(p, FOUND, []) == FOUND;
    assert Pass(p, FOUND, [THROUGH]) == FOUND && Pass(p, FOUND, [TAKEN, THROUGH]) == Pass(p, FOUND, [THROUGH]);
  }

  lemma GuardVerdict(pointer: bool)
    ensures Resolve(Example(pointer), FOUND, CLIENT) == Some(BINDING)
    ensures TargetVerdict(Example(pointer), FOUND, GUARD, BINDING) == (IsTrue, true)
  {
    assert ConfigMembers(FOUND, CLIENT) == None && ConfigMembers(FOUND, GIVEN) == Some(CONFIG);
    assert Resolve(Example(pointer), FOUND, TARGET) == None;
    assert FieldPath(Example(pointer), FOUND, CLIENT, BINDING) == Some([]);
    assert [] + ["Target"] == ["Target"] && FieldPath(Example(pointer), FOUND, TARGET, BINDING) == Some(["Target"]);
    var lookup := TargetLookup(Example(pointer), FOUND, BINDING);
    assert Evaluate(TARGET, lookup, true) == lookup(TARGET) == (NonemptyString, true);
    assert Evaluate(EMPTY, lookup, true) == (BlankString, false);
  }

  lemma NoCallsIn(pointer: bool, inCond: bool, branches: seq<Branch>)
    ensures TargetExpr(Example(pointer), FOUND, CLIENT, inCond, branches) == None
    ensures TargetExpr(Example(pointer), FOUND, TARGET, inCond, branches) == None
    ensures TargetExpr(Example(pointer), FOUND, GUARD, inCond, branches) == None
  {
    assert TargetExpr(Example(pointer), FOUND, GIVEN, inCond, branches) == None;
    assert TargetExpr(Example(pointer), FOUND, CLIENT, inCond, branches) == None;
    assert TargetExpr(Example(pointer), FOUND, TARGET, inCond, branches) == None;
  }

  lemma UseAccepted(pointer: bool)
    ensures TargetStmt(Example(pointer), FOUND, USE, false, [Then(GUARDED)] + []) == None
  {
    var p := Example(pointer);
    hide TargetVerdict, Resolve;
    GuardVerdict(pointer);
    var branches := [Then(GUARDED)] + [];
    NoCallsIn(pointer, false, branches);
    assert branches == [Then(GUARDED)] && branches[1..] == [];
    assert Then(GUARDED).cond == GUARD && Then(GUARDED).taken && Passes(p, FOUND, Then(GUARDED), BINDING);
    assert FirstBlocked(p, FOUND, branches, BINDING) == FirstBlocked(p, FOUND, [], BINDING) == None;
    assert JudgeArgs(p, FOUND, USE.e.args, branches) == JudgeArgs(p, FOUND, Nil, branches) == None;
    assert TargetExprs(p, FOUND, USE.e.args, false, branches) == None;
    assert TargetExpr(p, FOUND, USE.e.fun, false, branches) == None;
    assert TargetExpr(p, FOUND, USE.e, false, branches) == None;
  }

  lemma IsAccepted(pointer: bool)
    ensures InspectTarget(Example(pointer), Starter(pointer)) == None
  {
    hide TargetVerdict, Resolve, TablesOf;
    TablesFound(pointer);
    UseAccepted(pointer);
    NoCallsIn(pointer, true, []);
    NoCallsIn(pointer, false, []);
    assert TargetStmt(Example(pointer), FOUND, GUARDED, false, []) == None;
    assert TargetStmt(Example(pointer), FOUND, WRITE, false, []) == None;
    assert TargetExpr(Example(pointer), FOUND, TAKEN.lhs, false, []) == None;
    assert TargetExpr(Example(pointer), FOUND, TAKEN.rhs, false, []) == None;
    assert TargetStmt(Example(pointer), FOUND, TAKEN, false, []) == None;
    assert TargetExpr(Example(pointer), FOUND, THROUGH.lhs, false, []) == None;
    assert TargetStmt(Example(pointer), FOUND, THROUGH, false, []) == None;
    assert TargetStmt(Example(pointer), FOUND, Emptying(pointer), false, []) == None;
    hide TargetStmt;
    assert TargetStmt(Example(pointer), FOUND, Body(pointer), false, []) ==
      Earlier(TargetStmt(Example(pointer), FOUND, Emptying(pointer), false, []),
        TargetStmt(Example(pointer), FOUND, GUARDED, false, [])) by { BodyInspected(pointer); }
  }

  lemma BodyInspected(pointer: bool)
    ensures TargetStmt(Example(pointer), FOUND, Body(pointer), false, []) ==
      Earlier(TargetStmt(Example(pointer), FOUND, Emptying(pointer), false, []),
        TargetStmt(Example(pointer), FOUND, GUARDED, false, []))
  {
  }

  // ---- Its guard goes the other way ----

  /** A target-only client configuration. */
  const ROUTED := VStruct(CONFIG, map["A" := VConf(BINDING, ZeroClient()["Target" := VStr("x")])])
  const EMPTIED := VStruct(CONFIG, map["A" := VConf(BINDING, ZeroClient())])

  /** What is written through the pointer is seen in the configuration from the next moment on. */
  const WORLD := World(n => VOpaque, n => 0, (n, o, v) => if o == 1 && n > 0 then EMPTIED else v)

  function Before(pointer: bool): State {
    State(map[1 := ROUTED], [], Starter(pointer), {}, 0, [])
  }

  function After(pointer: bool): State {
    State(
      if pointer then map[1 := ROUTED, 3 := VStruct(RPC_CLIENT_CONF, ZeroClient())] else map[1 := EMPTIED],
      [], Starter(pointer), {BINDING}, 1, [])
  }

  lemma RoutedAgrees(pointer: bool)
    ensures WorldAgrees(Example(pointer), WORLD, BINDING, TargetOnly)
    ensures Wf(Example(pointer), BINDING, TargetOnly, ROUTED)
  {
    var p := Example(pointer);
    var fields := ZeroClient()["Target" := VStr("x")];
    ZeroClientWf(p, BINDING, TargetOnly);
    assert Agrees(fields, TargetOnly) by {
      forall path | FieldVerdict(TargetOnly, Some(path)).0 != Unknown
        ensures PathMeans(fields, path, FieldVerdict(TargetOnly, Some(path)).0)
      {
      }
    }
    assert Wf(p, BINDING, TargetOnly, VConf(BINDING, fields));
    assert Entrusted(p, 1) by { assert BINDING in p.bindings; }
  }

  lemma Places()
    ensures PlaceOf(TARGET) == Some((1, ["A", "Target"])) && PlaceOf(CLIENT) == Some((1, ["A"]))
    ensures PlaceOf(THROUGH.lhs) == Some((3, ["Target"]))
  {
    assert [] + ["A"] == ["A"] && ["A"] + ["Target"] == ["A", "Target"] && [] + ["Target"] == ["Target"];
  }

  lemma TargetEmptied(pointer: bool)
    ensures WriteAt(Example(pointer), ROUTED, ["A", "Target"], VStr("")) == (Some(EMPTIED), {BINDING})
  {
    var p, conf, after := Example(pointer), ROUTED.fields["A"], VConf(BINDING, ZeroClient());
    assert ["A", "Target"][1..] == ["Target"] && ["Target"][1..] == [];
    assert conf.fields["Target" := VStr("")] == ZeroClient();
    assert WriteAt(p, conf, ["Target"], VStr("")) == (Some(after), {BINDING} + {});
    assert Attach(p, CONFIG, "A", after) == Some(after);
    hide ZeroClient, Attach;
    assert ROUTED.fields["A" := after] == EMPTIED.fields;
    assert {BINDING} + ({BINDING} + {}) == {BINDING};
  }

  lemma CopyEmptied()
    ensures WriteAt(Example(true), Detach(ROUTED.fields["A"]), ["Target"], VStr("")) ==
      (Some(VStruct(RPC_CLIENT_CONF, ZeroClient())), {})
  {
    var copy := Detach(ROUTED.fields["A"]);
    var none: set<Binding> := {};
    assert ["Target"][1..] == [] && none + none == none;
    assert WriteAt(Example(true), copy.fields["Target"], [], VStr("")) == (Some(VStr("")), none);
    assert copy.fields["Target" := VStr("")] == ZeroClient();
    assert Attach(Example(true), RPC_CLIENT_CONF, "Target", VStr("")) == Some(VStr(""));
  }

  lemma Written(pointer: bool)
    ensures Exec(Example(pointer), WORLD, Emptying(pointer), Before(pointer), 18) == Next(After(pointer))
  {
    if pointer { WrittenThrough(); } else { WrittenByName(); }
  }

  lemma WrittenByName()
    ensures Exec(Example(false), WORLD, WRITE, Before(false), 18) == Next(After(false))
  {
    hide WriteAt, ZeroClient;
    var p := Example(false);
    Places();
    TargetEmptied(false);
    assert {} + {BINDING} == {BINDING} && Before(false).store[1 := EMPTIED] == After(false).store;
    assert Fits(p, 1, EMPTIED);
    assert Eval(p, WORLD, EMPTY, Before(false), Normal, 17) == Ok(VStr(""), Before(false));
    assert Store(p, WORLD, TARGET, VStr(""), Before(false), 17) == Next(After(false));
  }

  /** Holding the pointer, with the configuration still as it was. */
  const POINTING := State(map[1 := ROUTED, 3 := Detach(ROUTED.fields["A"])], [], Starter(true), {BINDING}, 0, [])

  lemma AtFirst()
    ensures Contents(Example(true), WORLD, Before(true)) == Before(true).store
  {
    hide Shares, ZeroClient;
  }

  lemma PointerTaken()
    ensures Exec(Example(true), WORLD, TAKEN, Before(true), 17) == Next(POINTING)
  {
    hide ZeroClient, Contents, Shares;
    var p, st, used := Example(true), Before(true), Before(true).(used := {BINDING});
    var conf := ROUTED.fields["A"];
    AtFirst();
    assert Eval(p, WORLD, GIVEN, st, Normal, 13) == Ok(ROUTED, st);
    assert {} + {BINDING} == {BINDING};
    assert Eval(p, WORLD, CLIENT, st, Normal, 14) == Select(p, WORLD, ROUTED, "A", st, Normal, 13) == Ok(conf, used);
    assert Eval(p, WORLD, TAKEN.rhs, st, AliasDef, 16) == EvalUnary(p, WORLD, AddrOp, CLIENT, st, AliasDef, 15) ==
      Ok(Detach(conf), used);
    assert Fits(p, 3, Detach(conf)) && used.store[3 := Detach(conf)] == POINTING.store;
    assert Store(p, WORLD, TAKEN.lhs, Detach(conf), used, 16) == Next(POINTING);
  }

  lemma WrittenThrough()
    ensures Exec(Example(true), WORLD, Emptying(true), Before(true), 18) == Next(After(true))
  {
    hide WriteAt, ZeroClient, Eval;
    var p := Example(true);
    Places();
    CopyEmptied();
    PointerTaken();
    var written := VStruct(RPC_CLIENT_CONF, ZeroClient());
    assert {BINDING} + {} == {BINDING} && POINTING.store[3 := written] == After(true).store;
    assert Fits(p, 3, written);
    assert Eval(p, WORLD, EMPTY, POINTING, Normal, 16) == Ok(VStr(""), POINTING) by { EmptyText(p, POINTING, 16); }
    assert Store(p, WORLD, THROUGH.lhs, VStr(""), POINTING, 16) == Next(After(true));
    assert Exec(p, WORLD, THROUGH, POINTING, 17) == Next(After(true));
  }

  lemma EmptyText(p: Package, st: State, fuel: nat)
    requires fuel > 0
    ensures Eval(p, WORLD, EMPTY, st, Normal, fuel) == Ok(VStr(""), st)
  {
  }

  lemma ReadsEmptied(pointer: bool)
    ensures 1 in After(pointer).store && Contents(Example(pointer), WORLD, After(pointer))[1] == EMPTIED
  {
    hide ZeroClient;
    Places();
    assert pointer ==> SharesIn(TAKEN.rhs, 1) && Shares(TAKEN, 1) && Shares(Body(true), 1);
    assert MayBecome(Example(pointer), 1, ROUTED, EMPTIED);
  }

  lemma GuardFails(pointer: bool)
    ensures Eval(Example(pointer), WORLD, GUARD, After(pointer), InCond, 17) == Ok(VBool(false), After(pointer))
  {
    hide Contents, Shares;
    var p, st, conf := Example(pointer), After(pointer), EMPTIED.fields["A"];
    ReadsEmptied(pointer);
    assert Eval(p, WORLD, GIVEN, st, InCond, 13) == Ok(EMPTIED, st);
    assert Eval(p, WORLD, CLIENT, st, InCond, 14) == Select(p, WORLD, EMPTIED, "A", st, InCond, 13) == Ok(conf, st);
    assert Eval(p, WORLD, TARGET, st, InCond, 15) == Select(p, WORLD, conf, "Target", st, InCond, 14) ==
      Ok(VStr(""), st);
    assert Eval(p, WORLD, GUARD.y, st, InCond, 15) == Ok(VStr(""), st);
    assert Eval(p, WORLD, GUARD, st, InCond, 17) == EvalBinary(p, WORLD, NeqOp, TARGET, GUARD.y, st, InCond, 16);
  }

  lemma GuardedSkips(pointer: bool)
    ensures Exec(Example(pointer), WORLD, Body(pointer), Before(pointer), 19) ==
      Next(Noted(After(pointer), GUARDED, false, Contents(Example(pointer), WORLD, After(pointer))))
  {
    hide Eval, Store;
    var p, st := Example(pointer), After(pointer);
    Written(pointer);
    GuardFails(pointer);
    assert Exec(p, WORLD, Skip, st, 17) == Next(st);
    var noted := Noted(st, GUARDED, false, Contents(p, WORLD, st));
    assert Exec(p, WORLD, Skip, noted, 17) == Next(noted) && Exec(p, WORLD, GUARDED, st, 18) == Next(noted);
  }

  function Skipped(pointer: bool): Decision {
    Decision(Starter(pointer), GUARDED, false, Contents(Example(pointer), WORLD, After(pointer)))
  }

  lemma RunOfStarter(pointer: bool)
    ensures Invoke(Example(pointer), WORLD, Starter(pointer), [ROUTED], Start(Starter(pointer)), 20).st.decisions ==
      [Skipped(pointer)]
  {
    hide Exec, Eval;
    var fn := Starter(pointer);
    GuardedSkips(pointer);
    assert BindParams(fn.params, [ROUTED]) == map[1 := ROUTED] by {
      assert fn.params[1..] == [] && [ROUTED][1..] == [] && BindParams([], []) == map[];
    }
    assert Entered(fn, map[1 := ROUTED], Start(fn)) == Before(pointer);
    assert [] + [Skipped(pointer)] == [Skipped(pointer)];
  }

  lemma LeadsAstray(pointer: bool)
    ensures !LeadsOn(Example(pointer), BINDING, Skipped(pointer))
  {
    hide TargetVerdict, Resolve, TablesOf;
    TablesFound(pointer);
    GuardVerdict(pointer);
    var branches := [Then(GUARDED)] + [];
    var site := Site(USE.e.args, branches);
    assert site in Sites(USE, false, branches) && Sites(USE, false, branches) == Sites(GUARDED.body, false, branches);
    assert site in Sites(GUARDED, false, []) && site in Sites(Body(pointer), false, []);
    assert CLIENT in Arguments(site.args) && branches[0] in branches;
  }

  lemma FailsOneCondition(pointer: bool)
    ensures !LeavesBindings(Example(pointer), TargetOnly)
    ensures FunctionSpares(Example(pointer), Starter(pointer)) == pointer
    ensures CodeKeeps(Example(pointer), TargetOnly, Body(pointer)) == !pointer
  {
    hide TablesOf;
    var p, fn := Example(pointer), Starter(pointer);
    Assignments(pointer);
    TablesFound(pointer);
    WritesJudged(pointer);
    AddressJudged(pointer);
    assert p.functions["start"] == fn;
    hide Spares, CodeKeeps;
    assert WRITE in [WRITE];
    assert forall s | s in [TAKEN, THROUGH] :: s == TAKEN || s == THROUGH;
  }

  lemma BindingFields(pointer: bool)
    ensures Example(pointer).IsBindingField("A") && !Example(pointer).IsBindingField("Target")
  {
    assert BINDING in Example(pointer).bindings;
  }

  lemma WritesJudged(pointer: bool)
    ensures var p := Example(pointer);
      !Spares(p, FOUND, WRITE) && Spares(p, FOUND, TAKEN) && Spares(p, FOUND, THROUGH)
  {
    var p := Example(pointer);
    Places();
    BindingFields(pointer);
    assert RunsAlong(p, CLIENT) && RunsAlong(p, TARGET);
    assert !RunsAlong(p, THROUGH.lhs.x) && !RunsAlong(p, THROUGH.lhs);
  }

  lemma AddressJudged(pointer: bool)
    ensures CodeKeeps(Example(pointer), TargetOnly, Body(pointer)) == !pointer
  {
    var p := Example(pointer);
    BindingFields(pointer);
    assert CodeKeepsIn(p, TargetOnly, CLIENT) && CodeKeepsIn(p, TargetOnly, TARGET);
    assert CodeKeepsIn(p, TargetOnly, GUARD) && CodeKeepsInAll(p, TargetOnly, USE.e.args);
    assert CodeKeepsIn(p, TargetOnly, USE.e) && CodeKeeps(p, TargetOnly, USE) && CodeKeeps(p, TargetOnly, Skip);
    assert CodeKeeps(p, TargetOnly, GUARDED.body) && CodeKeeps(p, TargetOnly, GUARDED);
    assert CodeKeeps(p, TargetOnly, WRITE);
    assert RunsAlong(p, CLIENT) && !CodeKeepsIn(p, TargetOnly, TAKEN.rhs);
    assert !CodeKeeps(p, TargetOnly, TAKEN);
    assert CodeKeeps(p, TargetOnly, Emptying(pointer)) == !pointer;
  }

  /**
   The inspection accepts a function whose guard, on a target-only configuration, skips the client all the
   same: it writes to the binding by name, or takes its address and writes through the pointer. Each of the
   two fails another part of what leaves a binding alone.
   */
  lemma AcceptedLeadsAstray(pointer: bool)
    ensures var p, fn := Example(pointer), Starter(pointer);
      && WellTyped(p) && InspectTarget(p, fn) == None && !LeavesBindings(p, TargetOnly)
      && FunctionSpares(p, fn) == pointer && CodeKeeps(p, TargetOnly, fn.body) == !pointer
      && WorldAgrees(p, WORLD, BINDING, TargetOnly) && Wf(p, BINDING, TargetOnly, ROUTED)
      && var decisions := Invoke(p, WORLD, fn, [ROUTED], Start(fn), 20).st.decisions;
      |decisions| == 1 && decisions[0].fn == fn && !LeadsOn(p, BINDING, decisions[0])
  {
    hide Invoke, Wf, WellTyped, InspectTarget, LeavesBindings, FunctionSpares, CodeKeeps, WorldAgrees, LeadsOn;
    Declared(pointer);
    IsAccepted(pointer);
    FailsOneCondition(pointer);
    RoutedAgrees(pointer);
    RunOfStarter(pointer);
    LeadsAstray(pointer);
  }
}
