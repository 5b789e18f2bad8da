/**
 The tables an RPC inspection fills before it judges a function: which objects hold a whole
 configuration, which carry one in a field, and which are aliases of a client binding. The
 tables are the fixpoint of a pass over all assignments of the body.
 */
module RpcAliases {
  import opened Options
  import opened GoSyntax

  /** The binding a local variable stands for, and the statement that made it so. */
  datatype Alias = Alias(binding: Binding, def: Stmt)

  datatype Tables = Tables(
    configs: map<Obj, TypeName>,
    carriers: map<Obj, map<string, TypeName>>,
    aliases: map<Obj, Alias>)

  /** The configuration type whose members an expression denotes. */
  function ConfigMembers(t: Tables, e: Expr): Option<TypeName> {
    match e
    case Ident(_, obj) => if obj.Some? && obj.value in t.configs then Some(t.configs[obj.value]) else None
    case Paren(x) => ConfigMembers(t, x)
    case Star(x) => ConfigMembers(t, x)
    case Unary(op, x) => if op.AddrOp? then ConfigMembers(t, x) else None
    case Selector(x, f) =>
      var base := Unparen(x);
      if base.Ident? && base.obj.Some? && base.obj.value in t.carriers && f in t.carriers[base.obj.value]
      then Some(t.carriers[base.obj.value][f]) else None
    case _ => None
  }

  /** The client binding an expression denotes. */
  function Resolve(p: Package, t: Tables, e: Expr): Option<Binding> {
    match e
    case Ident(_, obj) => if obj.Some? && obj.value in t.aliases then Some(t.aliases[obj.value].binding) else None
    case Paren(x) => Resolve(p, t, x)
    case Selector(x, f) =>
      var members := ConfigMembers(t, x);
      if members.Some? && Binding(members.value, f) in p.bindings then Some(Binding(members.value, f)) else None
    case _ => None
  }

  function FieldPath(p: Package, t: Tables, e: Expr, b: Binding): Option<seq<string>> {
    if Resolve(p, t, e) == Some(b) then Some([])
    else if e.Selector? then
      var path := FieldPath(p, t, e.x, b);
      if path.Some? then Some(path.value + [e.sel]) else None
    else None
  }

  /** The config-typed fields of a struct type, when it declares any. */
  predicate DeclaresConfigField(p: Package, typ: TypeName, f: string) {
    (typ, f) in p.configFields
  }

  function CarriedBy(p: Package, t: Tables, typ: TypeName, elts: Exprs): map<string, TypeName> {
    if elts.Nil? then map[]
    else
      var rest := CarriedBy(p, t, typ, elts.tail);
      var members := ConfigMembers(t, elts.head);
      if elts.key != "" && DeclaresConfigField(p, typ, elts.key) && members.Some? && elts.key !in rest
      then rest[elts.key := members.value] else rest
  }

  /** The carrier a composite literal (or a pointer to one) builds. */
  function CompositeCarrier(p: Package, t: Tables, e: Expr): Option<map<string, TypeName>> {
    var bare := Unparen(e);
    var literal := if bare.Unary? && bare.uop.AddrOp? then Unparen(bare.x) else bare;
    if literal.Composite? then
      var carried := CarriedBy(p, t, literal.typ, literal.elts);
      if carried == map[] then None else Some(carried)
    else None
  }

  function CopiedCarrier(t: Tables, e: Expr): Option<map<string, TypeName>> {
    var bare := Unparen(e);
    if bare.Ident? && bare.obj.Some? && bare.obj.value in t.carriers then Some(t.carriers[bare.obj.value]) else None
  }

  function AddCarrier(t: Tables, o: Obj, carrier: Option<map<string, TypeName>>): Tables {
    if carrier.Some? && o !in t.carriers then t.(carriers := t.carriers[o := carrier.value]) else t
  }

  function AddConfig(t: Tables, o: Obj, members: Option<TypeName>): Tables {
    if members.Some? && o !in t.configs then t.(configs := t.configs[o := members.value]) else t
  }

  function AddAlias(t: Tables, o: Obj, s: Stmt, binding: Option<Binding>): Tables
    requires s.Assign?
  {
    if binding.Some? && !s.kind.Plain? && o !in t.aliases
    then t.(aliases := t.aliases[o := Alias(binding.value, s)]) else t
  }

  /** What one assignment adds; each table keeps its first entry for an object. */
  function Step(p: Package, t: Tables, s: Stmt): Tables {
    if !s.Assign? || !s.lhs.Ident? || s.lhs.obj.None? then t
    else
      var o := s.lhs.obj.value;
      var t1 := AddCarrier(t, o, CompositeCarrier(p, t, s.rhs));
      var t2 := AddCarrier(t1, o, CopiedCarrier(t1, s.rhs));
      var t3 := AddConfig(t2, o, ConfigMembers(t2, s.rhs));
      AddAlias(t3, o, s, Resolve(p, t3, s.rhs))
  }

  function Pass(p: Package, t: Tables, stmts: seq<Stmt>): Tables
    decreases |stmts|
  {
    if stmts == [] then t else Pass(p, Step(p, t, stmts[0]), stmts[1..])
  }

  // ---- Passes only add entries, so repeating them ends ----

  ghost predicate Grows(t: Tables, u: Tables) {
    && (forall o | o in t.configs :: o in u.configs && u.configs[o] == t.configs[o])
    && (forall o | o in t.carriers :: o in u.carriers && u.carriers[o] == t.carriers[o])
    && (forall o | o in t.aliases :: o in u.aliases && u.aliases[o] == t.aliases[o])
  }

  lemma StepGrows(p: Package, t: Tables, s: Stmt)
    ensures Grows(t, Step(p, t, s))
  {
    hide CompositeCarrier, CopiedCarrier, ConfigMembers, Resolve;
  }

  lemma {:induction false} PassGrows(p: Package, t: Tables, stmts: seq<Stmt>)
    ensures Grows(t, Pass(p, t, stmts))
    decreases |stmts|
  {
    if stmts != [] {
      StepGrows(p, t, stmts[0]);
      PassGrows(p, Step(p, t, stmts[0]), stmts[1..]);
    }
  }

  /** A pass that changed nothing leaves every single step without effect. */
  lemma {:induction false} PassStable(p: Package, t: Tables, stmts: seq<Stmt>)
    requires Pass(p, t, stmts) == t
    ensures forall s | s in stmts :: Step(p, t, s) == t
  {
    if stmts != [] {
      var u := Step(p, t, stmts[0]);
      StepGrows(p, t, stmts[0]);
      PassGrows(p, u, stmts[1..]);
      GrowsBothWays(t, u);
      PassStable(p, t, stmts[1..]);
    }
  }

  lemma GrowsBothWays(t: Tables, u: Tables)
    requires Grows(t, u) && Grows(u, t)
    ensures t == u
  {
    assert t.configs == u.configs && t.carriers == u.carriers && t.aliases == u.aliases;
  }

  function Objects(stmts: seq<Stmt>): set<Obj> {
    set s | s in stmts && s.Assign? && s.lhs.Ident? && s.lhs.obj.Some? :: s.lhs.obj.value
  }

  function Missing(t: Tables, objects: set<Obj>): nat {
    |objects - t.configs.Keys| + |objects - t.carriers.Keys| + |objects - t.aliases.Keys|
  }

  lemma {:induction false} PassStaysInside(p: Package, t: Tables, stmts: seq<Stmt>)
    ensures Pass(p, t, stmts).configs.Keys <= t.configs.Keys + Objects(stmts)
    ensures Pass(p, t, stmts).carriers.Keys <= t.carriers.Keys + Objects(stmts)
    ensures Pass(p, t, stmts).aliases.Keys <= t.aliases.Keys + Objects(stmts)
    decreases |stmts|
  {
    if stmts != [] {
      var u := Step(p, t, stmts[0]);
      StepStaysInside(p, t, stmts[0]);
      PassStaysInside(p, u, stmts[1..]);
      assert Objects(stmts) == Objects([stmts[0]]) + Objects(stmts[1..]);
    }
  }

  lemma StepStaysInside(p: Package, t: Tables, s: Stmt)
    ensures Step(p, t, s).configs.Keys <= t.configs.Keys + Objects([s])
    ensures Step(p, t, s).carriers.Keys <= t.carriers.Keys + Objects([s])
    ensures Step(p, t, s).aliases.Keys <= t.aliases.Keys + Objects([s])
  {
    if s.Assign? && s.lhs.Ident? && s.lhs.obj.Some? {
      assert s in [s];
      assert s.lhs.obj.value in Objects([s]);
    }
  }

  lemma SmallerDifference(objects: set<Obj>, a: set<Obj>, b: set<Obj>)
    requires a <= b
    ensures |objects - b| <= |objects - a|
    ensures a != b && b <= a + objects ==> |objects - b| < |objects - a|
  {
    assert objects - a == (objects - b) + (objects * (b - a));
    if a != b && b <= a + objects {
      var o :| o in b - a;
      assert o in objects * (b - a);
    }
  }

  /** Every pass that changes something leaves fewer entries to add. */
  lemma PassProgress(p: Package, t: Tables, stmts: seq<Stmt>)
    requires Pass(p, t, stmts) != t
    ensures Missing(Pass(p, t, stmts), Objects(stmts)) < Missing(t, Objects(stmts))
  {
    var u := Pass(p, t, stmts);
    PassGrows(p, t, stmts);
    PassStaysInside(p, t, stmts);
    assert t.configs.Keys <= u.configs.Keys && t.carriers.Keys <= u.carriers.Keys && t.aliases.Keys <= u.aliases.Keys;
    SmallerDifference(Objects(stmts), t.configs.Keys, u.configs.Keys);
    SmallerDifference(Objects(stmts), t.carriers.Keys, u.carriers.Keys);
    SmallerDifference(Objects(stmts), t.aliases.Keys, u.aliases.Keys);
    if t.configs.Keys == u.configs.Keys && t.carriers.Keys == u.carriers.Keys && t.aliases.Keys == u.aliases.Keys {
      assert Grows(u, t);
      GrowsBothWays(t, u);
    }
  }

  /** The tables above t that a further pass leaves alone. */
  function Fixpoint(p: Package, t: Tables, stmts: seq<Stmt>): (u: Tables)
    ensures Pass(p, u, stmts) == u
    decreases Missing(t, Objects(stmts))
  {
    var next := Pass(p, t, stmts);
    if next == t then t
    else
      PassProgress(p, t, stmts);
      PassGrows(p, t, stmts);
      Fixpoint(p, next, stmts)
  }

  function ParamConfigs(p: Package, params: seq<Param>): map<Obj, TypeName> {
    if params == [] then map[]
    else
      var rest := ParamConfigs(p, params[1..]);
      if p.IsConfigType(params[0].typ) then rest[params[0].obj := params[0].typ] else rest
  }

  function Initial(p: Package, fn: Function): Tables {
    Tables(ParamConfigs(p, fn.params), map[], map[])
  }

  function TablesOf(p: Package, fn: Function): Tables {
    Fixpoint(p, Initial(p, fn), AssignsOf(fn.body))
  }

  /** One inspection of the body, noting whether it added anything. */
  method OnePass(p: Package, t: Tables, stmts: seq<Stmt>) returns (u: Tables, changed: bool)
    ensures u == Pass(p, t, stmts)
    ensures changed <==> u != t
  {
    u, changed := t, false;
    var i := 0;
    while i < |stmts|
      invariant 0 <= i <= |stmts|
      invariant Pass(p, u, stmts[i..]) == Pass(p, t, stmts)
      invariant Grows(t, u)
      invariant changed <==> u != t
    {
      var next := Step(p, u, stmts[i]);
      StepGrows(p, u, stmts[i]);
      assert stmts[i..][1..] == stmts[i + 1..];
      if next != u {
        if next == t { GrowsBothWays(t, u); }
        changed := true;
        u := next;
      }
      i := i + 1;
    }
  }

  /** The `changed` loop: passes over the body until one changes nothing. */
  method BuildTables(p: Package, fn: Function) returns (t: Tables)
    ensures t == TablesOf(p, fn)
  {
    var stmts := AssignsOf(fn.body);
    t := Initial(p, fn);
    var changed := true;
    while changed
      invariant Fixpoint(p, t, stmts) == TablesOf(p, fn)
      invariant !changed ==> Pass(p, t, stmts) == t
      decreases Missing(t, Objects(stmts)), changed
    {
      PassGrows(p, t, stmts);
      if Pass(p, t, stmts) != t { PassProgress(p, t, stmts); }
      t, changed := OnePass(p, t, stmts);
    }
  }

  // ---- What the final tables justify ----

  lemma {:induction false} ResolveGrows(p: Package, t: Tables, u: Tables, e: Expr)
    requires Grows(t, u)
    ensures ConfigMembers(t, e).Some? ==> ConfigMembers(u, e) == ConfigMembers(t, e)
    ensures Resolve(p, t, e).Some? ==> Resolve(p, u, e) == Resolve(p, t, e)
  {
    match e
    case Paren(x) => ResolveGrows(p, t, u, x);
    case Star(x) => ResolveGrows(p, t, u, x);
    case Unary(_, x) => ResolveGrows(p, t, u, x);
    case Selector(x, _) => ResolveGrows(p, t, u, x);
    case _ =>
  }

  /** Each alias was defined by one of the assignments, from an expression that resolves. */
  ghost predicate Justified(p: Package, t: Tables, stmts: seq<Stmt>) {
    forall o | o in t.aliases :: DefinesAlias(p, t, o) && t.aliases[o].def in stmts
  }

  predicate DefinesAlias(p: Package, t: Tables, o: Obj)
    requires o in t.aliases
  {
    var s := t.aliases[o].def;
    s.Assign? && !s.kind.Plain? && s.lhs.Ident? && s.lhs.obj == Some(o)
      && Resolve(p, t, s.rhs) == Some(t.aliases[o].binding)
  }

  lemma JustifiedStep(p: Package, t: Tables, s: Stmt, stmts: seq<Stmt>)
    requires Justified(p, t, stmts) && s in stmts
    ensures Justified(p, Step(p, t, s), stmts)
  {
    var u := Step(p, t, s);
    StepGrows(p, t, s);
    forall o | o in u.aliases ensures DefinesAlias(p, u, o) && u.aliases[o].def in stmts {
      if o in t.aliases {
        assert DefinesAlias(p, t, o);
        ResolveGrows(p, t, u, t.aliases[o].def.rhs);
      } else {
        NewAliasJustified(p, t, s, o);
      }
    }
  }

  lemma NewAliasJustified(p: Package, t: Tables, s: Stmt, o: Obj)
    requires o !in t.aliases && o in Step(p, t, s).aliases
    ensures Step(p, t, s).aliases[o].def == s && DefinesAlias(p, Step(p, t, s), o)
  {
    var u := Step(p, t, s);
    var t1 := AddCarrier(t, o, CompositeCarrier(p, t, s.rhs));
    var t2 := AddCarrier(t1, o, CopiedCarrier(t1, s.rhs));
    var t3 := AddConfig(t2, o, ConfigMembers(t2, s.rhs));
    assert u == AddAlias(t3, o, s, Resolve(p, t3, s.rhs));
    ResolveIgnoresNewAlias(p, t3, u, s.rhs, o);
  }

  lemma {:induction false} ResolveIgnoresNewAlias(p: Package, t: Tables, u: Tables, e: Expr, o: Obj)
    requires u.configs == t.configs && u.carriers == t.carriers && o !in t.aliases
    requires o in u.aliases && u.aliases == t.aliases[o := u.aliases[o]]
    requires Resolve(p, t, e).Some?
    ensures Resolve(p, u, e) == Resolve(p, t, e)
  {
    match e
    case Paren(x) => ResolveIgnoresNewAlias(p, t, u, x, o);
    case Selector(x, _) => MembersSame(t, u, x);
    case _ =>
  }

  lemma {:induction false} MembersSame(t: Tables, u: Tables, e: Expr)
    requires u.configs == t.configs && u.carriers == t.carriers
    ensures ConfigMembers(u, e) == ConfigMembers(t, e)
  {
    match e
    case Paren(x) => MembersSame(t, u, x);
    case Star(x) => MembersSame(t, u, x);
    case Unary(_, x) => MembersSame(t, u, x);
    case _ =>
  }

  lemma {:induction false} JustifiedPass(p: Package, t: Tables, part: seq<Stmt>, stmts: seq<Stmt>)
    requires Justified(p, t, stmts) && forall s | s in part :: s in stmts
    ensures Justified(p, Pass(p, t, part), stmts)
    decreases |part|
  {
    if part != [] {
      JustifiedStep(p, t, part[0], stmts);
      JustifiedPass(p, Step(p, t, part[0]), part[1..], stmts);
    }
  }

  lemma {:induction false} FixpointJustified(p: Package, t: Tables, stmts: seq<Stmt>)
    requires Justified(p, t, stmts)
    ensures Justified(p, Fixpoint(p, t, stmts), stmts)
    decreases Missing(t, Objects(stmts))
  {
    if Pass(p, t, stmts) != t {
      PassProgress(p, t, stmts);
      JustifiedPass(p, t, stmts, stmts);
      FixpointJustified(p, Pass(p, t, stmts), stmts);
    }
  }

  // ---- The tables agree with Go's static types ----

  function StaticType(p: Package, e: Expr): Option<TypeName> {
    match e
    case Ident(_, obj) => if obj.Some? && obj.value in p.objTypes then Some(p.objTypes[obj.value]) else None
    case Paren(x) => StaticType(p, x)
    case Star(x) => StaticType(p, x)
    case Unary(op, x) => if op.AddrOp? then StaticType(p, x) else None
    case Selector(x, f) =>
      var base := StaticType(p, x);
      if base.None? then None
      else if Binding(base.value, f) in p.bindings then Some(RPC_CLIENT_CONF)
      else if (base.value, f) in p.configFields then Some(p.configFields[(base.value, f)])
      else None
    case Composite(typ, _) => Some(typ)
    case _ => None
  }

  /** Assignability: a variable has the struct type of what is assigned to it. */
  predicate TypedAssign(p: Package, s: Stmt) {
    s.Assign? && s.lhs.Ident? && s.lhs.obj.Some? && StaticType(p, s.rhs).Some? ==>
      s.lhs.obj.value in p.objTypes && Some(p.objTypes[s.lhs.obj.value]) == StaticType(p, s.rhs)
      && TypedElements(p, s.rhs)
  }

  predicate TypedElements(p: Package, e: Expr) {
    match e
    case Composite(typ, elts) => TypedFields(p, typ, elts)
    case Unary(_, x) => TypedElements(p, x)
    case Paren(x) => TypedElements(p, x)
    case _ => true
  }

  predicate TypedFields(p: Package, typ: TypeName, elts: Exprs) {
    elts.Cons? ==>
      && TypedFields(p, typ, elts.tail)
      && ((typ, elts.key) in p.configFields && StaticType(p, elts.head).Some? ==>
            Some(p.configFields[(typ, elts.key)]) == StaticType(p, elts.head))
  }

  /** Client configurations, whole configurations and their carriers are struct types of their own. */
  predicate SensibleTypes(p: Package) {
    && (forall b | b in p.bindings :: b.structName !in LIBRARY_TYPES && (b.structName, b.field) !in p.configFields)
    && (forall k | k in p.configFields :: k.0 !in LIBRARY_TYPES && p.configFields[k] !in LIBRARY_TYPES)
  }

  ghost predicate TypedTables(p: Package, t: Tables) {
    && SensibleTypes(p)
    && (forall o | o in t.configs :: o in p.objTypes && p.objTypes[o] == t.configs[o] != RPC_CLIENT_CONF)
    && (forall o, f | o in t.carriers && f in t.carriers[o] :: TypedCarrier(p, o, f, t.carriers[o][f]))
    && (forall o | o in t.aliases :: o in p.objTypes && p.objTypes[o] == RPC_CLIENT_CONF)
  }

  predicate TypedCarrier(p: Package, o: Obj, f: string, typ: TypeName) {
    o in p.objTypes && (p.objTypes[o], f) in p.configFields && p.configFields[(p.objTypes[o], f)] == typ
  }

  lemma {:induction false} UnparenType(p: Package, e: Expr)
    ensures StaticType(p, Unparen(e)) == StaticType(p, e)
    ensures TypedElements(p, e) ==> TypedElements(p, Unparen(e))
  {
    if e.Paren? { UnparenType(p, e.x); }
  }

  lemma {:induction false} MembersTyped(p: Package, t: Tables, e: Expr)
    requires TypedTables(p, t) && ConfigMembers(t, e).Some?
    ensures StaticType(p, e) == ConfigMembers(t, e) && StaticType(p, e).value != RPC_CLIENT_CONF
  {
    match e
    case Ident(_, _) =>
    case Paren(x) => MembersTyped(p, t, x);
    case Star(x) => MembersTyped(p, t, x);
    case Unary(_, x) => MembersTyped(p, t, x);
    case Selector(x, f) =>
      UnparenType(p, x);
      assert TypedCarrier(p, Unparen(x).obj.value, f, t.carriers[Unparen(x).obj.value][f]);
  }

  /** What resolves to a binding is a client configuration, and no whole configuration. */
  lemma {:induction false} ResolvedTyped(p: Package, t: Tables, e: Expr)
    requires TypedTables(p, t) && Resolve(p, t, e).Some?
    ensures StaticType(p, e) == Some(RPC_CLIENT_CONF) && ConfigMembers(t, e).None?
  {
    match e
    case Ident(_, _) =>
    case Paren(x) => ResolvedTyped(p, t, x);
    case Selector(x, _) => MembersTyped(p, t, x);
    if ConfigMembers(t, e).Some? { MembersTyped(p, t, e); }
  }

  lemma {:induction false} CarriedTyped(p: Package, t: Tables, typ: TypeName, elts: Exprs)
    requires TypedTables(p, t) && TypedFields(p, typ, elts)
    ensures forall f | f in CarriedBy(p, t, typ, elts) ::
      (typ, f) in p.configFields && p.configFields[(typ, f)] == CarriedBy(p, t, typ, elts)[f]
  {
    if elts.Cons? {
      CarriedTyped(p, t, typ, elts.tail);
      if ConfigMembers(t, elts.head).Some? { MembersTyped(p, t, elts.head); }
    }
  }

  lemma CompositeTyped(p: Package, t: Tables, s: Stmt, o: Obj)
    requires TypedTables(p, t) && TypedAssign(p, s) && s.Assign? && s.lhs.Ident? && s.lhs.obj == Some(o)
    ensures TypedTables(p, AddCarrier(t, o, CompositeCarrier(p, t, s.rhs)))
  {
    var bare := Unparen(s.rhs);
    UnparenType(p, s.rhs);
    if CompositeCarrier(p, t, s.rhs).Some? {
      var literal := if bare.Unary? then Unparen(bare.x) else bare;
      if bare.Unary? { UnparenType(p, bare.x); }
      CarriedTyped(p, t, literal.typ, literal.elts);
    }
  }

  lemma CopyTyped(p: Package, t: Tables, s: Stmt, o: Obj)
    requires TypedTables(p, t) && TypedAssign(p, s) && s.Assign? && s.lhs.Ident? && s.lhs.obj == Some(o)
    ensures TypedTables(p, AddCarrier(t, o, CopiedCarrier(t, s.rhs)))
  {
    UnparenType(p, s.rhs);
    if CopiedCarrier(t, s.rhs).Some? {
      var from := Unparen(s.rhs).obj.value;
      forall f | f in t.carriers[from] ensures TypedCarrier(p, o, f, t.carriers[from][f]) {
        assert TypedCarrier(p, from, f, t.carriers[from][f]);
      }
    }
  }

  lemma TypedStep(p: Package, t: Tables, s: Stmt)
    requires TypedTables(p, t) && TypedAssign(p, s)
    ensures TypedTables(p, Step(p, t, s))
  {
    if s.Assign? && s.lhs.Ident? && s.lhs.obj.Some? {
      var o := s.lhs.obj.value;
      CompositeTyped(p, t, s, o);
      var t1 := AddCarrier(t, o, CompositeCarrier(p, t, s.rhs));
      CopyTyped(p, t1, s, o);
      var t2 := AddCarrier(t1, o, CopiedCarrier(t1, s.rhs));
      if ConfigMembers(t2, s.rhs).Some? { MembersTyped(p, t2, s.rhs); }
      var t3 := AddConfig(t2, o, ConfigMembers(t2, s.rhs));
      if Resolve(p, t3, s.rhs).Some? { ResolvedTyped(p, t3, s.rhs); }
    }
  }

  lemma {:induction false} TypedPass(p: Package, t: Tables, stmts: seq<Stmt>)
    requires TypedTables(p, t) && forall s | s in stmts :: TypedAssign(p, s)
    ensures TypedTables(p, Pass(p, t, stmts))
    decreases |stmts|
  {
    if stmts != [] {
      TypedStep(p, t, stmts[0]);
      TypedPass(p, Step(p, t, stmts[0]), stmts[1..]);
    }
  }

  lemma {:induction false} FixpointTyped(p: Package, t: Tables, stmts: seq<Stmt>)
    requires TypedTables(p, t)
    requires forall s | s in stmts :: TypedAssign(p, s)
    ensures TypedTables(p, Fixpoint(p, t, stmts))
    decreases Missing(t, Objects(stmts))
  {
    if Pass(p, t, stmts) != t {
      PassProgress(p, t, stmts);
      PassGrows(p, t, stmts);
      TypedPass(p, t, stmts);
      FixpointTyped(p, Pass(p, t, stmts), stmts);
    }
  }
}
