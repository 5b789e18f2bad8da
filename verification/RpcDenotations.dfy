/** What expressions denote, and that the tables miss nothing, told without the passes of the inspection. */
module RpcDenotations {
  import opened Options
  import opened GoSyntax
  import opened RpcAliases

  /** Without parentheses, dereferences and address operators. */
  function Stripped(e: Expr): Expr {
    if e.Paren? || e.Star? || (e.Unary? && e.uop.AddrOp?) then Stripped(e.x) else e
  }

  /** A whole configuration is a variable that holds one, or a carrier's field, under any pointer syntax. */
  lemma {:induction false} MembersExact(t: Tables, e: Expr, typ: TypeName)
    ensures ConfigMembers(t, e) == Some(typ) <==>
      var x := Stripped(e);
      || (x.Ident? && x.obj.Some? && x.obj.value in t.configs && t.configs[x.obj.value] == typ)
      || (x.Selector? && Unparen(x.x).Ident? && Unparen(x.x).obj.Some?
          && var o := Unparen(x.x).obj.value;
          o in t.carriers && x.sel in t.carriers[o] && t.carriers[o][x.sel] == typ)
  {
    if e.Paren? || e.Star? || (e.Unary? && e.uop.AddrOp?) { MembersExact(t, e.x, typ); }
  }

  /** A binding is denoted by an alias of it, or by selecting its field from a whole configuration. */
  lemma {:induction false} ResolveExact(p: Package, t: Tables, e: Expr, b: Binding)
    ensures Resolve(p, t, e) == Some(b) <==>
      var x := Unparen(e);
      || (x.Ident? && x.obj.Some? && x.obj.value in t.aliases && t.aliases[x.obj.value].binding == b)
      || (x.Selector? && ConfigMembers(t, x.x) == Some(b.structName) && x.sel == b.field && b in p.bindings)
  {
    if e.Paren? { ResolveExact(p, t, e.x, b); }
  }

  function Selected(receiver: Expr, path: seq<string>): Expr {
    if path == [] then receiver else Selector(Selected(receiver, path[..|path| - 1]), path[|path| - 1])
  }

  /** Fields of a binding, however deep, have the path by which they are selected. */
  lemma {:induction false} FieldPathExact(p: Package, t: Tables, receiver: Expr, path: seq<string>, b: Binding)
    requires TypedTables(p, t) && Resolve(p, t, receiver) == Some(b)
    ensures FieldPath(p, t, Selected(receiver, path), b) == Some(path)
    ensures ConfigMembers(t, Selected(receiver, path)).None?
    ensures path != [] ==> Resolve(p, t, Selected(receiver, path)).None?
    decreases |path|
  {
    hide TypedTables, ConfigMembers, Resolve, FieldPath, Selected;
    SelectedStep(receiver, path);
    if path == [] {
      ResolvedTyped(p, t, receiver);
      HasPath(p, t, receiver, b);
    } else {
      var n := |path| - 1;
      var x := Selected(receiver, path[..n]);
      FieldPathExact(p, t, receiver, path[..n], b);
      if Unparen(x).Ident? { AliasCarriesNothing(p, t, receiver, path[..n]); }
      FieldHasPath(p, t, x, path[n], path[..n], b);
      assert path[..n] + [path[n]] == path;
    }
  }

  lemma SelectedStep(receiver: Expr, path: seq<string>)
    ensures Selected(receiver, path) ==
      if path == [] then receiver else Selector(Selected(receiver, path[..|path| - 1]), path[|path| - 1])
  {
  }

  lemma HasPath(p: Package, t: Tables, e: Expr, b: Binding)
    requires Resolve(p, t, e) == Some(b)
    ensures FieldPath(p, t, e, b) == Some([])
  {
  }

  lemma FieldHasPath(p: Package, t: Tables, x: Expr, f: string, path: seq<string>, b: Binding)
    requires FieldPath(p, t, x, b) == Some(path) && ConfigMembers(t, x).None?
    requires Unparen(x).Ident? ==>
      Unparen(x).obj.Some? && forall g | Unparen(x).obj.value in t.carriers :: g !in t.carriers[Unparen(x).obj.value]
    ensures var e := Selector(x, f);
      Resolve(p, t, e).None? && ConfigMembers(t, e).None? && FieldPath(p, t, e, b) == Some(path + [f])
  {
  }

  lemma CarrierIsNoClient(p: Package, t: Tables, o: Obj, f: string)
    requires TypedTables(p, t) && o in t.carriers && f in t.carriers[o]
    ensures o in p.objTypes && p.objTypes[o] != RPC_CLIENT_CONF
  {
    assert TypedCarrier(p, o, f, t.carriers[o][f]);
  }

  lemma AliasCarriesNothing(p: Package, t: Tables, receiver: Expr, path: seq<string>)
    requires TypedTables(p, t) && Resolve(p, t, receiver).Some? && Unparen(Selected(receiver, path)).Ident?
    ensures var x := Unparen(Selected(receiver, path));
      x.obj.Some? && forall f | x.obj.value in t.carriers :: f !in t.carriers[x.obj.value]
  {
    assert path == [];
    ResolveExact(p, t, receiver, Resolve(p, t, receiver).value);
    var o := Unparen(receiver).obj.value;
    assert o in p.objTypes && p.objTypes[o] == RPC_CLIENT_CONF;
    if o in t.carriers {
      forall f | f in t.carriers[o] ensures false { CarrierIsNoClient(p, t, o, f); }
    }
  }

  /** The final tables miss nothing that an assignment of the body makes an alias, a configuration or a carrier. */
  lemma TablesComplete(p: Package, fn: Function, s: Stmt)
    requires s in AssignsOf(fn.body) && s.Assign? && s.lhs.Ident? && s.lhs.obj.Some?
    ensures var t, o := TablesOf(p, fn), s.lhs.obj.value;
      && (Resolve(p, t, s.rhs).Some? && (s.kind.Define? || s.kind.VarDecl?) ==> o in t.aliases)
      && (ConfigMembers(t, s.rhs).Some? ==> o in t.configs)
      && (Unparen(s.rhs).Ident? && Unparen(s.rhs).obj.Some? && Unparen(s.rhs).obj.value in t.carriers ==>
            o in t.carriers)
      && (Literal(s.rhs).Composite? && Carries(p, t, Literal(s.rhs).typ, Literal(s.rhs).elts) ==> o in t.carriers)
  {
    var t, o := TablesOf(p, fn), s.lhs.obj.value;
    hide TablesOf, ConfigMembers, Resolve, CarriedBy;
    assert Pass(p, t, AssignsOf(fn.body)) == t by { FinalPass(p, fn); }
    PassStable(p, t, AssignsOf(fn.body));
    StepComplete(p, t, s);
  }

  lemma FinalPass(p: Package, fn: Function)
    ensures Pass(p, TablesOf(p, fn), AssignsOf(fn.body)) == TablesOf(p, fn)
  {
  }

  /** The composite literal that is assigned, itself or its address. */
  function Literal(e: Expr): Expr {
    var bare := Unparen(e);
    if bare.Unary? && bare.uop.AddrOp? then Unparen(bare.x) else bare
  }

  /** The literal sets a field that holds a configuration to one. */
  predicate Carries(p: Package, t: Tables, typ: TypeName, elts: Exprs) {
    elts.Cons? && (
      || Carries(p, t, typ, elts.tail)
      || (elts.key != "" && (typ, elts.key) in p.configFields && ConfigMembers(t, elts.head).Some?))
  }

  lemma {:induction false} CarriedExact(p: Package, t: Tables, typ: TypeName, elts: Exprs)
    ensures CarriedBy(p, t, typ, elts) != map[] <==> Carries(p, t, typ, elts)
  {
    if elts.Cons? {
      CarriedExact(p, t, typ, elts.tail);
      var rest := CarriedBy(p, t, typ, elts.tail);
      var members := ConfigMembers(t, elts.head);
      if elts.key != "" && (typ, elts.key) in p.configFields && members.Some? {
        assert elts.key in CarriedBy(p, t, typ, elts);
      }
    }
  }

  lemma StepComplete(p: Package, t: Tables, s: Stmt)
    requires s.Assign? && s.lhs.Ident? && s.lhs.obj.Some? && Step(p, t, s) == t
    ensures var o := s.lhs.obj.value;
      && (Resolve(p, t, s.rhs).Some? && (s.kind.Define? || s.kind.VarDecl?) ==> o in t.aliases)
      && (ConfigMembers(t, s.rhs).Some? ==> o in t.configs)
      && (CopiedCarrier(t, s.rhs).Some? ==> o in t.carriers)
      && (Literal(s.rhs).Composite? && Carries(p, t, Literal(s.rhs).typ, Literal(s.rhs).elts) ==> o in t.carriers)
  {
    hide ConfigMembers, Resolve, CarriedBy, CopiedCarrier;
    var o := s.lhs.obj.value;
    if Literal(s.rhs).Composite? { CarriedExact(p, t, Literal(s.rhs).typ, Literal(s.rhs).elts); }
    hide Carries, CompositeCarrier;
    var t1 := AddCarrier(t, o, CompositeCarrier(p, t, s.rhs));
    var t2 := AddCarrier(t1, o, CopiedCarrier(t1, s.rhs));
    var t3 := AddConfig(t2, o, ConfigMembers(t2, s.rhs));
    StagesGrow(p, t, s);
    assert t1 == t && t2 == t && t3 == t;
    if Literal(s.rhs).Composite? && Carries(p, t, Literal(s.rhs).typ, Literal(s.rhs).elts) {
      assert CompositeCarrier(p, t, s.rhs).Some? by { CompositeFound(p, t, s.rhs); }
    }
  }

  lemma CompositeFound(p: Package, t: Tables, e: Expr)
    requires Literal(e).Composite? && CarriedBy(p, t, Literal(e).typ, Literal(e).elts) != map[]
    ensures CompositeCarrier(p, t, e).Some?
  {
  }

  /** A step that changes nothing in the end changes nothing on the way. */
  lemma StagesGrow(p: Package, t: Tables, s: Stmt)
    requires s.Assign? && s.lhs.Ident? && s.lhs.obj.Some? && Step(p, t, s) == t
    ensures var o := s.lhs.obj.value;
      var t1 := AddCarrier(t, o, CompositeCarrier(p, t, s.rhs));
      var t2 := AddCarrier(t1, o, CopiedCarrier(t1, s.rhs));
      var t3 := AddConfig(t2, o, ConfigMembers(t2, s.rhs));
      t1 == t && t2 == t && t3 == t
  {
    hide CompositeCarrier, CopiedCarrier, ConfigMembers, Resolve;
    var o := s.lhs.obj.value;
    var t1 := AddCarrier(t, o, CompositeCarrier(p, t, s.rhs));
    var t2 := AddCarrier(t1, o, CopiedCarrier(t1, s.rhs));
    var t3 := AddConfig(t2, o, ConfigMembers(t2, s.rhs));
    assert t3.carriers == t.carriers && t3.configs == t.configs;
  }
}
