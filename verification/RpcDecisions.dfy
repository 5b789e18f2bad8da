/**
 The evaluator decides: guards built from the fields of a client configuration have a verdict, and it
 is the value that Go computes. So guards of this grammar are recognized, and certification holds just
 for the functions whose uses they cover.
 */
module RpcDecisions {
  import opened Options
  import opened GoSyntax
  import opened GoSemantics
  import opened RpcGuards
  import opened RpcAliases
  import opened RpcDenotations
  import opened RpcCertifier
  import opened RpcSoundness

  /** What a term of a guard stands for; only a text may be known by being set. */
  datatype Sort = Truth | EmptyText | SetText | Size | List

  /** The values of the leaves of a guard: the fields of one client configuration. */
  type Leaf = Expr -> Option<Value>

  function SortOfValue(v: Value): Option<Sort> {
    match v
    case VBool(_) => Some(Truth)
    case VStr(s) => Some(if s == "" then EmptyText else SetText)
    case VList(0) => Some(List)
    case _ => None
  }

  /** Operators join terms of matching sorts; two set texts cannot be compared, nor ordered with anything. */
  predicate Matching(op: BinaryOp, l: Option<Sort>, r: Option<Sort>) {
    match op
    case OrOp => l == r == Some(Truth)
    case AndOp => l == r == Some(Truth)
    case GtrOp => (l == r == Some(EmptyText)) || (l == r == Some(Size))
    case OtherBinary => false
    case _ => (l, r) in {
      (Some(EmptyText), Some(EmptyText)), (Some(EmptyText), Some(SetText)), (Some(SetText), Some(EmptyText)),
      (Some(Size), Some(Size))}
  }

  /** The call of the builtin len on a blank list. */
  predicate CountsBlank(e: Expr, leaf: Leaf, builtinLen: bool) {
    e.Call? && builtinLen && e.fun.Ident? && e.fun.name == "len" && e.fun.obj.None? && e.args.Cons? && e.args.tail.Nil?
    && leaf(e.args.head) == Some(VList(0))
  }

  /** The grammar of guards: fields, "", 0 and len of blank lists under !, &&, ||, ==, != and >. */
  function SortOf(e: Expr, leaf: Leaf, builtinLen: bool): Option<Sort> {
    match e
    case Paren(x) => SortOf(x, leaf, builtinLen)
    case Unary(op, x) => if op.NotOp? && SortOf(x, leaf, builtinLen) == Some(Truth) then Some(Truth) else None
    case Binary(op, x, y) =>
      if Matching(op, SortOf(x, leaf, builtinLen), SortOf(y, leaf, builtinLen)) then Some(Truth) else None
    case StringLit(text, _) => if text == "" then Some(EmptyText) else None
    case IntLit(n) => if n == 0 then Some(Size) else None
    case Call(fun, _) =>
      if builtinLen && fun.Ident? && fun.name == "len" && fun.obj.None?
      then if CountsBlank(e, leaf, builtinLen) then Some(Size) else None
      else if leaf(e).Some? then SortOfValue(leaf(e).value) else None
    case _ => if leaf(e).Some? then SortOfValue(leaf(e).value) else None
  }

  predicate Guard(e: Expr, leaf: Leaf, builtinLen: bool) {
    SortOf(e, leaf, builtinLen) == Some(Truth)
  }

  predicate Truthy(v: Value) { v == VBool(true) }

  function Ordered(l: Value, r: Value): bool {
    match (l, r)
    case (VStr(a), VStr(b)) => StrGreater(a, b)
    case (VInt(a), VInt(b)) => a > b
    case _ => false
  }

  /** The value of a term, as Go computes it from the values of the leaves. */
  function Denotes(e: Expr, leaf: Leaf): Value {
    match e
    case Paren(x) => Denotes(x, leaf)
    case Unary(_, x) => VBool(!Truthy(Denotes(x, leaf)))
    case Binary(op, x, y) =>
      var (l, r) := (Denotes(x, leaf), Denotes(y, leaf));
      VBool(
        if op.OrOp? then Truthy(l) || Truthy(r)
        else if op.AndOp? then Truthy(l) && Truthy(r)
        else if op.EqlOp? then l == r
        else if op.NeqOp? then l != r
        else Ordered(l, r))
    case StringLit(text, _) => VStr(text)
    case IntLit(n) => VInt(n)
    case Call(_, args) =>
      if leaf(e).Some? then leaf(e).value
      else if args.Cons? && leaf(args.head).Some? && leaf(args.head).value.VList?
        then VInt(leaf(args.head).value.length)
      else VOpaque
    case _ => if leaf(e).Some? then leaf(e).value else VOpaque
  }

  /** A field occurs in the term. */
  predicate Mentions(e: Expr, leaf: Leaf) {
    match e
    case Paren(x) => Mentions(x, leaf)
    case Unary(_, x) => Mentions(x, leaf)
    case Binary(_, x, y) => Mentions(x, leaf) || Mentions(y, leaf)
    case StringLit(_, _) => false
    case IntLit(_) => false
    case Call(_, args) => leaf(e).Some? || (args.Cons? && leaf(args.head).Some?)
    case _ => leaf(e).Some?
  }

  function VerdictFor(v: Value): Verdict {
    match v
    case VBool(b) => if b then IsTrue else IsFalse
    case VStr(s) => if s == "" then BlankString else NonemptyString
    case VList(n) => if n == 0 then BlankList else Unknown
    case VInt(n) => if n == 0 then BlankList else Unknown
    case _ => Unknown
  }

  /** The lookup knows the leaves, and calls of len are none of them. */
  ghost predicate Answers(lookup: Lookup, leaf: Leaf) {
    LenIsNoLeaf(leaf) && forall e | leaf(e).Some? :: lookup(e) == (VerdictFor(leaf(e).value), true)
  }

  ghost predicate LenIsNoLeaf(leaf: Leaf) {
    forall e | CountsBlank(e, leaf, true) :: leaf(e).None?
  }

  /** Every guard has the verdict that is its value, and refers to the binding just when it mentions a field. */
  lemma {:induction false} EvaluateDecides(e: Expr, leaf: Leaf, lookup: Lookup, builtinLen: bool)
    requires Answers(lookup, leaf) && SortOf(e, leaf, builtinLen).Some?
    ensures Evaluate(e, lookup, builtinLen) == (VerdictFor(Denotes(e, leaf)), Mentions(e, leaf))
    ensures SortFits(SortOf(e, leaf, builtinLen).value, Denotes(e, leaf))
    decreases e
  {
    match e
    case Paren(x) => EvaluateDecides(x, leaf, lookup, builtinLen);
    case Unary(op, x) => EvaluateDecides(x, leaf, lookup, builtinLen);
    case Binary(op, x, y) =>
      EvaluateDecides(x, leaf, lookup, builtinLen);
      EvaluateDecides(y, leaf, lookup, builtinLen);
      CombineDecides(op, SortOf(x, leaf, builtinLen).value, SortOf(y, leaf, builtinLen).value, Denotes(x, leaf),
        Denotes(y, leaf));
    case _ =>
  }

  predicate SortFits(sort: Sort, v: Value) {
    match sort
    case Truth => v.VBool?
    case EmptyText => v == VStr("")
    case SetText => v.VStr? && v.s != ""
    case Size => v == VInt(0)
    case List => v == VList(0)
  }

  lemma CombineDecides(op: BinaryOp, l: Sort, r: Sort, v: Value, w: Value)
    requires Matching(op, Some(l), Some(r)) && SortFits(l, v) && SortFits(r, w)
    ensures Combine(op, VerdictFor(v), VerdictFor(w)) == VerdictFor(VBool(
      if op.OrOp? then Truthy(v) || Truthy(w)
      else if op.AndOp? then Truthy(v) && Truthy(w)
      else if op.EqlOp? then v == w
      else if op.NeqOp? then v != w
      else Ordered(v, w)))
  {
  }

  // ---- Guards over the fields of one configuration ----

  /** A configuration with nothing set, or nothing but its target, as far as guards may ask. */
  function FieldValue(path: seq<string>, target: string): Option<Value> {
    if path == ["Target"] then Some(VStr(target))
    else if path == ["DiscovType"] || path == ["Etcd", "Key"] then Some(VStr(""))
    else if target != "" && (path == ["Consul", "Key"] || path == ["Consul", "Host"]) then Some(VStr(""))
    else if path == ["Endpoints"] || path == ["Endpints"] || path == ["Etcd", "Hosts"] then Some(VList(0))
    else None
  }

  function Given(target: string): Profile {
    if target == "" then Blank else TargetOnly
  }

  function FieldLeaf(path: Expr -> Option<seq<string>>, target: string): Leaf {
    e => if path(e).Some? then FieldValue(path(e).value, target) else None
  }

  /** Such paths are spelled without calls. */
  ghost predicate Spelled(path: Expr -> Option<seq<string>>) {
    forall e: Expr | e.Call? :: path(e).None?
  }

  lemma FieldsAnswer(path: Expr -> Option<seq<string>>, target: string, lookup: Lookup)
    requires Spelled(path) && forall e | path(e).Some? :: lookup(e) == FieldVerdict(Given(target), path(e))
    ensures Answers(lookup, FieldLeaf(path, target))
  {
    forall e | FieldLeaf(path, target)(e).Some?
      ensures lookup(e) == (VerdictFor(FieldLeaf(path, target)(e).value), true)
    {
      FieldKnown(path(e).value, target);
    }
  }

  lemma FieldKnown(path: seq<string>, target: string)
    requires FieldValue(path, target).Some?
    ensures FieldVerdict(Given(target), Some(path)) == (VerdictFor(FieldValue(path, target).value), true)
  {
  }

  // ---- Helpers ----

  function ParamPath(fn: Function): Expr -> Option<seq<string>>
    requires HasHelperShape(fn)
  {
    e => SelectorPath(e, fn.params[0].obj)
  }

  /** The fields of the argument have the path by which they are selected. */
  lemma {:induction false} ParamPathOf(name: string, o: Obj, path: seq<string>)
    ensures SelectorPath(Selected(Ident(name, Some(o)), path), o) == Some(path)
    decreases |path|
  {
    if path != [] {
      ParamPathOf(name, o, path[..|path| - 1]);
      assert path[..|path| - 1] + [path[|path| - 1]] == path;
    }
  }

  /** And nothing else has a path. */
  lemma {:induction false} ParamPathOnly(e: Expr, o: Obj) returns (name: string)
    requires SelectorPath(e, o).Some?
    ensures e == Selected(Ident(name, Some(o)), SelectorPath(e, o).value)
    decreases e
  {
    if e.Ident? {
      name := e.name;
    } else {
      name := ParamPathOnly(e.x, o);
      var path := SelectorPath(e, o).value;
      assert path[..|path| - 1] == SelectorPath(e.x, o).value && path[|path| - 1] == e.sel;
    }
  }

  /** A helper whose body is a guard over the fields of its argument. */
  predicate GuardHelper(p: Package, fn: Function, target: string) {
    IsPredicateHelper(fn) && Guard(fn.body.e, FieldLeaf(ParamPath(fn), target), !p.ShadowsLen())
  }

  lemma HelperDecides(p: Package, fn: Function, target: string)
    requires GuardHelper(p, fn, target)
    ensures var leaf := FieldLeaf(ParamPath(fn), target);
      && Denotes(fn.body.e, leaf).VBool?
      && HelperVerdict(p, fn, Given(target)) ==
        (if Denotes(fn.body.e, leaf).b then IsTrue else IsFalse, Mentions(fn.body.e, leaf))
  {
    var lookup := (e: Expr) => FieldVerdict(Given(target), SelectorPath(e, fn.params[0].obj));
    FieldsAnswer(ParamPath(fn), target, lookup);
    EvaluateDecides(fn.body.e, FieldLeaf(ParamPath(fn), target), lookup, !p.ShadowsLen());
  }

  /** The fields of a configuration that has nothing set but, perhaps, its target. */
  predicate Configured(fields: map<string, Value>, target: string) {
    && fields.Keys >= {"DiscovType", "Target", "Endpoints", "Endpints", "Etcd"}
    && fields["DiscovType"] == VStr("") && fields["Target"] == VStr(target)
    && fields["Endpoints"] == VList(0) && fields["Endpints"] == VList(0)
    && fields["Etcd"].VStruct? && fields["Etcd"].fields.Keys >= {"Hosts", "Key"}
    && fields["Etcd"].fields["Hosts"] == VList(0) && fields["Etcd"].fields["Key"] == VStr("")
    && (target != "" ==>
      && "Consul" in fields && fields["Consul"].VStruct? && fields["Consul"].fields.Keys >= {"Host", "Key"}
      && fields["Consul"].fields["Host"] == VStr("") && fields["Consul"].fields["Key"] == VStr(""))
  }

  lemma ZeroConfigured()
    ensures Configured(ZeroClient(), "") && Configured(ZeroClient()["Target" := VStr("a:1")], "a:1")
  {
  }

  /** How many calls of the interpreter a term may need, beyond those of its leaves. */
  function Height(e: Expr): nat {
    match e
    case Paren(x) => 1 + Height(x)
    case Unary(_, x) => 2 + Height(x)
    case Binary(_, x, y) => 2 + Height(x) + Height(y)
    case _ => 3
  }

  /** With that much fuel every leaf just reads as its value. */
  ghost predicate Readable(p: Package, w: World, st: State, mode: Mode, leaf: Leaf, enough: nat) {
    forall e, fuel: nat | leaf(e).Some? && fuel >= enough :: Eval(p, w, e, st, mode, fuel) == Ok(leaf(e).value, st)
  }

  /** The value of a term is of its sort. */
  lemma {:induction false} DenotesFits(e: Expr, leaf: Leaf, builtinLen: bool)
    requires SortOf(e, leaf, builtinLen).Some? && LenIsNoLeaf(leaf)
    ensures SortFits(SortOf(e, leaf, builtinLen).value, Denotes(e, leaf))
    decreases e
  {
    match e
    case Paren(x) => DenotesFits(x, leaf, builtinLen);
    case Call(_, _) => if CountsBlank(e, leaf, builtinLen) { assert CountsBlank(e, leaf, true); }
    case _ =>
  }

  /** A guard evaluates to its value, without effect. */
  lemma {:induction false} GuardEvaluates(p: Package, w: World, e: Expr, st: State, mode: Mode, leaf: Leaf,
    enough: nat, fuel: nat)
    requires SortOf(e, leaf, !p.ShadowsLen()).Some? && Readable(p, w, st, mode, leaf, enough) && mode == Sub(mode)
    requires LenIsNoLeaf(leaf) && fuel >= enough + Height(e)
    ensures Eval(p, w, e, st, mode, fuel) == Ok(Denotes(e, leaf), st)
    decreases e
  {
    hide Eval, EvalBinary, EvalUnary, EvalCall, Readable, LenIsNoLeaf, CountsBlank, SortOfValue, Matching;
    OneStep(p, w, e, st, mode, fuel);
    if leaf(e).Some? { LeafReads(p, w, e, st, mode, leaf, enough, fuel); }
    match e
    case Paren(x) => GuardEvaluates(p, w, x, st, mode, leaf, enough, fuel - 1);
    case Unary(op, x) =>
      GuardEvaluates(p, w, x, st, mode, leaf, enough, fuel - 2);
      DenotesFits(x, leaf, !p.ShadowsLen());
    case Binary(op, x, y) =>
      OperandsSorted(op, SortOf(x, leaf, !p.ShadowsLen()), SortOf(y, leaf, !p.ShadowsLen()));
      GuardEvaluates(p, w, x, st, mode, leaf, enough, fuel - 2);
      GuardEvaluates(p, w, y, st, mode, leaf, enough, fuel - 2);
      DenotesFits(x, leaf, !p.ShadowsLen());
      DenotesFits(y, leaf, !p.ShadowsLen());
      BinaryEvaluates(p, w, op, x, y, st, mode, leaf, fuel - 1);
    case Call(fun, args) =>
      if CountsBlank(e, leaf, !p.ShadowsLen()) { LenEvaluates(p, w, e, st, mode, leaf, enough, fuel); }
    case _ =>
  }

  lemma OperandsSorted(op: BinaryOp, l: Option<Sort>, r: Option<Sort>)
    requires Matching(op, l, r)
    ensures l.Some? && r.Some?
  {
  }

  lemma LeafReads(p: Package, w: World, e: Expr, st: State, mode: Mode, leaf: Leaf, enough: nat, fuel: nat)
    requires Readable(p, w, st, mode, leaf, enough) && leaf(e).Some? && fuel >= enough
    ensures Eval(p, w, e, st, mode, fuel) == Ok(leaf(e).value, st)
  {
  }

  lemma OneStep(p: Package, w: World, e: Expr, st: State, mode: Mode, fuel: nat)
    requires fuel > 1
    ensures e.Paren? ==> Eval(p, w, e, st, mode, fuel) == Eval(p, w, e.x, st, Sub(mode), fuel - 1)
    ensures e.Unary? && e.uop.NotOp? ==>
      Eval(p, w, e, st, mode, fuel) ==
        var r := Eval(p, w, e.x, st, Sub(mode), fuel - 2);
        if r.Halt? then r else if r.v.VBool? then Ok(VBool(!r.v.b), r.st) else Halt(r.st)
    ensures e.Binary? ==>
      Eval(p, w, e, st, mode, fuel) == EvalBinary(p, w, e.bop, e.x, e.y, st, mode, fuel - 1)
    ensures e.StringLit? ==> Eval(p, w, e, st, mode, fuel) == Ok(VStr(e.text), st)
    ensures e.IntLit? ==> Eval(p, w, e, st, mode, fuel) == Ok(VInt(e.n), st)
  {
  }

  lemma LenEvaluates(p: Package, w: World, e: Expr, st: State, mode: Mode, leaf: Leaf, enough: nat, fuel: nat)
    requires CountsBlank(e, leaf, !p.ShadowsLen()) && LenIsNoLeaf(leaf)
    requires Readable(p, w, st, mode, leaf, enough) && mode == Sub(mode) && fuel >= enough + 2
    ensures Eval(p, w, e, st, mode, fuel) == Ok(Denotes(e, leaf), st) && Denotes(e, leaf) == VInt(0)
  {
    hide Opaque;
    assert CountsBlank(e, leaf, true);
    assert p.IsBuiltinLen(e);
    assert Eval(p, w, e.args.head, st, mode, fuel - 2) == Ok(VList(0), st);
  }

  lemma BinaryEvaluates(p: Package, w: World, op: BinaryOp, x: Expr, y: Expr, st: State, mode: Mode, leaf: Leaf,
    fuel: nat)
    requires mode == Sub(mode) && fuel > 0
    requires SortOf(x, leaf, !p.ShadowsLen()).Some? && SortOf(y, leaf, !p.ShadowsLen()).Some?
    requires Matching(op, SortOf(x, leaf, !p.ShadowsLen()), SortOf(y, leaf, !p.ShadowsLen()))
    requires SortFits(SortOf(x, leaf, !p.ShadowsLen()).value, Denotes(x, leaf))
    requires SortFits(SortOf(y, leaf, !p.ShadowsLen()).value, Denotes(y, leaf))
    requires Eval(p, w, x, st, mode, fuel - 1) == Ok(Denotes(x, leaf), st)
    requires Eval(p, w, y, st, mode, fuel - 1) == Ok(Denotes(y, leaf), st)
    ensures EvalBinary(p, w, op, x, y, st, mode, fuel) == Ok(Denotes(Binary(op, x, y), leaf), st)
  {
    hide SortOf, Eval, Opaque;
  }

  /** The argument's fields read as they are. */
  lemma {:induction false} ParamReadable(p: Package, w: World, fn: Function, fields: map<string, Value>, target: string,
    st: State, mode: Mode)
    requires HasHelperShape(fn) && Configured(fields, target) && mode == Sub(mode)
    requires fn.params[0].obj in st.store && Contents(p, w, st)[fn.params[0].obj] == VStruct(RPC_CLIENT_CONF, fields)
    ensures Readable(p, w, st, mode, FieldLeaf(ParamPath(fn), target), 5)
  {
    hide Contents;
    var o := fn.params[0].obj;
    forall e, fuel: nat | FieldLeaf(ParamPath(fn), target)(e).Some? && fuel >= 5
      ensures Eval(p, w, e, st, mode, fuel) == Ok(FieldValue(SelectorPath(e, o).value, target).value, st)
    {
      var path := SelectorPath(e, o).value;
      FieldPathLength(path, target);
      assert path == SelectorPath(e.x, o).value + [e.sel];
      if |path| == 2 { assert SelectorPath(e.x, o).value == SelectorPath(e.x.x, o).value + [e.x.sel]; }
      ParamReads(p, w, e, o, fields, target, st, mode, fuel);
    }
  }

  lemma FieldPathLength(path: seq<string>, target: string)
    requires FieldValue(path, target).Some?
    ensures 1 <= |path| <= 2
  {
  }

  lemma ParamReads(p: Package, w: World, e: Expr, o: Obj, fields: map<string, Value>, target: string, st: State,
    mode: Mode, fuel: nat)
    requires Configured(fields, target) && mode == Sub(mode) && fuel >= 5 && o in st.store
    requires Contents(p, w, st)[o] == VStruct(RPC_CLIENT_CONF, fields)
    requires SelectorPath(e, o).Some? && FieldValue(SelectorPath(e, o).value, target).Some?
    requires e.Selector? && SelectorPath(e, o).value == SelectorPath(e.x, o).value + [e.sel]
    requires |SelectorPath(e, o).value| == 2 ==> SelectorPath(e.x, o).value == SelectorPath(e.x.x, o).value + [e.x.sel]
    ensures Eval(p, w, e, st, mode, fuel) == Ok(FieldValue(SelectorPath(e, o).value, target).value, st)
  {
    hide Contents;
    var path := SelectorPath(e, o).value;
    var outer := SelectorPath(e.x, o).value;
    assert path[|path| - 1] == e.sel && outer == path[..|path| - 1];
    if |path| == 1 {
      assert e.x.Ident?;
      assert Eval(p, w, e.x, st, mode, fuel - 1) == Ok(VStruct(RPC_CLIENT_CONF, fields), st);
    } else {
      assert outer[0] == e.x.sel && SelectorPath(e.x.x, o).value == outer[..0];
      assert e.x.x.Ident?;
      assert Eval(p, w, e.x.x, st, mode, fuel - 2) == Ok(VStruct(RPC_CLIENT_CONF, fields), st);
      assert Eval(p, w, e.x, st, mode, fuel - 1) == Ok(fields[e.x.sel], st);
    }
  }

  /** Calling such a helper returns the value of its guard. */
  lemma HelperReturns(p: Package, w: World, fn: Function, fields: map<string, Value>, target: string, b: Binding,
    st: State, fuel: nat)
    requires GuardHelper(p, fn, target) && Configured(fields, target) && fuel >= Height(fn.body.e) + 7
    requires fn.params[0].obj in p.objTypes ==> p.objTypes[fn.params[0].obj] == RPC_CLIENT_CONF
    ensures Invoke(p, w, fn, [VConf(b, fields)], st, fuel) ==
      Ok(Denotes(fn.body.e, FieldLeaf(ParamPath(fn), target)), st)
    ensures Denotes(fn.body.e, FieldLeaf(ParamPath(fn), target)).VBool?
  {
    hide Contents, BindParams, Configured;
    HelperDecides(p, fn, target);
    HelperEnters(p, w, fn, b, Given(target), fields, st);
    var vs := [VConf(b, fields)];
    var frame := BindParams(fn.params, vs);
    var inside := Entered(fn, frame, st);
    assert AllFit(p, frame);
    var leaf := FieldLeaf(ParamPath(fn), target);
    ParamReadable(p, w, fn, fields, target, inside, Normal);
    GuardEvaluates(p, w, fn.body.e, inside, Normal, leaf, 5, fuel - 2);
    DenotesFits(fn.body.e, leaf, !p.ShadowsLen());
    assert Exec(p, w, fn.body, inside, fuel - 1) == Returned(Denotes(fn.body.e, leaf), inside);
  }

  /** A helper of the grammar is recognized just when it looks at its argument and a blank one is refused. */
  lemma ValidHelperExactly(p: Package, w: World, fn: Function, fields: map<string, Value>, b: Binding, st: State,
    fuel: nat)
    requires GuardHelper(p, fn, "") && Configured(fields, "") && fuel >= Height(fn.body.e) + 7
    requires fn.params[0].obj in p.objTypes ==> p.objTypes[fn.params[0].obj] == RPC_CLIENT_CONF
    ensures ValidHelper(p, fn) <==>
      && Mentions(fn.body.e, FieldLeaf(ParamPath(fn), ""))
      && Invoke(p, w, fn, [VConf(b, fields)], st, fuel) == Ok(VBool(false), st)
  {
    hide Configured, Invoke;
    HelperDecides(p, fn, "");
    HelperReturns(p, w, fn, fields, "", b, st, fuel);
  }

  // ---- Guards as repositories write them ----

  /** The test that the text below `receiver` is not empty, and the test that the list has entries. */
  function IsSet(receiver: Expr, field: string): Expr {
    Binary(NeqOp, Selector(receiver, field), StringLit("", true))
  }

  function HasEntries(receiver: Expr, field: string): Expr {
    Binary(GtrOp, Call(Ident("len", None), Cons("", Selector(receiver, field), Nil)), IntLit(0))
  }

  /** Discovery type, target or Etcd key are set, or the endpoints or the hosts of Etcd have entries. */
  function RouteGuard(c: Expr): Expr {
    var etcd := Selector(c, "Etcd");
    Binary(OrOp, Binary(OrOp, Binary(OrOp, Binary(OrOp, IsSet(c, "DiscovType"), IsSet(c, "Target")),
      HasEntries(c, "Endpoints")), HasEntries(etcd, "Hosts")), IsSet(etcd, "Key"))
  }

  /** This is a proven helper wherever len is the builtin. */
  lemma RouteGuardValid(p: Package, fn: Function, o: Obj)
    requires !p.ShadowsLen() && HasHelperShape(fn) && fn.params[0].obj == o
    requires fn.body == Return(RouteGuard(Ident("c", Some(o))))
    ensures ValidHelper(p, fn)
  {
    var c, leaf := Ident("c", Some(o)), FieldLeaf(ParamPath(fn), "");
    var etcd := Selector(c, "Etcd");
    ParamField(o, "DiscovType");
    ParamField(o, "Target");
    ParamField(o, "Endpoints");
    ParamField(o, "Etcd");
    BlankFields();
    assert SelectorPath(Selector(etcd, "Hosts"), o) == Some(["Etcd"] + ["Hosts"]);
    assert SelectorPath(Selector(etcd, "Key"), o) == Some(["Etcd"] + ["Key"]);
    assert ["Etcd"] + ["Hosts"] == ["Etcd", "Hosts"] && ["Etcd"] + ["Key"] == ["Etcd", "Key"];
    assert leaf(Selector(c, "DiscovType")) == FieldValue(["DiscovType"], "");
    assert leaf(Selector(c, "Target")) == FieldValue(["Target"], "");
    assert leaf(Selector(c, "Endpoints")) == FieldValue(["Endpoints"], "");
    hide FieldValue;
    TestOfText(c, "DiscovType", leaf);
    TestOfText(c, "Target", leaf);
    TestOfList(c, "Endpoints", leaf);
    TestOfList(etcd, "Hosts", leaf);
    TestOfText(etcd, "Key", leaf);
    hide IsSet, HasEntries;
    EitherIsFalse(IsSet(c, "DiscovType"), IsSet(c, "Target"), leaf);
    var two := Binary(OrOp, IsSet(c, "DiscovType"), IsSet(c, "Target"));
    EitherIsFalse(two, HasEntries(c, "Endpoints"), leaf);
    EitherIsFalse(Binary(OrOp, two, HasEntries(c, "Endpoints")), HasEntries(etcd, "Hosts"), leaf);
    EitherIsFalse(Binary(OrOp, Binary(OrOp, two, HasEntries(c, "Endpoints")), HasEntries(etcd, "Hosts")),
      IsSet(etcd, "Key"), leaf);
    HelperDecides(p, fn, "");
  }

  lemma EitherIsFalse(x: Expr, y: Expr, leaf: Leaf)
    requires Guard(x, leaf, true) && Guard(y, leaf, true) && Mentions(x, leaf)
    requires Denotes(x, leaf) == Denotes(y, leaf) == VBool(false)
    ensures Guard(Binary(OrOp, x, y), leaf, true) && Denotes(Binary(OrOp, x, y), leaf) == VBool(false)
    ensures Mentions(Binary(OrOp, x, y), leaf)
  {
  }

  lemma BlankFields()
    ensures FieldValue(["DiscovType"], "") == FieldValue(["Target"], "") == FieldValue(["Etcd", "Key"], "") ==
      Some(VStr(""))
    ensures FieldValue(["Endpoints"], "") == FieldValue(["Etcd", "Hosts"], "") == Some(VList(0))
  {
    assert ["Endpoints"][0] != ["Target"][0] && ["Endpoints"][0] != ["DiscovType"][0];
    assert ["Etcd", "Hosts"][1] != ["Etcd", "Key"][1];
  }

  lemma ParamField(o: Obj, field: string)
    ensures SelectorPath(Selector(Ident("c", Some(o)), field), o) == Some([field])
  {
    assert [] + [field] == [field];
  }

  lemma TestOfText(receiver: Expr, field: string, leaf: Leaf)
    requires leaf(Selector(receiver, field)) == Some(VStr(""))
    ensures Guard(IsSet(receiver, field), leaf, true) && Denotes(IsSet(receiver, field), leaf) == VBool(false)
    ensures Mentions(IsSet(receiver, field), leaf)
  {
  }

  lemma TestOfList(receiver: Expr, field: string, leaf: Leaf)
    requires leaf(Selector(receiver, field)) == Some(VList(0))
    requires leaf(Call(Ident("len", None), Cons("", Selector(receiver, field), Nil))).None?
    ensures Guard(HasEntries(receiver, field), leaf, true) && Denotes(HasEntries(receiver, field), leaf) == VBool(false)
    ensures Mentions(HasEntries(receiver, field), leaf)
  {
    var size := Call(Ident("len", None), Cons("", Selector(receiver, field), Nil));
    assert CountsBlank(size, leaf, true);
    assert Denotes(size, leaf) == VInt(0) && Mentions(size, leaf);
  }
}
