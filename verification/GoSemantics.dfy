/**
 A fuelled interpreter for the mini-Go. Opaque code (globals, other packages, arithmetic,
 goroutine scheduling) answers from an oracle and may run any function literal the frame
 has created. `used` collects the bindings whose client configuration has been used: read
 as a value anywhere except in an if-condition or as the right-hand side of an alias
 definition, handed to a call, returned, or written to. `decisions` records which way
 every if went. A pointer is the value it points to, copied; in exchange a variable whose
 address the function takes anywhere may read as anything of its kind from the start.
 */
module GoSemantics {
  import opened Options
  import opened GoSyntax

  datatype Value =
    | VBool(b: bool)
    | VStr(s: string)
    | VInt(n: int)
    | VList(length: nat)
    | VStruct(typ: TypeName, fields: map<string, Value>)
    | VConf(binding: Binding, fields: map<string, Value>)  // the RpcClientConf held by that field
    | VOpaque

  /** A client configuration that has left its field or alias is an ordinary struct. */
  function Detach(v: Value): Value {
    if v.VConf? then VStruct(RPC_CLIENT_CONF, v.fields) else v
  }

  /** What opaque code returns and runs, and what a variable reads as that a pointer leads to. */
  datatype World = World(value: nat -> Value, pick: nat -> nat, seen: (nat, Obj, Value) -> Value)

  /** Which way an if of a function went, and what the variables read as when it was reached. */
  datatype Decision = Decision(fn: Function, guard: Stmt, taken: bool, seen: map<Obj, Value>)

  /** A frame of function `here`, with what has happened in the whole run so far. */
  datatype State = State(
    store: map<Obj, Value>,
    pool: seq<Stmt>,
    here: Function,
    used: set<Binding>,
    tick: nat,
    decisions: seq<Decision>)

  /** Before anything has run, on the way into a function. */
  function Start(fn: Function): State {
    State(map[], [], fn, {}, 0, [])
  }

  datatype Mode = Normal | InCond | AliasDef

  function Sub(mode: Mode): Mode { if mode == InCond then InCond else Normal }

  datatype Result = Ok(v: Value, st: State) | Halt(st: State)
  datatype Results = OkAll(vs: seq<Value>, st: State) | HaltAll(st: State)
  datatype Flow = Next(st: State) | Returned(v: Value, st: State) | Stop(st: State)

  function Read(v: Value, st: State, mode: Mode): Result {
    if v.VConf? && mode == Normal then Ok(v, st.(used := st.used + {v.binding})) else Ok(v, st)
  }

  function TypeOf(v: Value): Option<TypeName> {
    if v.VStruct? then Some(v.typ) else if v.VConf? then Some(RPC_CLIENT_CONF) else None
  }

  /** Static struct types of variables are respected by every store. */
  predicate Fits(p: Package, o: Obj, v: Value) {
    o in p.objTypes ==> TypeOf(v) == Some(p.objTypes[o])
  }

  predicate AllFit(p: Package, store: map<Obj, Value>) {
    forall o | o in store :: Fits(p, o, store[o])
  }

  /** Values a variable that holds `v` may come to hold through a pointer. */
  predicate MayBecome(p: Package, o: Obj, v: Value, u: Value) {
    Fits(p, o, u) && if v.VConf? then u.VConf? && u.binding == v.binding else !u.VConf?
  }

  /** What the variables read as: those in reach of a pointer hold whatever was last written through one. */
  function Contents(p: Package, w: World, st: State): map<Obj, Value> {
    map o | o in st.store :: o :=
      var u := w.seen(st.tick, o, st.store[o]);
      if Shares(st.here.body, o) && MayBecome(p, o, st.store[o], u) then u else st.store[o]
  }

  predicate FieldFits(p: Package, t: TypeName, f: string, v: Value) {
    Binding(t, f) !in p.bindings && ((t, f) in p.configFields ==> v.VStruct? && v.typ == p.configFields[(t, f)])
  }

  function Compare(op: BinaryOp, v: Value, w: Value): Option<bool>
    requires op.EqlOp? || op.NeqOp? || op.GtrOp?
  {
    match (v, w)
    case (VStr(a), VStr(b)) =>
      if op.EqlOp? then Some(a == b) else if op.NeqOp? then Some(a != b) else Some(StrGreater(a, b))
    case (VInt(a), VInt(b)) =>
      if op.EqlOp? then Some(a == b) else if op.NeqOp? then Some(a != b) else Some(a > b)
    case (VBool(a), VBool(b)) =>
      if op.EqlOp? then Some(a == b) else if op.NeqOp? then Some(a != b) else None
    case _ => None
  }

  predicate StrGreater(a: string, b: string) {
    if a == [] then false
    else if b == [] then true
    else a[0] > b[0] || (a[0] == b[0] && StrGreater(a[1..], b[1..]))
  }

  /** What a struct's field holds after v is written to it, if the types allow it. */
  function Attach(p: Package, t: TypeName, f: string, v: Value): Option<Value> {
    if Binding(t, f) in p.bindings then
      if v.VStruct? || v.VConf? then Some(VConf(Binding(t, f), v.fields)) else None
    else if FieldFits(p, t, f, v) then Some(v)
    else None
  }

  /** Writes below a value; also reports the bindings whose configuration the path enters. */
  function WriteAt(p: Package, v: Value, path: seq<string>, w: Value): (Option<Value>, set<Binding>)
    decreases |path|
  {
    if path == [] then (Some(w), {})
    else if v.VStruct? && path[0] in v.fields then
      var (inner, deeper) := WriteAt(p, v.fields[path[0]], path[1..], w);
      var hit := if Binding(v.typ, path[0]) in p.bindings then {Binding(v.typ, path[0])} else {};
      var field := if inner.Some? then Attach(p, v.typ, path[0], inner.value) else None;
      (if field.Some? then Some(VStruct(v.typ, v.fields[path[0] := field.value])) else None, hit + deeper)
    else if v.VConf? && path[0] in v.fields then
      var (inner, deeper) := WriteAt(p, v.fields[path[0]], path[1..], w);
      (if inner.Some? then Some(VConf(v.binding, v.fields[path[0] := inner.value])) else None, {v.binding} + deeper)
    else (None, if v.VConf? then {v.binding} else {})
  }

  function Opaque(p: Package, w: World, st: State, fuel: nat): Result
    decreases fuel
  {
    var next := st.(tick := st.tick + 1);
    var k := w.pick(st.tick);
    if fuel == 0 then Halt(st)
    else if k < |st.pool| then
      var flow := Exec(p, w, st.pool[k], next, fuel - 1);
      if flow.Stop? then Halt(flow.st) else Ok(w.value(st.tick), flow.st)
    else Ok(w.value(st.tick), next)
  }

  /** Selecting a field of a value the model cannot see into: a name shared with a binding counts as its use. */
  function Unseen(p: Package, w: World, f: string, st: State, fuel: nat): Result
    decreases fuel
  {
    if fuel == 0 then Halt(st)
    else Opaque(p, w, st.(used := st.used + set b | b in p.bindings && b.field == f), fuel - 1)
  }

  /** The fields on the way to those a guard can decide on. */
  const ROUTE_FIELDS := {"DiscovType", "Target", "Endpoints", "Endpints", "Etcd", "Consul"}

  /** Fields whose absence no well-typed program can observe. */
  predicate MustHave(p: Package, t: TypeName, f: string) {
    (t == RPC_CLIENT_CONF && f in ROUTE_FIELDS) || Binding(t, f) in p.bindings || (t, f) in p.configFields
  }

  // ---- What a literal leaves unset ----

  /** The zero client configuration. */
  function ZeroClient(): map<string, Value> {
    map[
      "DiscovType" := VStr(""),
      "Target" := VStr(""),
      "Endpoints" := VList(0),
      "Endpints" := VList(0),
      "Etcd" := VStruct(ETCD_CONF, map["Hosts" := VList(0), "Key" := VStr("")]),
      "Consul" := VStruct(CONSUL_CONF, map["Host" := VStr(""), "Key" := VStr("")])]
  }

  /** The bindings of a configuration that was declared and never set. */
  function ZeroBindings(p: Package, typ: TypeName): map<string, Value> {
    map b | b in p.bindings && b.structName == typ :: b.field := VConf(b, ZeroClient())
  }

  /** What the fields of a new struct hold before its literal sets them, as far as guards may ask. */
  function ZeroFields(p: Package, typ: TypeName): map<string, Value> {
    if typ == RPC_CLIENT_CONF then ZeroClient()
    else
      (map k | k in p.configFields && k.0 == typ ::
        k.1 := VStruct(p.configFields[k], ZeroBindings(p, p.configFields[k])))
      + ZeroBindings(p, typ)
  }

  function Select(p: Package, w: World, v: Value, f: string, st: State, mode: Mode, fuel: nat): Result
    decreases fuel
  {
    if fuel == 0 then Halt(st)
    else if (v.VStruct? || v.VConf?) && f in v.fields then Read(v.fields[f], st, mode)
    else if (v.VStruct? && MustHave(p, v.typ, f)) || (v.VConf? && MustHave(p, RPC_CLIENT_CONF, f)) then Halt(st)
    else Unseen(p, w, f, st, fuel - 1)
  }

  function Eval(p: Package, w: World, e: Expr, st: State, mode: Mode, fuel: nat): Result
    decreases fuel
  {
    if fuel == 0 then Halt(st) else
    match e
    case Ident(_, obj) =>
      if obj.None? then Opaque(p, w, st, fuel - 1)
      else if obj.value in st.store then Read(Contents(p, w, st)[obj.value], st, mode)
      else Halt(st)
    case Paren(x) => Eval(p, w, x, st, Sub(mode), fuel - 1)
    case Star(x) =>
      var r := Eval(p, w, x, st, Sub(mode), fuel - 1);
      if r.Halt? then r else Ok(Detach(r.v), r.st)
    case Unary(op, x) => EvalUnary(p, w, op, x, st, mode, fuel - 1)
    case Binary(op, x, y) => EvalBinary(p, w, op, x, y, st, mode, fuel - 1)
    case StringLit(text, _) => Ok(VStr(text), st)
    case IntLit(n) => Ok(VInt(n), st)
    case Selector(x, f) =>
      var r := Eval(p, w, x, st, Sub(mode), fuel - 1);
      if r.Halt? then r else Select(p, w, r.v, f, r.st, mode, fuel - 1)
    case Call(fun, args) => EvalCall(p, w, e, st, mode, fuel - 1)
    case Composite(typ, elts) => EvalComposite(p, w, typ, elts, st, fuel - 1)
    case FuncLit(body) => Ok(VOpaque, st.(pool := st.pool + [body]))
    case Other(parts) =>
      var rs := EvalAll(p, w, parts, st, Normal, fuel - 1);
      if rs.HaltAll? then Halt(rs.st) else Opaque(p, w, rs.st, fuel - 1)
  }

  function EvalUnary(p: Package, w: World, op: UnaryOp, x: Expr, st: State, mode: Mode, fuel: nat): Result
    decreases fuel
  {
    if fuel == 0 then Halt(st) else
    var r := Eval(p, w, x, st, Sub(mode), fuel - 1);
    if r.Halt? then r else
    match op
    case NotOp => if r.v.VBool? then Ok(VBool(!r.v.b), r.st) else Halt(r.st)
    case AddrOp => Ok(Detach(r.v), r.st)
    case OtherUnary => Opaque(p, w, r.st, fuel - 1)
  }

  function EvalBinary(p: Package, w: World, op: BinaryOp, x: Expr, y: Expr, st: State, mode: Mode, fuel: nat): Result
    decreases fuel
  {
    if fuel == 0 then Halt(st) else
    var r := Eval(p, w, x, st, Sub(mode), fuel - 1);
    if r.Halt? then r
    else if op.OrOp? || op.AndOp? then
      if !r.v.VBool? then Halt(r.st)
      else if r.v.b == op.OrOp? then r
      else
        var q := Eval(p, w, y, r.st, Sub(mode), fuel - 1);
        if q.Ok? && !q.v.VBool? then Halt(q.st) else q
    else
      var q := Eval(p, w, y, r.st, Sub(mode), fuel - 1);
      if q.Halt? then q
      else if op.OtherBinary? then Opaque(p, w, q.st, fuel - 1)
      else
        var c := Compare(op, r.v, q.v);
        if c.Some? then Ok(VBool(c.value), q.st) else Halt(q.st)
  }

  function EvalCall(p: Package, w: World, e: Expr, st: State, mode: Mode, fuel: nat): Result
    requires e.Call?
    decreases fuel
  {
    if fuel == 0 then Halt(st)
    else if p.IsBuiltinLen(e) then
      var r := Eval(p, w, e.args.head, st, Sub(mode), fuel - 1);
      if r.Halt? then r
      else if r.v.VList? then Ok(VInt(r.v.length), r.st)
      else if r.v.VStr? then Ok(VInt(|r.v.s|), r.st)
      else Halt(r.st)
    else
      var callee := p.Callee(e.fun);
      if callee.Some? then
        // A condition may hand its binding to a predicate helper, and to nothing else.
        var argMode := if mode == InCond && IsPredicateHelper(callee.value) then InCond else Normal;
        var rs := EvalAll(p, w, e.args, st, argMode, fuel - 1);
        if rs.HaltAll? then Halt(rs.st) else Invoke(p, w, callee.value, rs.vs, rs.st, fuel - 1)
      else
        var r := Eval(p, w, e.fun, st, Normal, fuel - 1);
        if r.Halt? then r else
        var rs := EvalAll(p, w, e.args, r.st, Normal, fuel - 1);
        if rs.HaltAll? then Halt(rs.st) else Opaque(p, w, rs.st, fuel - 1)
  }

  function EvalComposite(p: Package, w: World, typ: TypeName, elts: Exprs, st: State, fuel: nat): Result
    decreases fuel
  {
    if fuel == 0 then Halt(st) else
    var rs := EvalAll(p, w, elts, st, Normal, fuel - 1);
    if rs.HaltAll? then Halt(rs.st) else
    var built := Build(p, typ, elts, 0, rs.vs);
    if built.None? then Halt(rs.st) else Ok(VStruct(typ, built.value), rs.st)
  }

  /** The fields of a struct literal, from element `i` on; the others are zero. */
  function Build(p: Package, typ: TypeName, elts: Exprs, i: nat, vs: seq<Value>): Option<map<string, Value>> {
    if elts.Nil? || |vs| == 0 then Some(ZeroFields(p, typ))
    else
      var rest := Build(p, typ, elts.tail, i + 1, vs[1..]);
      var key := p.KeyOf(typ, elts.key, i);
      var field := Attach(p, typ, key, Detach(vs[0]));
      if rest.None? then None
      else if key == "" then if rest.value == map[] then rest else None
      else if field.None? then None
      else Some(rest.value[key := field.value])
  }

  function EvalAll(p: Package, w: World, es: Exprs, st: State, mode: Mode, fuel: nat): Results
    decreases fuel
  {
    if fuel == 0 then HaltAll(st)
    else if es.Nil? then OkAll([], st)
    else
      var r := Eval(p, w, es.head, st, mode, fuel - 1);
      if r.Halt? then HaltAll(r.st) else
      var rs := EvalAll(p, w, es.tail, r.st, mode, fuel - 1);
      if rs.HaltAll? then rs else OkAll([r.v] + rs.vs, rs.st)
  }

  function BindParams(params: seq<Param>, vs: seq<Value>): map<Obj, Value>
    requires |params| == |vs|
  {
    if params == [] then map[]
    else BindParams(params[1..], vs[1..])[params[0].obj := Detach(vs[0])]
  }

  /** The state in which a called function starts. */
  function Entered(fn: Function, frame: map<Obj, Value>, st: State): State {
    State(frame, [], fn, st.used, st.tick, st.decisions)
  }

  /** Runs a function of the package in a frame of its own. */
  function Invoke(p: Package, w: World, fn: Function, vs: seq<Value>, st: State, fuel: nat): Result
    decreases fuel
  {
    if fuel == 0 || |vs| != |fn.params| then Halt(st) else
    var frame := BindParams(fn.params, vs);
    if !AllFit(p, frame) then Halt(st) else
    var flow := Exec(p, w, fn.body, Entered(fn, frame, st), fuel - 1);
    var after := st.(used := flow.st.used, tick := flow.st.tick, decisions := flow.st.decisions);
    match flow
    case Stop(_) => Halt(after)
    case Next(_) => Ok(VOpaque, after)
    case Returned(v, _) => Ok(v, after)
  }

  function Noted(st: State, guard: Stmt, taken: bool, seen: map<Obj, Value>): State {
    st.(decisions := st.decisions + [Decision(st.here, guard, taken, seen)])
  }

  function Store(p: Package, w: World, lhs: Expr, v: Value, st: State, fuel: nat): Flow
    decreases fuel
  {
    if fuel == 0 then Stop(st)
    else if lhs.Ident? then
      if lhs.obj.None? then Next(st)
      else if Fits(p, lhs.obj.value, v) then Next(st.(store := st.store[lhs.obj.value := v]))
      else Stop(st)
    else
      var place := PlaceOf(lhs);
      if place.None? then
        var r := Eval(p, w, lhs, st, Normal, fuel - 1);
        if r.Halt? then Stop(r.st) else Next(r.st)
      else if place.value.0 !in st.store then Stop(st)
      else
        var (written, hit) := WriteAt(p, st.store[place.value.0], place.value.1, v);
        var after := st.(used := st.used + hit, tick := st.tick + 1);
        if written.Some? && Fits(p, place.value.0, written.value)
        then Next(after.(store := st.store[place.value.0 := written.value])) else Stop(after)
  }

  function Exec(p: Package, w: World, s: Stmt, st: State, fuel: nat): Flow
    decreases fuel
  {
    if fuel == 0 then Stop(st) else
    match s
    case Skip => Next(st)
    case Seq(a, b) =>
      var flow := Exec(p, w, a, st, fuel - 1);
      if flow.Next? then Exec(p, w, b, flow.st, fuel - 1) else flow
    case Assign(_, kind, lhs, rhs) =>
      var aliasing := !kind.Plain? && lhs.Ident?;
      var r := Eval(p, w, rhs, st, if aliasing then AliasDef else Normal, fuel - 1);
      if r.Halt? then Stop(r.st)
      else Store(p, w, lhs, if aliasing then r.v else Detach(r.v), r.st, fuel - 1)
    case ExprStmt(e) =>
      var r := Eval(p, w, e, st, Normal, fuel - 1);
      if r.Halt? then Stop(r.st) else Next(r.st)
    case IncDec(e) =>
      var r := Opaque(p, w, st, fuel - 1);
      if r.Halt? then Stop(r.st) else Store(p, w, e, r.v, r.st, fuel - 1)
    case Return(e) =>
      var r := Eval(p, w, e, st, Normal, fuel - 1);
      if r.Halt? then Stop(r.st) else Returned(Detach(r.v), r.st)
    case If(_, init, cond, body, els) =>
      var flow := Exec(p, w, init, st, fuel - 1);
      if !flow.Next? then flow else
      var r := Eval(p, w, cond, flow.st, InCond, fuel - 1);
      if r.Halt? || !r.v.VBool? then Stop(r.st)
      else Exec(p, w, if r.v.b then body else els, Noted(r.st, s, r.v.b, Contents(p, w, flow.st)), fuel - 1)
    case For(cond, body) =>
      var r := Eval(p, w, cond, st, Normal, fuel - 1);
      if r.Halt? || !r.v.VBool? then Stop(r.st)
      else if !r.v.b then Next(r.st)
      else
        var flow := Exec(p, w, body, r.st, fuel - 1);
        if flow.Next? then Exec(p, w, s, flow.st, fuel - 1) else flow
  }
}
