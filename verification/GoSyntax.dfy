/**
 The mini-Go that the RPC analyses read: one package, whose identifiers the parser has
 already resolved to objects. Package-level identifiers carry no object.
 */
module GoSyntax {
  import opened Options

  type Obj = nat
  type TypeName = string

  /** A field of type RpcClientConf declared in a configuration struct. */
  datatype Binding = Binding(structName: TypeName, field: string)

  datatype UnaryOp = NotOp | AddrOp | OtherUnary
  datatype BinaryOp = OrOp | AndOp | EqlOp | NeqOp | GtrOp | OtherBinary

  datatype Expr =
    | Ident(name: string, obj: Option<Obj>)
    | Paren(x: Expr)
    | Star(x: Expr)
    | Unary(uop: UnaryOp, x: Expr)
    | Binary(bop: BinaryOp, x: Expr, y: Expr)
    | StringLit(text: string, quoted: bool)
    | IntLit(n: nat)
    | Selector(x: Expr, sel: string)
    | Call(fun: Expr, args: Exprs)
    | Composite(typ: TypeName, elts: Exprs)
    | FuncLit(body: Stmt)
    | Other(parts: Exprs)  // indexing, arithmetic, type assertions, ...

  /** Arguments, or the elements of a composite literal; `key` is empty for an element without one. */
  datatype Exprs = Nil | Cons(key: string, head: Expr, tail: Exprs)

  datatype AssignKind = Define | Plain | VarDecl

  datatype Stmt =
    | Skip
    | Seq(first: Stmt, second: Stmt)
    | Assign(pos: nat, kind: AssignKind, lhs: Expr, rhs: Expr)
    | ExprStmt(e: Expr)
    | IncDec(e: Expr)
    | Return(e: Expr)
    | If(pos: nat, init: Stmt, cond: Expr, body: Stmt, els: Stmt)
    | For(cond: Expr, body: Stmt)

  datatype Param = Param(obj: Obj, typ: TypeName)

  datatype Function = Function(name: string, obj: Obj, params: seq<Param>, returnsBool: bool, body: Stmt)

  const RPC_CLIENT_CONF: TypeName := "RpcClientConf"
  const ETCD_CONF: TypeName := "EtcdConf"
  const CONSUL_CONF: TypeName := "ConsulConf"

  /** The struct types of the client library. */
  const LIBRARY_TYPES := {RPC_CLIENT_CONF, ETCD_CONF, CONSUL_CONF}

  /**
   One package: its functions, the requested bindings, the struct fields that hold a
   whole configuration, the field names by position, and the static struct type of each
   object that has one.
   */
  datatype Package = Package(
    functions: map<string, Function>,
    bindings: set<Binding>,
    configFields: map<(TypeName, string), TypeName>,
    fieldAt: map<(TypeName, nat), string>,
    objTypes: map<Obj, TypeName>,
    declaresLen: bool)
  {
    /** Whether a package-level symbol hides the builtin len. */
    predicate ShadowsLen() {
      declaresLen || "len" in functions
    }

    predicate IsConfigType(t: TypeName) {
      exists b :: b in bindings && b.structName == t
    }

    /** The field a literal's element fills: the named one, or the one declared at its position. */
    function KeyOf(typ: TypeName, key: string, i: nat): string {
      if key != "" then key else if (typ, i) in fieldAt then fieldAt[(typ, i)] else ""
    }

    predicate IsBindingField(f: string) {
      exists b :: b in bindings && b.field == f
    }

    /** The function of this package that a call's callee denotes. */
    function Callee(fun: Expr): Option<Function> {
      if fun.Ident? && fun.name in functions && (fun.obj.None? || fun.obj.value == functions[fun.name].obj)
      then Some(functions[fun.name]) else None
    }

    predicate IsBuiltinLen(e: Expr) {
      e.Call? && !ShadowsLen() && e.fun.Ident? && e.fun.name == "len" && e.fun.obj.None?
      && e.args.Cons? && e.args.tail.Nil?
    }
  }

  /** The signature of a guard helper: func(conf RpcClientConf) bool. */
  predicate HasHelperShape(fn: Function) {
    |fn.params| == 1 && fn.params[0].typ == RPC_CLIENT_CONF && fn.returnsBool
  }

  /** A guard helper whose body is a single return. */
  predicate IsPredicateHelper(fn: Function) {
    HasHelperShape(fn) && fn.body.Return?
  }

  function Unparen(e: Expr): Expr {
    if e.Paren? then Unparen(e.x) else e
  }

  /** Every assignment, var declaration and increment, in preorder, function literals included. */
  function AssignsOf(s: Stmt): seq<Stmt> {
    match s
    case Skip => []
    case Seq(a, b) => AssignsOf(a) + AssignsOf(b)
    case Assign(_, _, lhs, rhs) => [s] + AssignsIn(lhs) + AssignsIn(rhs)
    case ExprStmt(e) => AssignsIn(e)
    case IncDec(e) => [s] + AssignsIn(e)
    case Return(e) => AssignsIn(e)
    case If(_, init, cond, body, els) => AssignsOf(init) + AssignsIn(cond) + AssignsOf(body) + AssignsOf(els)
    case For(cond, body) => AssignsIn(cond) + AssignsOf(body)
  }

  function AssignsIn(e: Expr): seq<Stmt> {
    match e
    case Ident(_, _) => []
    case StringLit(_, _) => []
    case IntLit(_) => []
    case Paren(x) => AssignsIn(x)
    case Star(x) => AssignsIn(x)
    case Unary(_, x) => AssignsIn(x)
    case Selector(x, _) => AssignsIn(x)
    case Binary(_, x, y) => AssignsIn(x) + AssignsIn(y)
    case Call(fun, args) => AssignsIn(fun) + AssignsInAll(args)
    case Composite(_, elts) => AssignsInAll(elts)
    case FuncLit(body) => AssignsOf(body)
    case Other(parts) => AssignsInAll(parts)
  }

  function AssignsInAll(es: Exprs): seq<Stmt> {
    if es.Nil? then [] else AssignsIn(es.head) + AssignsInAll(es.tail)
  }

  /** The variable and field path that an assignable expression denotes. */
  function PlaceOf(e: Expr): Option<(Obj, seq<string>)> {
    match e
    case Ident(_, obj) => if obj.Some? then Some((obj.value, [])) else None
    case Paren(x) => PlaceOf(x)
    case Star(x) => PlaceOf(x)
    case Selector(x, f) =>
      var base := PlaceOf(x);
      if base.Some? then Some((base.value.0, base.value.1 + [f])) else None
    case _ => None
  }

  /** The statement takes the address of the variable, or of a field in it. */
  predicate Shares(s: Stmt, o: Obj) {
    match s
    case Skip => false
    case Seq(a, b) => Shares(a, o) || Shares(b, o)
    case Assign(_, _, lhs, rhs) => SharesIn(lhs, o) || SharesIn(rhs, o)
    case ExprStmt(e) => SharesIn(e, o)
    case IncDec(e) => SharesIn(e, o)
    case Return(e) => SharesIn(e, o)
    case If(_, init, cond, body, els) => Shares(init, o) || SharesIn(cond, o) || Shares(body, o) || Shares(els, o)
    case For(cond, body) => SharesIn(cond, o) || Shares(body, o)
  }

  predicate SharesIn(e: Expr, o: Obj) {
    match e
    case Ident(_, _) => false
    case StringLit(_, _) => false
    case IntLit(_) => false
    case Paren(x) => SharesIn(x, o)
    case Star(x) => SharesIn(x, o)
    case Unary(op, x) => (op.AddrOp? && PlaceOf(x).Some? && PlaceOf(x).value.0 == o) || SharesIn(x, o)
    case Selector(x, _) => SharesIn(x, o)
    case Binary(_, x, y) => SharesIn(x, o) || SharesIn(y, o)
    case Call(fun, args) => SharesIn(fun, o) || SharesInAll(args, o)
    case Composite(_, elts) => SharesInAll(elts, o)
    case FuncLit(body) => Shares(body, o)
    case Other(parts) => SharesInAll(parts, o)
  }

  predicate SharesInAll(es: Exprs, o: Obj) {
    es.Cons? && (SharesIn(es.head, o) || SharesInAll(es.tail, o))
  }
}
