/** The six-value abstract evaluator of Go conditions. */
module RpcGuards {
  import opened Options
  import opened GoSyntax
  import opened GoSemantics

  datatype Verdict = Unknown | IsFalse | IsTrue | BlankString | BlankList | NonemptyString

  /** A verdict, and whether the binding was referenced on the way to it. */
  type Lookup = Expr -> (Verdict, bool)

  predicate Decided(v: Verdict) { v.IsTrue? || v.IsFalse? }

  function Evaluate(e: Expr, lookup: Lookup, builtinLen: bool): (Verdict, bool) {
    match e
    case Paren(x) => Evaluate(x, lookup, builtinLen)
    case Unary(op, x) =>
      var (v, referenced) := Evaluate(x, lookup, builtinLen);
      (if op.NotOp? && v.IsTrue? then IsFalse else if op.NotOp? && v.IsFalse? then IsTrue else Unknown, referenced)
    case Binary(op, x, y) =>
      var (l, lref) := Evaluate(x, lookup, builtinLen);
      var (r, rref) := Evaluate(y, lookup, builtinLen);
      (Combine(op, l, r), lref || rref)
    case StringLit(text, _) => if text == "" then (BlankString, false) else lookup(e)
    case IntLit(n) => if n == 0 then (BlankList, false) else lookup(e)
    case Call(fun, args) =>
      if builtinLen && fun.Ident? && fun.name == "len" && fun.obj.None? && args.Cons? && args.tail.Nil? then
        var (v, referenced) := lookup(args.head);
        (if v.BlankList? then BlankList else Unknown, referenced)
      else lookup(e)
    case _ => lookup(e)
  }

  function Combine(op: BinaryOp, l: Verdict, r: Verdict): Verdict {
    match op
    case OrOp =>
      if l.IsFalse? && r.IsFalse? then IsFalse else if Decided(l) && Decided(r) then IsTrue else Unknown
    case AndOp =>
      if l.IsTrue? && r.IsTrue? then IsTrue else if Decided(l) && Decided(r) then IsFalse else Unknown
    case OtherBinary => Unknown
    case _ =>
      var apart := (l.NonemptyString? && r.BlankString?) || (l.BlankString? && r.NonemptyString?);
      var same := (l.BlankString? && r.BlankString?) || (l.BlankList? && r.BlankList?);
      if apart && op.EqlOp? then IsFalse
      else if apart && op.NeqOp? then IsTrue
      else if same && op.EqlOp? then IsTrue
      else if same then IsFalse
      else Unknown
  }

  /** The field path below an object, as a helper's body spells it. */
  function SelectorPath(e: Expr, root: Obj): Option<seq<string>> {
    match e
    case Ident(_, obj) => if obj == Some(root) then Some([]) else None
    case Selector(x, f) =>
      var path := SelectorPath(x, root);
      if path.Some? then Some(path.value + [f]) else None
    case _ => None
  }

  function BlankField(path: seq<string>): Verdict {
    if path in {["DiscovType"], ["Target"], ["Etcd", "Key"]} then BlankString
    else if path in {["Endpoints"], ["Endpints"], ["Etcd", "Hosts"]} then BlankList
    else Unknown
  }

  /** The configuration generated for a local route: Target set, discovery left empty. */
  function TargetField(path: seq<string>): Verdict {
    if path == ["Target"] then NonemptyString
    else if path in {["DiscovType"], ["Etcd", "Key"], ["Consul", "Key"], ["Consul", "Host"]} then BlankString
    else if path in {["Endpoints"], ["Endpints"], ["Etcd", "Hosts"]} then BlankList
    else Unknown
  }

  datatype Profile = Blank | TargetOnly

  function FieldVerdict(profile: Profile, path: Option<seq<string>>): (Verdict, bool) {
    if path.None? then (Unknown, false)
    else (if profile.Blank? then BlankField(path.value) else TargetField(path.value), true)
  }

  function HelperVerdict(p: Package, fn: Function, profile: Profile): (Verdict, bool)
    requires IsPredicateHelper(fn)
  {
    Evaluate(fn.body.e, e => FieldVerdict(profile, SelectorPath(e, fn.params[0].obj)), !p.ShadowsLen())
  }

  /** A helper that is proven false on every blank client configuration. */
  predicate ValidHelper(p: Package, fn: Function) {
    IsPredicateHelper(fn) && HelperVerdict(p, fn, Blank) == (IsFalse, true)
  }

  // ---- What a verdict means ----

  predicate Means(verdict: Verdict, v: Value) {
    match verdict
    case Unknown => true
    case IsFalse => v == VBool(false)
    case IsTrue => v == VBool(true)
    case BlankString => v == VStr("")
    case BlankList => v == VInt(0) || v == VList(0)
    case NonemptyString => v.VStr? && v.s != ""
  }

  /** The leaf a path of at most two names reaches, when every struct on the way has it. */
  predicate PathMeans(fields: map<string, Value>, path: seq<string>, verdict: Verdict) {
    if |path| == 1 then path[0] in fields ==> Means(verdict, fields[path[0]])
    else |path| == 2 && (path[0] in fields ==>
      var inner := fields[path[0]]; inner.VStruct? && path[1] in inner.fields && Means(verdict, inner.fields[path[1]]))
  }

  /** The client configuration agrees with a profile; fields the profile does not name are arbitrary. */
  ghost predicate Agrees(fields: map<string, Value>, profile: Profile) {
    forall path | FieldVerdict(profile, Some(path)).0 != Unknown ::
      PathMeans(fields, path, FieldVerdict(profile, Some(path)).0)
  }

  /** A lookup is sound when each verdict it gives is what evaluation yields, without any effect. */
  ghost predicate SoundLookup(p: Package, w: World, st: State, mode: Mode, lookup: Lookup) {
    forall e, fuel: nat | lookup(e).0 != Unknown :: SoundAt(Eval(p, w, e, st, mode, fuel), st, lookup(e).0)
  }

  predicate SoundAt(r: Result, st: State, verdict: Verdict) {
    r.st == st && (r.Ok? ==> Means(verdict, r.v))
  }

  lemma BinarySound(p: Package, w: World, op: BinaryOp, x: Expr, y: Expr, l: Verdict, r: Verdict, st: State,
    mode: Mode, fuel: nat)
    requires mode == Sub(mode) && Combine(op, l, r) != Unknown
    requires fuel > 0 ==>
      SoundAt(Eval(p, w, x, st, mode, fuel - 1), st, l) && SoundAt(Eval(p, w, y, st, mode, fuel - 1), st, r)
    ensures SoundAt(EvalBinary(p, w, op, x, y, st, mode, fuel), st, Combine(op, l, r))
  {
    hide Eval, Opaque;
    if op.AndOp? || op.OrOp? {} else {}
  }

  lemma UnarySound(p: Package, w: World, x: Expr, v: Verdict, st: State, mode: Mode, fuel: nat)
    requires mode == Sub(mode) && Decided(v)
    requires fuel > 0 ==> SoundAt(Eval(p, w, x, st, mode, fuel - 1), st, v)
    ensures SoundAt(EvalUnary(p, w, NotOp, x, st, mode, fuel), st, if v.IsTrue? then IsFalse else IsTrue)
  {
  }

  lemma LenSound(p: Package, w: World, e: Expr, st: State, mode: Mode, fuel: nat)
    requires mode == Sub(mode) && e.Call? && p.IsBuiltinLen(e)
    requires fuel > 0 ==> SoundAt(Eval(p, w, e.args.head, st, mode, fuel - 1), st, BlankList)
    ensures SoundAt(EvalCall(p, w, e, st, mode, fuel), st, BlankList)
  {
  }

  /**
   The evaluator is sound for short-circuit semantics: whatever the undecided subterms do, a
   decided condition evaluates to its verdict, or gets stuck, and has no effect.
   */
  lemma {:induction false} EvaluateIsSound(p: Package, w: World, e: Expr, st: State, mode: Mode, lookup: Lookup,
    fuel: nat)
    requires SoundLookup(p, w, st, mode, lookup) && mode == Sub(mode)
    requires Evaluate(e, lookup, !p.ShadowsLen()).0 != Unknown
    ensures SoundAt(Eval(p, w, e, st, mode, fuel), st, Evaluate(e, lookup, !p.ShadowsLen()).0)
    decreases e
  {
    if fuel == 0 { return; }
    match e
    case Paren(x) => EvaluateIsSound(p, w, x, st, mode, lookup, fuel - 1);
    case Unary(op, x) =>
      if fuel > 1 { EvaluateIsSound(p, w, x, st, mode, lookup, fuel - 2); }
      UnarySound(p, w, x, Evaluate(x, lookup, !p.ShadowsLen()).0, st, mode, fuel - 1);
    case Binary(op, x, y) =>
      if fuel > 1 {
        EvaluateIsSound(p, w, x, st, mode, lookup, fuel - 2) by { UndecidedOperand(e, lookup, !p.ShadowsLen()); }
        EvaluateIsSound(p, w, y, st, mode, lookup, fuel - 2) by { UndecidedOperand(e, lookup, !p.ShadowsLen()); }
      }
      BinarySound(p, w, op, x, y, Evaluate(x, lookup, !p.ShadowsLen()).0, Evaluate(y, lookup, !p.ShadowsLen()).0, st,
        mode, fuel - 1);
    case Call(fun, args) =>
      if p.IsBuiltinLen(e) {
        if fuel > 1 { assert SoundAt(Eval(p, w, args.head, st, mode, fuel - 2), st, lookup(args.head).0); }
        LenSound(p, w, e, st, mode, fuel - 1);
      } else {
        assert SoundAt(Eval(p, w, e, st, mode, fuel), st, lookup(e).0);
      }
    case Ident(_, _) => assert SoundAt(Eval(p, w, e, st, mode, fuel), st, lookup(e).0);
    case Selector(_, _) => assert SoundAt(Eval(p, w, e, st, mode, fuel), st, lookup(e).0);
    case _ =>
  }

  /** Both operands of a decided operation are decided themselves. */
  lemma UndecidedOperand(e: Expr, lookup: Lookup, builtinLen: bool)
    requires e.Binary? && Evaluate(e, lookup, builtinLen).0 != Unknown
    ensures Evaluate(e.x, lookup, builtinLen).0 != Unknown && Evaluate(e.y, lookup, builtinLen).0 != Unknown
  {
  }
}
