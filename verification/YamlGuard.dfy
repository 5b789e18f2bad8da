/** Guarding a document that still has aliases: a write through one path is seen through others. */
module YamlGuard {
  import opened YamlNodes
  import opened YamlPaths

  /** What the nodes of a graph contain at one moment. */
  type Content = map<Node, seq<Node>>

  ghost function Contents(g: set<Node>): Content
    reads g
  {
    map n | n in g :: n.content
  }

  /** Graphs as the parser leaves them: closed, with aliases that lead straight to a node. */
  ghost predicate Parsed(c: Content)
  {
    forall n | n in c ::
      && (forall i | 0 <= i < |c[n]| :: c[n][i] in c)
      && (n.kind == MappingKind ==> |c[n]| % 2 == 0)
      && (n.kind == AliasKind ==> n.alias != null && n.alias in c && n.alias.kind != AliasKind)
  }

  function Resolved(n: Node): Node?
  {
    if n.kind == AliasKind then n.alias else n
  }

  predicate Names(k: Node, key: string)
  {
    k.kind == ScalarKind && k.tag == "!!str" && k.value == key
  }

  /** The value node under the first matching key of a mapping, from pair `j` on. */
  ghost function Held(c: Content, m: Node, key: string, j: nat): (v: Node?)
    requires Parsed(c) && m in c
    ensures v != null ==> v in c
    decreases |c[m]| - j
  {
    if 2 * j + 1 >= |c[m]| then null
    else if Names(c[m][2 * j], key) then c[m][2 * j + 1]
    else Held(c, m, key, j + 1)
  }

  /** The mapping a key leads into, aliases resolved. */
  ghost function Into(c: Content, m: Node, key: string): (v: Node?)
    requires Parsed(c) && m in c
    ensures v != null ==> v in c && v.kind == MappingKind
  {
    var v := Held(c, m, key, 0);
    if v == null then null
    else
      var t := Resolved(v);
      if t != null && t.kind == MappingKind then t else null
  }

  /** The mapping a path of keys leads to. */
  ghost function Arrive(c: Content, root: Node, p: Path): (v: Node?)
    requires Parsed(c) && root in c
    ensures v != null ==> v in c
    decreases |p|
  {
    if p == [] then root
    else
      var m := Arrive(c, root, p[..|p| - 1]);
      if m == null then null else Into(c, m, p[|p| - 1])
  }

  /** The value node read at a path. */
  ghost function ValueAt(c: Content, root: Node, p: Path): Node?
    requires Parsed(c) && root in c && |p| > 0
  {
    var m := Arrive(c, root, p[..|p| - 1]);
    if m == null then null else Held(c, m, p[|p| - 1], 0)
  }

  /** Two paths end in the same key of the same mapping. */
  ghost predicate SamePlace(c: Content, root: Node, p: Path, q: Path)
    requires Parsed(c) && root in c && |p| > 0 && |q| > 0
  {
    && Arrive(c, root, p[..|p| - 1]) != null
    && Arrive(c, root, p[..|p| - 1]) == Arrive(c, root, q[..|q| - 1])
    && p[|p| - 1] == q[|q| - 1]
  }

  // ---- One write ----

  /** `d` is `c` with one key of one mapping set to `v`; new nodes may have come. */
  ghost predicate OneKeySet(c: Content, d: Content, m: Node, key: string, v: Node)
    requires Parsed(c) && Parsed(d) && m in c
  {
    && c.Keys <= d.Keys
    && forall n, k | n in c :: Held(d, n, k, 0) == if n == m && k == key then v else Held(c, n, k, 0)
  }

  lemma {:induction false} HeldReplaced(c: Content, d: Content, m: Node, j: nat, v: Node, key: string, i: nat)
    requires Parsed(c) && Parsed(d) && m in c && m in d && 2 * j + 1 < |c[m]| && d[m] == c[m][2 * j + 1 := v]
    ensures Held(d, m, key, i) ==
      if Held(c, m, key, i) != null && i <= j && Names(c[m][2 * j], key)
        && (forall x | i <= x < j :: !Names(c[m][2 * x], key)) then v
      else Held(c, m, key, i)
    decreases |c[m]| - i
  {
    if 2 * i + 1 < |c[m]| && !Names(c[m][2 * i], key) { HeldReplaced(c, d, m, j, v, key, i + 1); }
  }

  lemma {:induction false} HeldAppended(c: Content, d: Content, m: Node, k: Node, v: Node, key: string, i: nat)
    requires Parsed(c) && Parsed(d) && m in c && m in d && |c[m]| % 2 == 0 && d[m] == c[m] + [k, v]
    ensures Held(d, m, key, i) ==
      if Held(c, m, key, i) != null then Held(c, m, key, i)
      else if 2 * i <= |c[m]| && Names(k, key) then v else null
    decreases |d[m]| - i
  {
    if 2 * i + 1 < |d[m]| && !Names(d[m][2 * i], key) { HeldAppended(c, d, m, k, v, key, i + 1); }
  }

  lemma {:induction false} HeldElsewhere(c: Content, d: Content, n: Node, key: string, i: nat)
    requires Parsed(c) && Parsed(d) && n in c && n in d && d[n] == c[n]
    ensures Held(d, n, key, i) == Held(c, n, key, i)
    decreases |c[n]| - i
  {
    if 2 * i + 1 < |c[n]| && !Names(c[n][2 * i], key) { HeldElsewhere(c, d, n, key, i + 1); }
  }

  /** Nothing that could be reached is lost when a key that led nowhere is set. */
  lemma {:induction false} ArriveStays(c: Content, d: Content, m: Node, key: string, v: Node, root: Node, p: Path)
    requires Parsed(c) && Parsed(d) && m in c && root in c && OneKeySet(c, d, m, key, v) && Into(c, m, key) == null
    ensures Arrive(c, root, p) != null ==> Arrive(d, root, p) == Arrive(c, root, p)
    decreases |p|
  {
    if p != [] { ArriveStays(c, d, m, key, v, root, p[..|p| - 1]); }
  }

  /** Setting a key to a scalar, where it led to no mapping before, changes no way through the document. */
  lemma {:induction false} ArriveSame(c: Content, d: Content, m: Node, key: string, v: Node, root: Node, p: Path)
    requires Parsed(c) && Parsed(d) && m in c && root in c && OneKeySet(c, d, m, key, v)
    requires Into(c, m, key) == null && v.kind == ScalarKind
    ensures Arrive(d, root, p) == Arrive(c, root, p)
    decreases |p|
  {
    if p != [] { ArriveSame(c, d, m, key, v, root, p[..|p| - 1]); }
  }

  /** The write is seen at exactly the paths that end in the written key of the written mapping. */
  lemma SeenExactly(c: Content, d: Content, root: Node, p: Path, v: Node, q: Path)
    requires Parsed(c) && Parsed(d) && root in c && |p| > 0 && |q| > 0 && Arrive(c, root, p[..|p| - 1]) != null
    requires OneKeySet(c, d, Arrive(c, root, p[..|p| - 1]), p[|p| - 1], v)
    requires Into(c, Arrive(c, root, p[..|p| - 1]), p[|p| - 1]) == null && v.kind == ScalarKind
    ensures ValueAt(d, root, q) == if SamePlace(c, root, p, q) then v else ValueAt(c, root, q)
  {
    ArriveSame(c, d, Arrive(c, root, p[..|p| - 1]), p[|p| - 1], v, root, q[..|q| - 1]);
  }

  /** Everything that can be read of `c` reads the same in `d`. */
  ghost predicate Conserves(c: Content, d: Content, root: Node)
    requires Parsed(c) && Parsed(d) && root in c && root in d
  {
    && (forall q | Arrive(c, root, q) != null :: Arrive(d, root, q) == Arrive(c, root, q))
    && (forall q | |q| > 0 && ValueAt(c, root, q) != null :: ValueAt(d, root, q) == ValueAt(c, root, q))
  }

  /** A key that was not there may be set without disturbing what is. */
  lemma NewKeyConserves(c: Content, d: Content, root: Node, m: Node, key: string, v: Node)
    requires Parsed(c) && Parsed(d) && root in c && m in c && OneKeySet(c, d, m, key, v) && Held(c, m, key, 0) == null
    ensures Conserves(c, d, root)
  {
    forall q | Arrive(c, root, q) != null ensures Arrive(d, root, q) == Arrive(c, root, q) {
      ArriveStays(c, d, m, key, v, root, q);
    }
  }

  /** The content after a key and a value were appended to a mapping that lacks the key. */
  lemma AppendSetsKey(c: Content, d: Content, m: Node, k: Node, v: Node, key: string)
    requires Parsed(c) && Parsed(d) && m in c && m.kind == MappingKind && c.Keys <= d.Keys
    requires d[m] == c[m] + [k, v] && (forall n | n in c && n != m :: d[n] == c[n])
    requires Held(c, m, key, 0) == null && (forall x :: Names(k, x) <==> x == key)
    ensures OneKeySet(c, d, m, key, v)
  {
    forall n, x | n in c ensures Held(d, n, x, 0) == if n == m && x == key then v else Held(c, n, x, 0) {
      if n == m { HeldAppended(c, d, m, k, v, x, 0); } else { HeldElsewhere(c, d, n, x, 0); }
    }
  }

  /** The content after the value at the first position of a key was replaced. */
  lemma ReplaceSetsKey(c: Content, d: Content, m: Node, j: nat, v: Node, key: string)
    requires Parsed(c) && Parsed(d) && m in c && c.Keys <= d.Keys && 2 * j + 1 < |c[m]|
    requires d[m] == c[m][2 * j + 1 := v] && (forall n | n in c && n != m :: d[n] == c[n])
    requires Names(c[m][2 * j], key) && (forall x | 0 <= x < j :: !Names(c[m][2 * x], key))
    ensures OneKeySet(c, d, m, key, v)
  {
    forall n, x | n in c ensures Held(d, n, x, 0) == if n == m && x == key then v else Held(c, n, x, 0) {
      if n == m {
        HeldReplaced(c, d, m, j, v, x, 0);
        if x == key { FirstIsHeld(c, m, key, 0, j); }
      } else { HeldElsewhere(c, d, n, x, 0); }
    }
  }

  lemma {:induction false} FirstIsHeld(c: Content, m: Node, key: string, i: nat, j: nat)
    requires Parsed(c) && m in c && i <= j && 2 * j + 1 < |c[m]|
    requires Names(c[m][2 * j], key) && (forall x | i <= x < j :: !Names(c[m][2 * x], key))
    ensures Held(c, m, key, i) == c[m][2 * j + 1]
    decreases j - i
  {
    if i < j { FirstIsHeld(c, m, key, i + 1, j); }
  }

  // ---- Reading ----

  /** Follows aliases until a node that is none, or one seen before. */
  method DereferenceAlias(start: Node, ghost c: Content) returns (r: Node?)
    requires Parsed(c) && start in c
    ensures r == Resolved(start)
  {
    var visited: set<Node> := {};
    r := start;
    while r != null && r.kind == AliasKind && r !in visited
      invariant r != null && r in c
      invariant r == start || (r == Resolved(start) && r.kind != AliasKind)
      invariant r == start ==> visited == {}
      decreases if r == null then 0 else if r.kind == AliasKind then 1 else 0
    {
      visited := visited + {r};
      r := r.alias;
    }
  }

  method FirstPosition(m: Node, key: string, ghost c: Content) returns (j: int)
    requires Parsed(c) && m in c && c[m] == m.content
    ensures j < 0 ==> Held(c, m, key, 0) == null
    ensures j >= 0 ==>
      2 * j + 1 < |c[m]| && Names(c[m][2 * j], key)
      && (forall x | 0 <= x < j :: !Names(c[m][2 * x], key)) && Held(c, m, key, 0) == c[m][2 * j + 1]
  {
    j := 0;
    while 2 * j + 1 < |m.content|
      invariant 0 <= j && forall x | 0 <= x < j :: 2 * x + 1 < |m.content| && !Names(m.content[2 * x], key)
      invariant Held(c, m, key, 0) == Held(c, m, key, j)
    {
      var candidate := m.content[2 * j];
      if candidate.kind == ScalarKind && candidate.tag == "!!str" && candidate.value == key { return; }
      j := j + 1;
    }
    j := -1;
  }

  // ---- The guard ----

  lemma NamesOf(k: Node, key: string)
    requires k.kind == ScalarKind && k.tag == "!!str" && k.value == key
    ensures forall x :: Names(k, x) <==> x == key
  {
  }

  lemma AppendedParsed(c: Content, d: Content, m: Node, k: Node, v: Node)
    requires Parsed(c) && m in c && m.kind == MappingKind && d.Keys == c.Keys + {k, v} && k !in c && v !in c && k != v
    requires d[m] == c[m] + [k, v] && (forall n | n in c && n != m :: d[n] == c[n])
    requires k.kind != AliasKind && v.kind != AliasKind && d[k] == [] && d[v] == []
    ensures Parsed(d)
  {
  }

  lemma ReplacedParsed(c: Content, d: Content, m: Node, i: nat, v: Node)
    requires Parsed(c) && m in c && i < |c[m]| && d.Keys == c.Keys + {v} && v !in c
    requires d[m] == c[m][i := v] && (forall n | n in c && n != m :: d[n] == c[n])
    requires v.kind != AliasKind && d[v] == []
    ensures Parsed(d)
  {
  }

  lemma IntoNew(d: Content, m: Node, key: string, next: Node)
    requires Parsed(d) && m in d && Held(d, m, key, 0) == next && next.kind == MappingKind
    ensures Into(d, m, key) == next
  {
  }

  /** The way a key leads, said in terms of the node it holds. */
  lemma IntoHeld(c: Content, m: Node, key: string)
    requires Parsed(c) && m in c
    ensures Held(c, m, key, 0) == null ==> Into(c, m, key) == null
    ensures Held(c, m, key, 0) != null ==>
      var t := Resolved(Held(c, m, key, 0));
        t != null && t in c && Into(c, m, key) == if t.kind == MappingKind then t else null
  {
  }

  lemma ConservesSelf(c: Content, root: Node)
    requires Parsed(c) && root in c
    ensures Conserves(c, c, root)
  {
  }

  /** What following or creating one segment amounts to. */
  ghost predicate Stepped(c: Content, d: Content, root: Node, m: Node, key: string, allowCreate: bool, ok: bool,
    next: Node)
  {
    && Parsed(c) && Parsed(d) && c.Keys <= d.Keys && root in c && m in c
    && (ok <==> Into(c, m, key) != null || (Held(c, m, key, 0) == null && allowCreate))
    && (ok ==> next in d && next.kind == MappingKind && Into(d, m, key) == next && Conserves(c, d, root))
    && (ok && Into(c, m, key) == null ==> d[next] == [])
    && (!ok || Into(c, m, key) != null ==> d == c)
  }

  /** One segment on the way: an existing mapping, or a new one where creation is allowed. */
  method GuardStep(current: Node, key: string, allowCreate: bool, ghost root: Node, ghost h: set<Node>,
    ghost c: Content)
    returns (ok: bool, next: Node, ghost more: set<Node>, ghost d: Content)
    requires c == Contents(h) && Parsed(c) && root in c && current in c && current.kind == MappingKind
    modifies current`content
    ensures fresh(more) && d == Contents(h + more) && (!ok ==> d == c && more == {})
    ensures Stepped(c, d, root, current, key, allowCreate, ok, next)
  {
    hide Held, Into, Names, Parsed, OneKeySet, Conserves, Resolved;
    more, d, next := {}, c, current;
    assert h + {} == h;
    IntoHeld(c, current, key);
    ConservesSelf(c, root);
    var j := FirstPosition(current, key, c);
    if j >= 0 {
      assert Held(c, current, key, 0) in c;
      var t := DereferenceAlias(current.content[2 * j + 1], c);
      if t == null || t.kind != MappingKind { return false, current, {}, c; }
      return true, t, {}, c;
    }
    if !allowCreate { return false, current, {}, c; }
    next := new Node(MappingKind, "!!map", "", []);
    var name := new Node(ScalarKind, "!!str", key, []);
    more := {next, name};
    current.content := current.content + [name, next];
    d := Contents(h + more);
    AppendedParsed(c, d, current, name, next);
    NamesOf(name, key);
    AppendSetsKey(c, d, current, name, next, key);
    NewKeyConserves(c, d, root, current, key, next);
    KeySetHeld(c, d, current, key, next);
    IntoNew(d, current, key, next);
    ok := true;
  }

  lemma KeySetHeld(c: Content, d: Content, m: Node, key: string, v: Node)
    requires Parsed(c) && Parsed(d) && m in c && OneKeySet(c, d, m, key, v)
    ensures Held(d, m, key, 0) == v
  {
  }

  /** The last segment: a scalar is overwritten, a missing key created where that is allowed. */
  method GuardLast(current: Node, key: string, value: Node, allowCreate: bool, ghost h: set<Node>, ghost c: Content)
    returns (ok: bool, ghost more: set<Node>, ghost d: Content)
    requires c == Contents(h) && Parsed(c) && current in c && current.kind == MappingKind
    requires value !in h && value.kind == ScalarKind && value.content == []
    modifies current`content
    ensures ok <==>
      if Held(c, current, key, 0) != null then Resolved(Held(c, current, key, 0)).kind == ScalarKind else allowCreate
    ensures ok ==>
      fresh(more) && value !in more && d == Contents(h + more + {value}) && Parsed(d)
      && OneKeySet(c, d, current, key, value)
    ensures ok ==> Into(c, current, key) == null
    ensures !ok ==> Contents(h) == c
  {
    hide Held, Into, Names, Parsed, OneKeySet, Resolved;
    more, d := {}, c;
    IntoHeld(c, current, key);
    var j := FirstPosition(current, key, c);
    if j >= 0 {
      assert Held(c, current, key, 0) in c;
      var existing := DereferenceAlias(current.content[2 * j + 1], c);
      if existing == null || existing.kind != ScalarKind { return false, {}, c; }
      current.content := current.content[2 * j + 1 := value];
      d := Contents(h + {value});
      assert h + {} + {value} == h + {value};
      ReplacedParsed(c, d, current, 2 * j + 1, value);
      ReplaceSetsKey(c, d, current, j, value, key);
      return true, {}, d;
    }
    if !allowCreate { return false, {}, c; }
    var name := new Node(ScalarKind, "!!str", key, []);
    more := {name};
    current.content := current.content + [name, value];
    d := Contents(h + more + {value});
    AppendedParsed(c, d, current, name, value);
    NamesOf(name, key);
    AppendSetsKey(c, d, current, name, value, key);
    ok := true;
  }

  /** Whether a guard goes through: the way exists or may be created, and it ends at a scalar or at nothing. */
  ghost predicate GuardPasses(c: Content, root: Node, p: Path, allowCreate: bool)
    requires Parsed(c) && root in c && |p| > 0
  {
    && PassableTo(c, root, p, |p| - 1, allowCreate)
    && var m := Arrive(c, root, p[..|p| - 1]);
    if m == null then allowCreate
    else
      var v := Held(c, m, p[|p| - 1], 0);
      if v == null then allowCreate else Resolved(v).kind == ScalarKind
  }

  /** Segment `i` can be followed, or created. */
  ghost predicate Passable(c: Content, root: Node, p: Path, i: nat, allowCreate: bool)
    requires Parsed(c) && root in c && i < |p|
  {
    var m := Arrive(c, root, p[..i]);
    m != null ==> Into(c, m, p[i]) != null || (Held(c, m, p[i], 0) == null && allowCreate)
  }

  ghost predicate PassableTo(c: Content, root: Node, p: Path, n: nat, allowCreate: bool)
    requires Parsed(c) && root in c && n <= |p|
  {
    forall i | 0 <= i < n :: Passable(c, root, p, i, allowCreate)
  }

  lemma PassableMore(c: Content, root: Node, p: Path, n: nat, allowCreate: bool)
    requires Parsed(c) && root in c && n < |p| && PassableTo(c, root, p, n, allowCreate)
    requires Passable(c, root, p, n, allowCreate)
    ensures PassableTo(c, root, p, n + 1, allowCreate)
  {
  }

  lemma ArriveNext(c: Content, root: Node, p: Path, i: nat)
    requires Parsed(c) && root in c && i < |p|
    ensures Arrive(c, root, p[..i + 1]) == if Arrive(c, root, p[..i]) == null then null
      else Into(c, Arrive(c, root, p[..i]), p[i])
  {
    assert p[..i + 1][..i] == p[..i];
  }

  lemma {:induction false} ArrivePrefix(c: Content, root: Node, p: Path, i: nat, j: nat)
    requires Parsed(c) && root in c && i <= j <= |p| && Arrive(c, root, p[..i]) == null
    ensures Arrive(c, root, p[..j]) == null
    decreases j - i
  {
    if i < j {
      ArrivePrefix(c, root, p, i, j - 1);
      ArriveNext(c, root, p, j - 1);
    }
  }

  lemma ConservesTrans(c: Content, d: Content, e: Content, root: Node)
    requires Parsed(c) && Parsed(d) && Parsed(e) && root in c && root in d && root in e
    requires Conserves(c, d, root) && Conserves(d, e, root)
    ensures Conserves(c, e, root)
  {
    hide ValueAt, Arrive;
  }

  lemma ConservedArrival(c: Content, d: Content, root: Node, p: Path)
    requires Parsed(c) && Parsed(d) && root in c && root in d && Conserves(c, d, root) && Arrive(c, root, p) != null
    ensures Arrive(d, root, p) == Arrive(c, root, p)
  {
  }

  /** The pointer stands where the first `i` segments lead, in a document that has only been added to. */
  ghost predicate OnWay(c: Content, d: Content, root: Node, p: Path, i: nat, current: Node, allowCreate: bool)
  {
    && Parsed(c) && Parsed(d) && c.Keys <= d.Keys && root in c && i <= |p|
    && current in d && current.kind == MappingKind && Arrive(d, root, p[..i]) == current && Conserves(c, d, root)
    && if Arrive(c, root, p[..i]) != null then d == c else allowCreate && d[current] == []
  }

  lemma OnWayStep(c: Content, e: Content, d: Content, root: Node, p: Path, i: nat, was: Node, current: Node,
    allowCreate: bool)
    requires Descended(c, e, root, p, i, was, allowCreate) && i < |p|
    requires Stepped(e, d, root, was, p[i], allowCreate, true, current)
    ensures Descended(c, d, root, p, i + 1, current, allowCreate)
  {
    StepPassable(c, e, root, p, i, was, allowCreate);
    ArriveNext(c, root, p, i);
    ConservedArrival(e, d, root, p[..i]);
    ArriveNext(d, root, p, i);
    ConservesTrans(c, e, d, root);
    PassableMore(c, root, p, i, allowCreate);
  }

  /** On the way, with every segment so far passable. */
  ghost predicate Descended(c: Content, d: Content, root: Node, p: Path, i: nat, current: Node, allowCreate: bool) {
    OnWay(c, d, root, p, i, current, allowCreate) && PassableTo(c, root, p, i, allowCreate)
  }

  lemma OnWayStops(c: Content, e: Content, d: Content, root: Node, p: Path, i: nat, was: Node, current: Node,
    allowCreate: bool)
    requires Descended(c, e, root, p, i, was, allowCreate) && i < |p| - 1
    requires Stepped(e, d, root, was, p[i], allowCreate, false, current)
    ensures !PassableTo(c, root, p, |p| - 1, allowCreate) && e == c && Arrive(c, root, p[..|p| - 1]) == null
  {
    StepPassable(c, e, root, p, i, was, allowCreate);
    ArriveBlocked(c, root, p, i, allowCreate);
  }

  lemma ContentsKeys(h: set<Node>)
    ensures Contents(h).Keys == h
  {
  }

  /** Follows or creates all but the last segment; `h` is the graph with what was created. */
  method GuardDescend(root: Node, segments: Path, allowCreate: bool, ghost g: set<Node>)
    returns (ok: bool, current: Node, ghost h: set<Node>, ghost made: set<Node>, ghost d: Content)
    requires |segments| > 0 && root in g && root.kind == MappingKind && Parsed(Contents(g))
    modifies g`content
    ensures fresh(made) && g <= h <= g + made && d == Contents(h)
    ensures var c, last := old(Contents(g)), |segments| - 1;
      && Parsed(c) && root in c
      && (ok <==> PassableTo(c, root, segments, last, allowCreate))
      && (ok ==> Descended(c, d, root, segments, last, current, allowCreate))
      && (!ok ==> d == c)
  {
    ghost var c := Contents(g);
    h, made, d, current, ok := g, {}, c, root, true;
    assert segments[..0] == [];
    ConservesSelf(c, root);
    assert Descended(c, d, root, segments, 0, current, allowCreate) by { ArriveNothing(c, root); }
    hide PassableTo, Held, Into, Arrive, Parsed, Conserves, Passable, OnWay, Stepped, Contents, Descended;
    var i := 0;
    while i < |segments| - 1
      invariant 0 <= i < |segments|
      invariant fresh(made) && g <= h <= g + made && d == Contents(h) && Parsed(c) && root in c
      invariant Descended(c, d, root, segments, i, current, allowCreate)
    {
      OnWayMeans(c, d, root, segments, i, current, allowCreate);
      ContentsKeys(h);
      ghost var e, more, was := d, {}, current;
      ok, current, more, d := GuardStep(current, segments[i], allowCreate, root, h, e);
      h, made := h + more, made + more;
      if !ok {
        OnWayStops(c, e, d, root, segments, i, was, current, allowCreate);
        return;
      }
      OnWayStep(c, e, d, root, segments, i, was, current, allowCreate);
      i := i + 1;
    }
    OnWayMeans(c, d, root, segments, i, current, allowCreate);
  }

  lemma OnWayMeans(c: Content, d: Content, root: Node, p: Path, i: nat, current: Node, allowCreate: bool)
    requires Descended(c, d, root, p, i, current, allowCreate)
    ensures i <= |p| && Parsed(c) && root in c && PassableTo(c, root, p, i, allowCreate)
    ensures OnWay(c, d, root, p, i, current, allowCreate)
    ensures Parsed(c) && Parsed(d) && c.Keys <= d.Keys && root in c && root in d && current in d
    ensures current.kind == MappingKind
  {
  }

  lemma ArriveNothing(c: Content, root: Node)
    requires Parsed(c) && root in c
    ensures Arrive(c, root, []) == root
  {
  }

  /** A step is possible in the document as it has become just when it was in the document as it came. */
  lemma StepPassable(c: Content, e: Content, root: Node, p: Path, i: nat, current: Node, allowCreate: bool)
    requires Parsed(c) && Parsed(e) && root in c && i < |p| && current in e
    requires if Arrive(c, root, p[..i]) != null then e == c && Arrive(c, root, p[..i]) == current
      else allowCreate && e[current] == []
    ensures Passable(c, root, p, i, allowCreate) <==>
      Into(e, current, p[i]) != null || (Held(e, current, p[i], 0) == null && allowCreate)
    ensures Arrive(c, root, p[..i]) == null ==> Into(e, current, p[i]) == null && Held(e, current, p[i], 0) == null
  {
  }

  /** Where a step is not possible the way ends. */
  lemma ArriveBlocked(c: Content, root: Node, p: Path, i: nat, allowCreate: bool)
    requires Parsed(c) && root in c && i < |p| - 1 && !Passable(c, root, p, i, allowCreate)
    ensures Arrive(c, root, p[..|p| - 1]) == null
  {
    ArriveNext(c, root, p, i);
    ArrivePrefix(c, root, p, i + 1, |p| - 1);
  }

  /** What a guard leaves behind: `d`, seen along every path. */
  ghost predicate Guarded(c: Content, d: Content, root: Node, p: Path, value: Node)
    requires Parsed(c) && Parsed(d) && root in c && root in d && |p| > 0
  {
    && ValueAt(d, root, p) == value
    && (forall q | |q| > 0 :: ValueAt(d, root, q) == value <==> SamePlace(d, root, p, q))
    && (forall q | |q| > 0 && ValueAt(c, root, q) != null && !SamePlace(c, root, p, q) ::
      ValueAt(d, root, q) == ValueAt(c, root, q))
    && (Arrive(c, root, p[..|p| - 1]) != null ==>
      forall q | |q| > 0 :: ValueAt(d, root, q) == if SamePlace(c, root, p, q) then value else ValueAt(c, root, q))
  }

  lemma GuardSeen(c: Content, e: Content, d: Content, root: Node, p: Path, current: Node, value: Node,
    allowCreate: bool)
    requires |p| > 0 && OnWay(c, e, root, p, |p| - 1, current, allowCreate) && Parsed(d) && value.kind == ScalarKind
    requires value !in e
    requires OneKeySet(e, d, current, p[|p| - 1], value) && Into(e, current, p[|p| - 1]) == null
    ensures root in d && Guarded(c, d, root, p, value)
  {
    hide Arrive, Held;
    var last := p[|p| - 1];
    assert root in d;
    forall q | |q| > 0
      ensures ValueAt(d, root, q) == if SamePlace(e, root, p, q) then value else ValueAt(e, root, q)
      ensures ValueAt(d, root, q) == value <==> SamePlace(d, root, p, q)
    {
      SeenExactly(e, d, root, p, value, q);
      ArriveSame(e, d, current, last, value, root, p[..|p| - 1]);
      ArriveSame(e, d, current, last, value, root, q[..|q| - 1]);
    }
    assert SamePlace(e, root, p, p);
    if Arrive(c, root, p[..|p| - 1]) == null {
      forall q | |q| > 0 && ValueAt(c, root, q) != null ensures ValueAt(d, root, q) == ValueAt(c, root, q) {
        assert ValueAt(e, root, q) == ValueAt(c, root, q);
        assert !SamePlace(e, root, p, q) by { LastIsNew(c, e, root, p, q, current, allowCreate); }
      }
    }
  }

  /** In a mapping the guard created, nothing had been held. */
  lemma LastIsNew(c: Content, e: Content, root: Node, p: Path, q: Path, current: Node, allowCreate: bool)
    requires |p| > 0 && |q| > 0 && OnWay(c, e, root, p, |p| - 1, current, allowCreate)
    requires Arrive(c, root, p[..|p| - 1]) == null
    requires ValueAt(c, root, q) != null
    ensures !SamePlace(e, root, p, q)
  {
    assert ValueAt(e, root, q) == ValueAt(c, root, q);
    assert Held(e, current, q[|q| - 1], 0) == null;
  }

  /**
   Guards a document with aliases in place. The guard passes just when `GuardPasses` says so, and then
   the value is read back at its path, and at exactly the paths that now end in the same key of the
   same mapping, created or not. Every other place that could be read before reads as before, and
   when the way to the path existed every other path reads as before.
   The graph afterwards is `after`: the old nodes, the value, and what had to be created.
   */
  method ApplyYamlGuard(root: Node, segments: Path, value: Node, allowCreate: bool, ghost g: set<Node>)
    returns (ok: bool, ghost made: set<Node>, ghost after: set<Node>)
    requires |segments| > 0 && root in g && root.kind == MappingKind && Parsed(Contents(g))
    requires value !in g && value.kind == ScalarKind && value.content == []
    modifies g`content
    ensures Parsed(old(Contents(g))) && (ok <==> GuardPasses(old(Contents(g)), root, segments, allowCreate))
    ensures fresh(made) && g <= after <= g + made + {value} && root in Contents(after)
    ensures ok ==> Parsed(Contents(after)) && Guarded(old(Contents(g)), Contents(after), root, segments, value)
  {
    ghost var c := Contents(g);
    var current;
    ghost var d, e, h;
    ok, current, h, made, d := GuardDescend(root, segments, allowCreate, g);
    after := h;
    if ok {
      OnWayMeans(c, d, root, segments, |segments| - 1, current, allowCreate);
      LastDecides(c, d, root, segments, current, allowCreate);
      ghost var more;
      e := d;
      ok, more, d := GuardLast(current, segments[|segments| - 1], value, allowCreate, h, e);
      if ok {
        GuardSeen(c, e, d, root, segments, current, value, allowCreate);
        made, after := made + more, h + more + {value};
      }
    }
  }

  /** Once the way is known to be passable, the last mapping decides. */
  lemma LastDecides(c: Content, e: Content, root: Node, p: Path, current: Node, allowCreate: bool)
    requires |p| > 0 && OnWay(c, e, root, p, |p| - 1, current, allowCreate)
    requires PassableTo(c, root, p, |p| - 1, allowCreate)
    ensures GuardPasses(c, root, p, allowCreate) <==>
      if Held(e, current, p[|p| - 1], 0) != null then Resolved(Held(e, current, p[|p| - 1], 0)).kind == ScalarKind
        else allowCreate
  {
    if Arrive(c, root, p[..|p| - 1]) == null { assert Held(e, current, p[|p| - 1], 0) == null; }
  }
}
