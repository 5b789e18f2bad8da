/** Patching a document in place: a pointer descends along the path and overwrites or appends node content. */
module YamlPatch {
  import opened Options
  import opened YamlNodes
  import opened YamlClone
  import opened YamlPaths

  /** Child indices that lead from a root to a node. */
  type Route = seq<nat>

  ghost predicate Within(sh: Shape, r: Route)
    decreases |r|
  {
    r == [] || (r[0] < |sh.children| && Within(sh.children[r[0]], r[1..]))
  }

  ghost function ShapeAt(sh: Shape, r: Route): Shape
    requires Within(sh, r)
    decreases |r|
  {
    if r == [] then sh else ShapeAt(sh.children[r[0]], r[1..])
  }

  ghost function ShapeWith(sh: Shape, r: Route, c: Shape): Shape
    requires Within(sh, r)
    decreases |r|
  {
    if r == [] then c else Shape(sh.node, sh.children[r[0] := ShapeWith(sh.children[r[0]], r[1..], c)])
  }

  ghost predicate Inside(t: Tree, r: Route)
    decreases |r|
  {
    r == [] || (r[0] < |t.children| && Inside(t.children[r[0]], r[1..]))
  }

  ghost function TreeAt(t: Tree, r: Route): Tree
    requires Inside(t, r)
    decreases |r|
  {
    if r == [] then t else TreeAt(t.children[r[0]], r[1..])
  }

  ghost function Graft(t: Tree, r: Route, u: Tree): Tree
    requires Inside(t, r)
    decreases |r|
  {
    if r == [] then u else t.(children := t.children[r[0] := Graft(t.children[r[0]], r[1..], u)])
  }

  lemma {:induction false} HoldsAt(sh: Shape, t: Tree, r: Route)
    requires Holds(sh, t) && Within(sh, r)
    ensures Inside(t, r) && Holds(ShapeAt(sh, r), TreeAt(t, r)) && Nodes(ShapeAt(sh, r)) <= Nodes(sh)
    decreases |r|
  {
    if r != [] { HoldsAt(sh.children[r[0]], t.children[r[0]], r[1..]); }
  }

  /** One step further down the route. */
  lemma {:induction false} GraftDeeper(t: Tree, r: Route, k: nat, u: Tree)
    requires Inside(t, r) && k < |TreeAt(t, r).children|
    ensures Inside(t, r + [k]) && TreeAt(t, r + [k]) == TreeAt(t, r).children[k]
    ensures Graft(t, r + [k], u) == Graft(t, r, TreeAt(t, r).(children := TreeAt(t, r).children[k := u]))
    decreases |r|
  {
    if r == [] {
      assert ([k])[1..] == [];
    } else {
      assert (r + [k])[1..] == r[1..] + [k];
      GraftDeeper(t.children[r[0]], r[1..], k, u);
    }
  }

  /** Grafting again at or below the grafted place. */
  lemma {:induction false} GraftAgain(t: Tree, r: Route, u: Tree, w: Tree)
    requires Inside(t, r)
    ensures Inside(Graft(t, r, u), r) && TreeAt(Graft(t, r, u), r) == u && Graft(Graft(t, r, u), r, w) == Graft(t, r, w)
    decreases |r|
  {
    if r != [] { GraftAgain(t.children[r[0]], r[1..], u, w); }
  }

  lemma {:induction false} WithinDeeper(sh: Shape, r: Route, k: nat)
    requires Within(sh, r) && k < |ShapeAt(sh, r).children|
    ensures Within(sh, r + [k]) && ShapeAt(sh, r + [k]) == ShapeAt(sh, r).children[k]
    decreases |r|
  {
    if r == [] {
      assert ([k])[1..] == [];
    } else {
      assert (r + [k])[1..] == r[1..] + [k];
      WithinDeeper(sh.children[r[0]], r[1..], k);
    }
  }

  lemma {:induction false} WithinWith(sh: Shape, r: Route, c: Shape)
    requires Within(sh, r)
    ensures Within(ShapeWith(sh, r, c), r) && ShapeAt(ShapeWith(sh, r, c), r) == c
    ensures Nodes(ShapeWith(sh, r, c)) <= Nodes(sh) + Nodes(c)
    ensures r != [] ==> ShapeWith(sh, r, c).node == sh.node
    decreases |r|
  {
    if r != [] { WithinWith(sh.children[r[0]], r[1..], c); }
  }

  lemma {:induction false} NodesAt(sh: Shape, r: Route)
    requires Within(sh, r)
    ensures ShapeAt(sh, r).node in Nodes(sh) && Nodes(ShapeAt(sh, r)) <= Nodes(sh)
    decreases |r|
  {
    if r != [] { NodesAt(sh.children[r[0]], r[1..]); }
  }

  /** The nodes of an owned tree outside the subtree at a route. */
  ghost function Rim(sh: Shape, r: Route): set<Node>
    requires Within(sh, r)
    decreases |r|
  {
    if r == [] then {} else
      {sh.node} + Rim(sh.children[r[0]], r[1..])
      + set j, m | 0 <= j < |sh.children| && j != r[0] && m in Nodes(sh.children[j]) :: m
  }

  /** An owned tree with a hole: everything but the subtree at the route is in place. */
  ghost predicate HoldsAround(sh: Shape, t: Tree, r: Route)
    requires Within(sh, r)
    reads Rim(sh, r)
    decreases |r|
  {
    r == [] || (
      && sh.node.kind == t.kind != AliasKind && sh.node.tag == t.tag && sh.node.value == t.value
      && sh.node.alias == null
      && |sh.node.content| == |sh.children| == |t.children|
      && Apart(sh.children)
      && (forall i | 0 <= i < |sh.children| ::
        sh.node.content[i] == sh.children[i].node && sh.node !in Nodes(sh.children[i]))
      && (forall i | 0 <= i < |sh.children| && i != r[0] :: Holds(sh.children[i], t.children[i]))
      && HoldsAround(sh.children[r[0]], t.children[r[0]], r[1..]))
  }

  lemma {:induction false} HoleIn(sh: Shape, t: Tree, r: Route)
    requires Holds(sh, t) && Within(sh, r)
    ensures HoldsAround(sh, t, r) && Rim(sh, r) !! Nodes(ShapeAt(sh, r)) && Rim(sh, r) <= Nodes(sh)
    decreases |r|
  {
    if r != [] {
      HoleIn(sh.children[r[0]], t.children[r[0]], r[1..]);
      NodesAt(sh.children[r[0]], r[1..]);
      forall j | 0 <= j < |sh.children| && j != r[0] ensures Nodes(sh.children[j]) !! Nodes(sh.children[r[0]]) {
        ApartTwo(sh.children, j, r[0]);
      }
    }
  }

  /** The hole filled with another subtree of the same node: the whole holds the grafted tree. */
  lemma {:induction false} GraftHolds(sh: Shape, t: Tree, r: Route, c: Shape, u: Tree)
    requires Within(sh, r) && HoldsAround(sh, t, r) && c.node == ShapeAt(sh, r).node && Holds(c, u)
    requires Nodes(c) * Nodes(sh) <= Nodes(ShapeAt(sh, r)) && Rim(sh, r) !! Nodes(ShapeAt(sh, r))
    ensures Inside(t, r) && Holds(ShapeWith(sh, r, c), Graft(t, r, u))
    decreases |r|
  {
    if r != [] {
      var k := r[0];
      var child := sh.children[k];
      NodesAt(child, r[1..]);
      assert Nodes(child) <= Nodes(sh) && Rim(child, r[1..]) <= Rim(sh, r);
      GraftHolds(child, t.children[k], r[1..], c, u);
      WithinWith(child, r[1..], c);
      forall j | 0 <= j < |sh.children| && j != k
        ensures Nodes(sh.children[j]) !! Nodes(ShapeWith(child, r[1..], c))
        ensures sh.node !in Nodes(ShapeWith(child, r[1..], c))
      {
        ApartTwo(sh.children, j, k);
        assert Nodes(sh.children[j]) <= Nodes(sh);
      }
      FilledHolds(sh, t, k, ShapeWith(child, r[1..], c), Graft(t.children[k], r[1..], u));
    }
  }

  lemma FilledHolds(sh: Shape, t: Tree, k: nat, child: Shape, u: Tree)
    requires k < |sh.children| && child.node == sh.children[k].node && Holds(child, u) && sh.node !in Nodes(child)
    requires sh.node.kind == t.kind != AliasKind && sh.node.tag == t.tag && sh.node.value == t.value
    requires sh.node.alias == null
    requires |sh.node.content| == |sh.children| == |t.children| && Apart(sh.children)
    requires forall i | 0 <= i < |sh.children| ::
      sh.node.content[i] == sh.children[i].node && sh.node !in Nodes(sh.children[i])
    requires forall i | 0 <= i < |sh.children| && i != k ::
      Holds(sh.children[i], t.children[i]) && Nodes(sh.children[i]) !! Nodes(child)
    ensures Holds(Shape(sh.node, sh.children[k := child]), t.(children := t.children[k := u]))
  {
    hide Nodes;
  }

  lemma ApartTwo(shs: seq<Shape>, j: nat, k: nat)
    requires Apart(shs) && j < |shs| && k < |shs| && j != k
    ensures Nodes(shs[j]) !! Nodes(shs[k])
  {
  }

  /** The pointer `current` stands at a route inside an owned document. */
  ghost predicate Focused(sh: Shape, nodes: set<Node>, t: Tree, r: Route, current: Node)
    reads Nodes(sh)
  {
    Within(sh, r) && Inside(t, r) && ShapeAt(sh, r).node == current && Holds(sh, t) && nodes == Nodes(sh)
  }

  lemma FocusedNode(sh: Shape, nodes: set<Node>, t: Tree, r: Route, current: Node)
    requires Focused(sh, nodes, t, r, current)
    ensures Within(sh, r) && Inside(t, r) && ShapeAt(sh, r).node == current && Holds(sh, t)
    ensures Holds(ShapeAt(sh, r), TreeAt(t, r)) && current in nodes && Nodes(ShapeAt(sh, r)) <= nodes
    ensures |ShapeAt(sh, r).children| == |TreeAt(t, r).children| == |current.content|
    ensures current.kind == TreeAt(t, r).kind
  {
    HoldsAt(sh, t, r);
    NodesAt(sh, r);
  }

  /** The first string key of a mapping. */
  method MappingPosition(mapping: Node, key: string, ghost sh: Shape, ghost t: Tree) returns (i: int)
    requires Holds(sh, t) && sh.node == mapping
    ensures i == Position(t.children, key, 0)
  {
    var j := 0;
    while j + 1 < |mapping.content|
      invariant j % 2 == 0
      invariant Position(t.children, key, 0) == Position(t.children, key, j)
    {
      var candidate := mapping.content[j];
      assert Holds(sh.children[j], t.children[j]);
      if candidate.kind == ScalarKind && candidate.tag == "!!str" && candidate.value == key { return j; }
      j := j + 2;
    }
    i := -1;
  }

  /** What is still to be written below the current mapping, given what was to be written from the root. */
  ghost predicate Pending(root: Tree, now: Tree, r: Route, p: Path, rest: Path, v: Tree, m: Mode)
    requires |p| > 0 && |rest| > 0
  {
    && Inside(now, r)
    && (Write(root, p, v, m).Some? <==> Write(TreeAt(now, r), rest, v, m).Some?)
    && (Write(root, p, v, m).Some? ==>
      Write(root, p, v, m).value == Graft(now, r, Write(TreeAt(now, r), rest, v, m).value))
  }

  lemma PendingDescends(root: Tree, now: Tree, r: Route, p: Path, rest: Path, v: Tree, m: Mode)
    requires |p| > 0 && |rest| > 1 && Pending(root, now, r, p, rest, v, m)
    requires var i := Position(TreeAt(now, r).children, rest[0], 0);
      i >= 0 && TreeAt(now, r).children[i + 1].kind == MappingKind
    ensures Pending(root, now, r + [Position(TreeAt(now, r).children, rest[0], 0) + 1], p, rest[1..], v, m)
  {
    var t := TreeAt(now, r);
    var i := Position(t.children, rest[0], 0);
    var w := Write(t.children[i + 1], rest[1..], v, m);
    GraftDeeper(now, r, i + 1, if w.Some? then w.value else v);
  }

  lemma PendingCreates(root: Tree, now: Tree, r: Route, p: Path, rest: Path, v: Tree, m: Mode)
    requires |p| > 0 && |rest| > 1 && Pending(root, now, r, p, rest, v, m) && (m.Guarding? ==> m.allowCreate)
    requires Position(TreeAt(now, r).children, rest[0], 0) < 0
    ensures var t := TreeAt(now, r);
      var next := Graft(now, r,
        t.(children := t.children + [Key(rest[0]), Built([], Tree(MappingKind, "!!map", "", []))]));
      Pending(root, next, r + [|t.children| + 1], p, rest[1..], v, m)
  {
    var t := TreeAt(now, r);
    var n := |t.children|;
    var empty := Tree(MappingKind, "!!map", "", []);
    var u := t.(children := t.children + [Key(rest[0]), empty]);
    var w := t.(children := t.children + [Key(rest[0]), Built(rest[1..], v)]);
    assert Position(empty.children, rest[1], 0) == -1;
    assert Write(empty, rest[1..], v, m) == Some(Built(rest[1..], v)) by {
      assert [] + [Key(rest[1]), Built(rest[1..][1..], v)] == [Key(rest[1]), Built(rest[1..][1..], v)];
    }
    GraftAgain(now, r, u, w);
    GraftDeeper(Graft(now, r, u), r, n + 1, Built(rest[1..], v));
    assert u.children[n + 1 := Built(rest[1..], v)] == w.children;
  }

  /** Gives a mapping inside an owned document new content. */
  method SetContent(current: Node, content: seq<Node>, ghost sh: Shape, ghost t: Tree, ghost r: Route, ghost c: Shape,
    ghost u: Tree)
    requires Holds(sh, t) && Within(sh, r) && ShapeAt(sh, r).node == current && c.node == current
    requires Inside(t, r) && u == TreeAt(t, r).(children := u.children)
    requires Fits(current, content, c.children, u.children)
    requires Nodes(c) * Nodes(sh) <= Nodes(ShapeAt(sh, r))
    modifies current`content
    ensures current.content == content
    ensures Within(ShapeWith(sh, r, c), r) && ShapeAt(ShapeWith(sh, r, c), r) == c
    ensures Holds(ShapeWith(sh, r, c), Graft(t, r, u)) && Nodes(ShapeWith(sh, r, c)) <= Nodes(sh) + Nodes(c)
    ensures r != [] ==> ShapeWith(sh, r, c).node == sh.node
  {
    HoldsAt(sh, t, r);
    HoleIn(sh, t, r);
    NodesAt(sh, r);
    current.content := content;
    assert HoldsAround(sh, t, r);
    assert Fits(current, content, c.children, u.children);
    assert Holds(c, u);
    GraftHolds(sh, t, r, c, u);
    WithinWith(sh, r, c);
  }

  /** The children of a node about to be rewritten: apart, in place, and not the node itself. */
  ghost predicate Fits(current: Node, content: seq<Node>, cs: seq<Shape>, us: seq<Tree>)
    reads set i, m | 0 <= i < |cs| && m in Nodes(cs[i]) :: m
  {
    && |content| == |cs| == |us| && Apart(cs)
    && forall i | 0 <= i < |cs| :: content[i] == cs[i].node && current !in Nodes(cs[i]) && Holds(cs[i], us[i])
  }

  lemma FitsAppended(c: Shape, t: Tree, k: Shape, kt: Tree, v: Shape, vt: Tree)
    requires Holds(c, t) && Holds(k, kt) && Holds(v, vt) && Nodes(k) !! Nodes(c) && Nodes(v) !! Nodes(c)
    requires Nodes(k) !! Nodes(v)
    ensures Fits(c.node, c.node.content + [k.node, v.node], c.children + [k, v], t.children + [kt, vt])
    ensures Nodes(Shape(c.node, c.children + [k, v])) == Nodes(c) + Nodes(k) + Nodes(v)
  {
    var cs, us, content := c.children + [k, v], t.children + [kt, vt], c.node.content + [k.node, v.node];
    forall i | 0 <= i < |c.children| ensures Nodes(c.children[i]) <= Nodes(c) && Holds(c.children[i], t.children[i]) {}
    forall i | 0 <= i < |cs| ensures content[i] == cs[i].node && c.node !in Nodes(cs[i]) && Holds(cs[i], us[i]) {
      if i >= |c.children| { assert cs[i] == [k, v][i - |c.children|]; }
    }
    assert Apart(cs) by { hide Holds; }
    assert cs[|c.children|] == k && cs[|c.children| + 1] == v;
    AppendedNodes(c, k, v);
  }

  lemma AppendedNodes(c: Shape, k: Shape, v: Shape)
    ensures Nodes(Shape(c.node, c.children + [k, v])) == Nodes(c) + Nodes(k) + Nodes(v)
  {
    var cs := c.children + [k, v];
    assert cs[|c.children|] == k && cs[|c.children| + 1] == v;
    assert forall i | 0 <= i < |c.children| :: cs[i] == c.children[i];
  }

  lemma FitsReplaced(c: Shape, t: Tree, i: nat, v: Shape, vt: Tree)
    requires Holds(c, t) && i < |c.children| && Holds(v, vt) && Nodes(v) !! Nodes(c)
    ensures Fits(c.node, c.node.content[i := v.node], c.children[i := v], t.children[i := vt])
    ensures Nodes(Shape(c.node, c.children[i := v])) <= Nodes(c) + Nodes(v)
  {
    forall j | 0 <= j < |c.children| ensures Nodes(c.children[j]) <= Nodes(c) && Holds(c.children[j], t.children[j]) {}
  }

  lemma LeafHolds(n: Node)
    requires n.kind != AliasKind && n.alias == null && n.content == []
    ensures Nodes(Shape(n, [])) == {n} && Holds(Shape(n, []), Tree(n.kind, n.tag, n.value, []))
  {
  }

  lemma HoldsSizes(sh: Shape, t: Tree)
    requires Holds(sh, t)
    ensures |sh.children| == |t.children| == |sh.node.content| && sh.node.kind == t.kind
  {
  }

  const EMPTY_MAP := Tree(MappingKind, "!!map", "", [])

  /** Appends a key with an empty mapping to a mapping inside an owned document. */
  method AppendMapping(current: Node, key: string, ghost sh: Shape, ghost nodes: set<Node>, ghost t: Tree,
    ghost r: Route)
    returns (next: Node, ghost after: Shape, ghost now: Tree, ghost there: Route, ghost made: set<Node>)
    requires Focused(sh, nodes, t, r, current)
    modifies current`content
    ensures Inside(t, r) && var tc := TreeAt(t, r);
      now == Graft(t, r, tc.(children := tc.children + [Key(key), EMPTY_MAP])) && there == r + [|tc.children| + 1]
    ensures Focused(after, Nodes(after), now, there, next) && after.node == sh.node && TreeAt(now, there) == EMPTY_MAP
    ensures fresh(made) && Nodes(after) <= nodes + made
  {
    hide Fits, Holds, Nodes, Graft, ShapeWith, Within, Inside;
    HoldsAt(sh, t, r);
    NodesAt(sh, r);
    ghost var c, tc := ShapeAt(sh, r), TreeAt(t, r);
    HoldsSizes(c, tc);
    next := new Node(MappingKind, "!!map", "", []);
    var name := new Node(ScalarKind, "!!str", key, []);
    made := {name, next};
    ghost var ks, es := Shape(name, []), Shape(next, []);
    LeafHolds(name);
    LeafHolds(next);
    HoldsAt(sh, t, r);
    FitsAppended(c, tc, ks, Key(key), es, EMPTY_MAP);
    ghost var grown, u := Shape(current, c.children + [ks, es]), tc.(children := tc.children + [Key(key), EMPTY_MAP]);
    SetContent(current, current.content + [name, next], sh, t, r, grown, u);
    GraftAgain(t, r, u, u);
    after, now := ShapeWith(sh, r, grown), Graft(t, r, u);
    there := r + [|tc.children| + 1];
    WithinDeeper(after, r, |tc.children| + 1);
    GraftDeeper(now, r, |tc.children| + 1, u);
  }

  /** Sets or appends the value of a key in a mapping inside an owned document. */
  method PutValue(current: Node, key: string, position: int, value: Node,
      ghost sh: Shape, ghost nodes: set<Node>, ghost t: Tree, ghost r: Route, ghost vs: Shape, ghost added: set<Node>,
        ghost v: Tree)
    returns (ghost after: Shape, ghost made: set<Node>)
    requires Focused(sh, nodes, t, r, current)
    requires position == Position(TreeAt(t, r).children, key, 0)
    requires Holds(vs, v) && vs.node == value && added == Nodes(vs) && added !! nodes
    modifies current`content
    ensures Inside(t, r) && var tc := TreeAt(t, r);
      Holds(after, Graft(t, r, tc.(children :=
        if position >= 0 then tc.children[position + 1 := v] else tc.children + [Key(key), v])))
    ensures after.node == sh.node && fresh(made) && Nodes(after) <= nodes + added + made
  {
    hide Fits, Holds, Nodes, Graft, ShapeWith, Within, Inside;
    HoldsAt(sh, t, r);
    NodesAt(sh, r);
    ghost var c, tc := ShapeAt(sh, r), TreeAt(t, r);
    HoldsSizes(c, tc);
    made := {};
    if position >= 0 {
      FitsReplaced(c, tc, position + 1, vs, v);
      ghost var grown := Shape(current, c.children[position + 1 := vs]);
      SetContent(current, current.content[position + 1 := value], sh, t, r, grown,
        tc.(children := tc.children[position + 1 := v]));
      after := ShapeWith(sh, r, grown);
    } else {
      var name := new Node(ScalarKind, "!!str", key, []);
      made := {name};
      ghost var ks := Shape(name, []);
      LeafHolds(name);
      HoldsAt(sh, t, r);
      FitsAppended(c, tc, ks, Key(key), vs, v);
      ghost var grown := Shape(current, c.children + [ks, vs]);
      SetContent(current, current.content + [name, value], sh, t, r, grown,
        tc.(children := tc.children + [Key(key), v]));
      after := ShapeWith(sh, r, grown);
    }
  }

  /** Follows one segment, creating the mapping when it is missing. */
  method DescendStep(current: Node, segments: Path, i: nat, ghost sh: Shape, ghost nodes: set<Node>, ghost now: Tree,
    ghost r: Route,
      ghost t: Tree, ghost v: Tree, m: Mode)
    returns (ok: bool, next: Node, ghost after: Shape, ghost grown: Tree, ghost there: Route, ghost made: set<Node>)
    requires i < |segments| - 1 && Focused(sh, nodes, now, r, current)
    requires Pending(t, now, r, segments, segments[i..], v, m)
    requires nodes == Nodes(sh)
    modifies current`content
    ensures ok ==> Focused(after, Nodes(after), grown, there, next) && after.node == sh.node
    ensures ok ==> Pending(t, grown, there, segments, segments[i + 1..], v, m)
    ensures ok ==> fresh(made) && Nodes(after) <= nodes + made
    ensures ok ==> (after == sh && grown == now && !Childless(now, r)) || (Childless(grown, there) && Creates(m))
    ensures !ok ==> Write(t, segments, v, m).None? && (!Childless(now, r) || !Creates(m)) && Holds(sh, now)
  {
    hide Focused, Holds, Position, Nodes, Within, Inside, Graft, Pending, Write, ShapeAt, TreeAt;
    next, after, grown, there, made := current, sh, now, r, {};
    FocusedNode(sh, nodes, now, r, current);
    var position := MappingPosition(current, segments[i], ShapeAt(sh, r), TreeAt(now, r));
    assert segments[i..][0] == segments[i] && segments[i..][1..] == segments[i + 1..];
    if position >= 0 {
      Descends(sh, nodes, now, r, current, position, t, segments, segments[i..], v, m);
      next := current.content[position + 1];
      ok := next.kind == MappingKind;
      there := r + [position + 1];
    } else if !Creates(m) {
      PendingStuck(t, now, r, segments, segments[i..], v, m);
      ok := false;
    } else {
      PendingCreates(t, now, r, segments, segments[i..], v, m);
      next, after, grown, there, made := AppendMapping(current, segments[i], sh, nodes, now, r);
      ok := true;
    }
  }

  /** Follows all but the last segment. */
  method Descend(root: Node, segments: Path, m: Mode, ghost sh: Shape, ghost doc: set<Node>, ghost t: Tree,
    ghost v: Tree)
    returns (ok: bool, current: Node, ghost after: Shape, ghost now: Tree, ghost r: Route, ghost made: set<Node>)
    requires |segments| > 0 && Focused(sh, doc, t, [], root) && doc == Nodes(sh)
    modifies doc
    ensures ok ==> Focused(after, Nodes(after), now, r, current) && after.node == sh.node
    ensures ok ==> Pending(t, now, r, segments, segments[|segments| - 1..], v, m)
    ensures fresh(made) && Nodes(after) <= doc + made
    ensures ok ==> (after == sh && now == t) || (Childless(now, r) && Creates(m))
    ensures !ok ==> Write(t, segments, v, m).None? && Holds(sh, t)
  {
    ok, after, made, current, now, r := true, sh, {}, root, t, [];
    ghost var nodes := doc;
    var i := 0;
    assert segments[0..] == segments && TreeAt(t, []) == t;
    assert Pending(t, t, [], segments, segments[i..], v, m);
    hide Focused, Holds, Nodes, Pending, Write, Childless, Creates;
    while i < |segments| - 1
      invariant 0 <= i < |segments|
      invariant Focused(after, nodes, now, r, current) && after.node == sh.node
      invariant Pending(t, now, r, segments, segments[i..], v, m)
      invariant nodes == Nodes(after) && fresh(made) && nodes <= doc + made
      invariant (after == sh && now == t) || (Childless(now, r) && Creates(m))
    {
      FocusedNode(after, nodes, now, r, current);
      ghost var more, before := {}, after;
      ok, current, after, now, r, more := DescendStep(current, segments, i, after, nodes, now, r, t, v, m);
      if !ok { after := before; return; }
      nodes, made := Nodes(after), made + more;
      i := i + 1;
    }
  }

  /**
   Applies a patch or a guard to an owned document in place. It fails, leaving the document alone,
   exactly when `Write` does, and otherwise the same root node holds the written tree.
   */
  method ApplyYaml(root: Node, segments: Path, value: Node, m: Mode,
      ghost sh: Shape, ghost doc: set<Node>, ghost t: Tree, ghost vs: Shape, ghost added: set<Node>, ghost v: Tree)
    returns (ok: bool, ghost after: Shape, ghost made: set<Node>)
    requires |segments| > 0 && Holds(sh, t) && sh.node == root && t.kind == MappingKind && doc == Nodes(sh)
    requires Holds(vs, v) && vs.node == value && added == Nodes(vs) && added !! doc
    modifies doc
    ensures ok <==> Write(t, segments, v, m).Some?
    ensures ok ==> after.node == root && Holds(after, Write(t, segments, v, m).value)
    ensures !ok ==> Holds(sh, t)
    ensures fresh(made) && Nodes(after) <= doc + added + made
  {
    assert Focused(sh, doc, t, [], root);
    hide Focused, Holds, Position, Nodes, Within, Inside, Graft, Pending, Write, ShapeAt, TreeAt, Childless;
    var current: Node;
    ghost var now, r, more;
    ok, current, after, now, r, made := Descend(root, segments, m, sh, doc, t, v);
    if ok {
      var last := segments[|segments| - 1..];
      PendingEnds(t, now, r, segments, last, v, m);
      FocusedNode(after, Nodes(after), now, r, current);
      ok, after, more := WriteLast(current, last[0], value, m, after, Nodes(after), now, r, vs, added, v);
      made := made + more;
    }
  }

  /** The tree of a mapping whose last segment is written, if it may be. */
  function LastWritten(t: Tree, key: string, v: Tree, m: Mode): Option<Tree> {
    var i := Position(t.children, key, 0);
    if m.Guarding? && (if i >= 0 then t.children[i + 1].kind != ScalarKind else !m.allowCreate) then None
    else Some(t.(children := if i >= 0 then t.children[i + 1 := v] else t.children + [Key(key), v]))
  }

  /** Writes the last segment, unless a guard finds something other than a scalar or may not create. */
  method WriteLast(current: Node, key: string, value: Node, m: Mode,
      ghost sh: Shape, ghost nodes: set<Node>, ghost t: Tree, ghost r: Route, ghost vs: Shape, ghost added: set<Node>,
        ghost v: Tree)
    returns (ok: bool, ghost after: Shape, ghost made: set<Node>)
    requires Focused(sh, nodes, t, r, current) && nodes == Nodes(sh)
    requires Holds(vs, v) && vs.node == value && added == Nodes(vs) && added !! nodes
    modifies current`content
    ensures Inside(t, r) && (ok <==> LastWritten(TreeAt(t, r), key, v, m).Some?)
    ensures ok ==> Holds(after, Graft(t, r, LastWritten(TreeAt(t, r), key, v, m).value)) && after.node == sh.node
    ensures !ok ==> Holds(sh, t) && after == sh
    ensures fresh(made) && Nodes(after) <= nodes + added + made
  {
    hide Focused, Holds, Position, Nodes, Within, Inside, Graft, ShapeAt, TreeAt;
    after, made := sh, {};
    FocusedNode(sh, nodes, t, r, current);
    var position := MappingPosition(current, key, ShapeAt(sh, r), TreeAt(t, r));
    if position >= 0 { HoldsChild(ShapeAt(sh, r), TreeAt(t, r), position + 1); }
    if m.Guarding? && (if position >= 0 then current.content[position + 1].kind != ScalarKind else !m.allowCreate) {
      return false, after, made;
    }
    after, made := PutValue(current, key, position, value, sh, nodes, t, r, vs, added, v);
    ok := true;
  }

  predicate Creates(m: Mode) {
    m.Patching? || m.allowCreate
  }

  ghost predicate Childless(t: Tree, r: Route) {
    Inside(t, r) && TreeAt(t, r).children == []
  }

  /** Following an existing key, or failing at a value that is no mapping. */
  lemma Descends(sh: Shape, nodes: set<Node>, now: Tree, r: Route, current: Node, position: nat, root: Tree, p: Path,
    rest: Path, v: Tree, m: Mode)
    requires Focused(sh, nodes, now, r, current) && |p| > 0 && |rest| > 1 && Pending(root, now, r, p, rest, v, m)
    requires position == Position(TreeAt(now, r).children, rest[0], 0)
    ensures position + 1 < |current.content| && current.content[position + 1] in nodes && !Childless(now, r)
    ensures var next := current.content[position + 1];
      if next.kind != MappingKind then Write(root, p, v, m).None?
      else
        && Focused(sh, nodes, now, r + [position + 1], next)
        && Pending(root, now, r + [position + 1], p, rest[1..], v, m)
  {
    FocusedNode(sh, nodes, now, r, current);
    var c, tc := ShapeAt(sh, r), TreeAt(now, r);
    HoldsChild(c, tc, position + 1);
    if tc.children[position + 1].kind == MappingKind {
      PendingDescends(root, now, r, p, rest, v, m);
      WithinDeeper(sh, r, position + 1);
      GraftDeeper(now, r, position + 1, tc);
    } else {
      PendingFails(root, now, r, p, rest, v, m);
    }
  }

  lemma PendingEnds(root: Tree, now: Tree, r: Route, p: Path, rest: Path, v: Tree, m: Mode)
    requires |p| > 0 && |rest| == 1 && Pending(root, now, r, p, rest, v, m)
    ensures var w := LastWritten(TreeAt(now, r), rest[0], v, m);
      && Write(root, p, v, m) == (if w.None? then None else Some(Graft(now, r, w.value)))
      && (w.None? ==> !Childless(now, r) || !Creates(m))
  {
    assert rest[1..] == [];
  }

  lemma PendingFails(root: Tree, now: Tree, r: Route, p: Path, rest: Path, v: Tree, m: Mode)
    requires |p| > 0 && |rest| > 1 && Pending(root, now, r, p, rest, v, m)
    requires var i := Position(TreeAt(now, r).children, rest[0], 0);
      i >= 0 && TreeAt(now, r).children[i + 1].kind != MappingKind
    ensures Write(root, p, v, m).None? && TreeAt(now, r).children != []
  {
  }

  lemma PendingStuck(root: Tree, now: Tree, r: Route, p: Path, rest: Path, v: Tree, m: Mode)
    requires |p| > 0 && |rest| > 1 && Pending(root, now, r, p, rest, v, m) && !Creates(m)
    requires Position(TreeAt(now, r).children, rest[0], 0) < 0
    ensures Write(root, p, v, m).None?
  {
  }

  lemma HoldsChild(sh: Shape, t: Tree, k: nat)
    requires Holds(sh, t) && k < |t.children|
    ensures |sh.children| == |t.children| == |sh.node.content| && sh.node.content[k] == sh.children[k].node
    ensures sh.children[k].node.kind == t.children[k].kind
    ensures sh.node.content[k] in Nodes(sh)
  {
    assert Holds(sh.children[k], t.children[k]);
  }
}
