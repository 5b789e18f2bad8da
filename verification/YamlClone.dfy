/** Alias expansion: a fresh, alias-free copy of a node graph, or a refusal when there is a cycle. */
module YamlClone {
  import opened Collections
  import opened YamlNodes

  /** Where the nodes of a plain tree live: one node per position, none shared. */
  datatype Shape = Shape(node: Node, children: seq<Shape>)

  ghost function Nodes(sh: Shape): (r: set<Node>)
  {
    {sh.node} + set i, m | 0 <= i < |sh.children| && m in Nodes(sh.children[i]) :: m
  }

  ghost predicate Apart(shs: seq<Shape>) {
    forall i, j | 0 <= i < j < |shs| :: Nodes(shs[i]) !! Nodes(shs[j])
  }

  /** The heap holds exactly the tree `t` in this shape: no alias, no sharing. */
  ghost predicate Holds(sh: Shape, t: Tree)
    reads Nodes(sh)
    decreases sh
  {
    && sh.node.kind == t.kind != AliasKind && sh.node.tag == t.tag && sh.node.value == t.value && sh.node.alias == null
    && |sh.node.content| == |sh.children| == |t.children|
    && Apart(sh.children)
    && forall i | 0 <= i < |sh.children| ::
      && sh.node.content[i] == sh.children[i].node
      && sh.node !in Nodes(sh.children[i])
      && Holds(sh.children[i], t.children[i])
  }

  ghost predicate Bare(sh: Shape)
    reads Nodes(sh)
  {
    sh.node.anchor == "" && forall i | 0 <= i < |sh.children| :: Bare(sh.children[i])
  }

  /**
   Copies the expansion of a node. Success yields a fresh alias-free tree of the same value; a
   refusal names a walk that returns to itself or runs into an alias to nothing.
   */
  method CloneBindingNode(node: Node, visiting: set<Node>, ghost g: set<Node>)
    returns (copy: Node?, ghost sh: Shape, ghost t: Tree, ghost depth: nat, ghost trap: seq<Node>, ghost back: Node?)
    requires Closed(g) && node in g && visiting <= g && node !in visiting
    ensures copy != null ==>
      && sh.node == copy && fresh(Nodes(sh)) && Holds(sh, t) && Bare(sh)
      && Denotes(node, t, depth, g)
    ensures copy == null ==> |trap| > 0 && trap[0] == node && Trap(node, trap, back, visiting)
    decreases |g - visiting|
  {
    hide Denotes, Trap, Holds, Bare, Nodes;
    var inner := visiting + {node};
    SmallerSet(g - inner, g - visiting, node);
    sh, t, depth, trap, back := Shape(node, []), Tree(node.kind, "", "", []), 0, [node], null;
    if node.kind == AliasKind {
      if node.alias == null || node.alias in inner { TrapHere(node, node.alias, visiting); }
      if node.alias == null { return null, sh, t, 0, [node], null; }
      if node.alias in inner { return null, sh, t, 0, [node], node.alias; }
      copy, sh, t, depth, trap, back := CloneBindingNode(node.alias, inner, g);
      if copy == null {
        TrapFrom(node, trap, back, visiting);
        trap := [node] + trap;
      } else {
        DenotesAlias(node, t, depth, g);
        depth := depth + 1;
      }
      return;
    }
    var content: seq<Node> := [];
    ghost var shs: seq<Shape>, ts: seq<Tree>, made: set<Node> := [], [], {};
    var i := 0;
    while i < |node.content|
      invariant 0 <= i <= |node.content| && |content| == |shs| == |ts| == i
      invariant fresh(made)
      invariant forall j | 0 <= j < i :: Nodes(shs[j]) <= made && shs[j].node == content[j]
      invariant forall j | 0 <= j < i :: Holds(shs[j], ts[j]) && Bare(shs[j])
      invariant Apart(shs)
      invariant forall j | 0 <= j < i :: Denotes(node.content[j], ts[j], depth, g)
    {
      var child := node.content[i];
      if child in inner { TrapHere(node, child, visiting); }
      if child in inner { return null, sh, t, 0, [node], child; }
      ghost var d;
      label before:
      copy, sh, t, d, trap, back := CloneBindingNode(child, inner, g);
      if copy == null {
        TrapFrom(node, trap, back, visiting);
        trap := [node] + trap;
        return;
      }
      DenotesMore(node, ts, depth, t, d, g);
      depth := depth + d;
      ApartMore(shs, sh, made);
      forall j | 0 <= j < i ensures Holds(shs[j], ts[j]) && Bare(shs[j]) {
        assert old@before(Holds(shs[j], ts[j]) && Bare(shs[j]));
      }
      content, shs, ts, made := content + [copy], shs + [sh], ts + [t], made + Nodes(sh);
      i := i + 1;
    }
    DenotesContent(node, ts, depth, g);
    copy := new Node(node.kind, node.tag, node.value, content);
    sh, t := Shape(copy, shs), Tree(node.kind, node.tag, node.value, ts);
    NodesOver(sh, made);
    HoldsAbove(sh, t);
    depth := depth + 1;
  }

  lemma TrapHere(node: Node, back: Node?, visiting: set<Node>)
    requires Dangling(node) || (back != null && back in Next(node) && back in visiting + {node})
    ensures Trap(node, [node], if Dangling(node) then null else back, visiting)
  {
  }

  lemma DenotesAlias(node: Node, t: Tree, depth: nat, g: set<Node>)
    requires Closed(g) && node in g && node.kind == AliasKind && node.alias != null && Denotes(node.alias, t, depth, g)
    ensures Denotes(node, t, depth + 1, g)
  {
  }

  lemma DenotesContent(node: Node, ts: seq<Tree>, depth: nat, g: set<Node>)
    requires Closed(g) && node in g && node.kind != AliasKind && |ts| == |node.content|
    requires forall j | 0 <= j < |ts| :: Denotes(node.content[j], ts[j], depth, g)
    ensures Denotes(node, Tree(node.kind, node.tag, node.value, ts), depth + 1, g)
  {
  }

  lemma DenotesMore(node: Node, ts: seq<Tree>, depth: nat, t: Tree, d: nat, g: set<Node>)
    requires Closed(g) && node in g && |ts| < |node.content|
    requires forall j | 0 <= j < |ts| :: Denotes(node.content[j], ts[j], depth, g)
    requires Denotes(node.content[|ts|], t, d, g)
    ensures forall j | 0 <= j <= |ts| :: Denotes(node.content[j], (ts + [t])[j], depth + d, g)
  {
    forall j | 0 <= j <= |ts| ensures Denotes(node.content[j], (ts + [t])[j], depth + d, g) {
      DenotesDeeper(node.content[j], (ts + [t])[j], if j < |ts| then depth else d, depth + d, g);
    }
  }

  lemma HoldsAbove(sh: Shape, t: Tree)
    requires sh.node.kind == t.kind != AliasKind && sh.node.tag == t.tag && sh.node.value == t.value
    requires sh.node.alias == null && sh.node.anchor == ""
    requires |sh.node.content| == |sh.children| == |t.children| && Apart(sh.children)
    requires forall i | 0 <= i < |sh.children| ::
      sh.node.content[i] == sh.children[i].node && sh.node !in Nodes(sh.children[i])
    requires forall i | 0 <= i < |sh.children| :: Holds(sh.children[i], t.children[i]) && Bare(sh.children[i])
    ensures Holds(sh, t) && Bare(sh)
  {
  }

  lemma NodesOver(sh: Shape, made: set<Node>)
    requires forall j | 0 <= j < |sh.children| :: Nodes(sh.children[j]) <= made
    ensures Nodes(sh) <= made + {sh.node}
  {
  }

  lemma ApartMore(shs: seq<Shape>, sh: Shape, made: set<Node>)
    requires Apart(shs) && (forall j | 0 <= j < |shs| :: Nodes(shs[j]) <= made) && made !! Nodes(sh)
    ensures Apart(shs + [sh])
  {
  }

  /** A trap of a child, entered through its parent, is a trap of the parent. */
  lemma TrapFrom(node: Node, p: seq<Node>, back: Node?, visiting: set<Node>)
    requires |p| > 0 && p[0] in Next(node) && Trap(p[0], p, back, visiting + {node})
    ensures Trap(node, [node] + p, back, visiting)
  {
    var q := [node] + p;
    assert IsPath(q) by {
      forall i | 0 <= i < |q| - 1 ensures q[i + 1] in Next(q[i]) {
        if i > 0 { assert p[i] in Next(p[i - 1]); }
      }
    }
    assert forall m | m in p :: m in q;
    assert q[0] in q && q[|q| - 1] == p[|p| - 1];
  }

  /** Expansion is exact: it succeeds just when no cycle and no alias to nothing can be reached, and keeps the value. */
  method ExpandNode(node: Node, ghost g: set<Node>) returns (copy: Node?, ghost sh: Shape, ghost t: Tree)
    requires Closed(g) && node in g
    ensures copy != null <==> forall p: seq<Node>, back: Node? :: !Trap(node, p, back, {})
    ensures copy != null <==> exists u, k :: Denotes(node, u, k, g)
    ensures copy != null ==> sh.node == copy && fresh(Nodes(sh)) && Holds(sh, t) && Bare(sh) && Plain(t)
    ensures copy != null ==> forall u, k | Denotes(node, u, k, g) :: u == t
  {
    hide Denotes, Trap;
    ghost var depth, trap, back;
    copy, sh, t, depth, trap, back := CloneBindingNode(node, {}, g);
    if copy != null {
      forall p: seq<Node>, b: Node? ensures !Trap(node, p, b, {}) {
        if Trap(node, p, b, {}) { TrappedDenotesNothing(node, p, b, t, depth, g); }
      }
      forall u, k | Denotes(node, u, k, g) ensures u == t {
        DenotesUnique(node, u, k, t, depth, g);
      }
      DenotesPlain(node, t, depth, g);
    } else {
      forall u, k ensures !Denotes(node, u, k, g) {
        TrappedDenotesNothing(node, trap, back, u, k, g);
      }
    }
  }

  ghost function Height(t: Tree): (h: nat)
    ensures h > 0
  {
    1 + MaxHeight(t.children)
  }

  ghost function MaxHeight(ts: seq<Tree>): (h: nat)
    ensures forall i | 0 <= i < |ts| :: Height(ts[i]) <= h
  {
    if ts == [] then 0 else
      assert forall i | 0 < i < |ts| :: ts[i] == ts[1..][i - 1];
      var h, rest := Height(ts[0]), MaxHeight(ts[1..]);
      if h > rest then h else rest
  }

  /** A node that already is a plain tree denotes that tree, so that its copy has the same value. */
  lemma {:induction false} HoldsDenotes(sh: Shape, t: Tree, g: set<Node>)
    requires Closed(g) && Nodes(sh) <= g && Holds(sh, t)
    ensures Denotes(sh.node, t, Height(t), g)
    decreases sh
  {
    forall i | 0 <= i < |sh.children| ensures Denotes(sh.node.content[i], t.children[i], Height(t) - 1, g) {
      HoldsDenotes(sh.children[i], t.children[i], g);
      DenotesDeeper(sh.node.content[i], t.children[i], Height(t.children[i]), Height(t) - 1, g);
    }
  }
}
