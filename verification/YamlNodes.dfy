/** YAML node graphs as the parser builds them: nodes on the heap, shared through aliases and possibly cyclic. */
module YamlNodes {

  datatype Kind = DocumentKind | MappingKind | SequenceKind | ScalarKind | AliasKind

  /** The value of a node with every alias replaced by what it stands for. */
  datatype Tree = Tree(kind: Kind, tag: string, value: string, children: seq<Tree>)

  /** Only content and anchors are ever reassigned; an alias may lead to a node it is itself part of. */
  class Node {
    const kind: Kind
    const tag: string
    const value: string
    const alias: Node?
    var anchor: string
    var content: seq<Node>

    constructor (kind: Kind, tag: string, value: string, content: seq<Node>)
      ensures this.kind == kind && this.tag == tag && this.value == value && this.content == content
      ensures anchor == "" && alias == null
    {
      this.kind, this.tag, this.value, this.content := kind, tag, value, content;
      anchor, alias := "", null;
    }

    constructor Alias(target: Node)
      ensures kind == AliasKind && alias == target && content == []
    {
      kind, tag, value, content := AliasKind, "", "", [];
      anchor, alias := "", target;
    }
  }

  ghost predicate Closed(g: set<Node>)
    reads g
  {
    forall n | n in g :: (forall i | 0 <= i < |n.content| :: n.content[i] in g) && (n.alias == null || n.alias in g)
  }

  /** The nodes an expansion of `n` goes through next. */
  function Next(n: Node): seq<Node>
    reads n
  {
    if n.kind != AliasKind then n.content else if n.alias == null then [] else [n.alias]
  }

  predicate Dangling(n: Node)
    reads n
  {
    n.kind == AliasKind && n.alias == null
  }

  // ---- What a node denotes ----

  /** Following aliases from `n` unfolds to `t` in at most `k` steps along any branch. */
  ghost predicate Denotes(n: Node, t: Tree, k: nat, g: set<Node>)
    requires Closed(g) && n in g
    reads g
    decreases k
  {
    && k > 0 && !Dangling(n)
    && if n.kind == AliasKind then Denotes(n.alias, t, k - 1, g)
       else
         && t.kind == n.kind && t.tag == n.tag && t.value == n.value && |t.children| == |n.content|
         && forall i | 0 <= i < |n.content| :: Denotes(n.content[i], t.children[i], k - 1, g)
  }

  lemma {:induction false} DenotesUnique(n: Node, t: Tree, k: nat, u: Tree, l: nat, g: set<Node>)
    requires Closed(g) && n in g && Denotes(n, t, k, g) && Denotes(n, u, l, g)
    ensures t == u
    decreases k
  {
    if n.kind == AliasKind {
      DenotesUnique(n.alias, t, k - 1, u, l - 1, g);
    } else {
      forall i | 0 <= i < |n.content| ensures t.children[i] == u.children[i] {
        DenotesUnique(n.content[i], t.children[i], k - 1, u.children[i], l - 1, g);
      }
    }
  }

  lemma {:induction false} DenotesDeeper(n: Node, t: Tree, k: nat, l: nat, g: set<Node>)
    requires Closed(g) && n in g && k <= l && Denotes(n, t, k, g)
    ensures Denotes(n, t, l, g)
    decreases k
  {
    if n.kind == AliasKind {
      DenotesDeeper(n.alias, t, k - 1, l - 1, g);
    } else {
      forall i | 0 <= i < |n.content| ensures Denotes(n.content[i], t.children[i], l - 1, g) {
        DenotesDeeper(n.content[i], t.children[i], k - 1, l - 1, g);
      }
    }
  }

  /** A denotation contains no alias: it is a plain tree. */
  predicate Plain(t: Tree) {
    t.kind != AliasKind && forall i | 0 <= i < |t.children| :: Plain(t.children[i])
  }

  lemma {:induction false} DenotesPlain(n: Node, t: Tree, k: nat, g: set<Node>)
    requires Closed(g) && n in g && Denotes(n, t, k, g)
    ensures Plain(t)
    decreases k
  {
    if n.kind == AliasKind {
      DenotesPlain(n.alias, t, k - 1, g);
    } else {
      forall i | 0 <= i < |n.content| ensures Plain(t.children[i]) {
        DenotesPlain(n.content[i], t.children[i], k - 1, g);
      }
    }
  }

  // ---- Why a node may denote nothing ----

  predicate IsPath(p: seq<Node>)
    reads p
  {
    forall i | 0 <= i < |p| - 1 :: p[i + 1] in Next(p[i])
  }

  /** A walk from `n` that ends at an alias to nothing, or returns to a node it (or the caller) came through. */
  ghost predicate Trap(n: Node, p: seq<Node>, back: Node?, visiting: set<Node>)
    reads p
  {
    && |p| > 0 && p[0] == n && IsPath(p)
    && (Dangling(p[|p| - 1]) || (back != null && back in Next(p[|p| - 1]) && (back in p || back in visiting)))
  }

  lemma {:induction false} StepsInside(p: seq<Node>, g: set<Node>)
    requires Closed(g) && |p| > 0 && p[0] in g && IsPath(p)
    ensures forall i | 0 <= i < |p| :: p[i] in g
  {
    if |p| > 1 {
      assert p[1] in Next(p[0]);
      StepsInside(p[1..], g);
      assert forall i | 1 <= i < |p| :: p[i] == p[1..][i - 1];
    }
  }

  /** Along a path the number of steps left shrinks by one at each node. */
  lemma {:induction false} DenotesAlong(p: seq<Node>, t: Tree, k: nat, g: set<Node>, j: nat) returns (u: Tree)
    requires Closed(g) && |p| > 0 && p[0] in g && IsPath(p) && Denotes(p[0], t, k, g) && j < |p|
    ensures j < k && p[j] in g && Denotes(p[j], u, k - j, g)
  {
    if j == 0 {
      u := t;
    } else {
      var q := p[1..];
      assert p[1] in Next(p[0]);
      assert forall i | 0 <= i < |q| - 1 :: q[i + 1] in Next(q[i]) by {
        forall i | 0 <= i < |q| - 1 ensures q[i + 1] in Next(q[i]) { assert p[i + 2] in Next(p[i + 1]); }
      }
      if p[0].kind == AliasKind {
        u := DenotesAlong(q, t, k - 1, g, j - 1);
      } else {
        var i :| 0 <= i < |p[0].content| && p[0].content[i] == p[1];
        u := DenotesAlong(q, t.children[i], k - 1, g, j - 1);
      }
    }
  }

  /** A node that can be walked back to from itself denotes nothing. */
  lemma {:induction false} NoWayBack(c: seq<Node>, t: Tree, k: nat, g: set<Node>)
    requires Closed(g) && |c| > 1 && c[0] in g && IsPath(c) && c[|c| - 1] == c[0]
    ensures !Denotes(c[0], t, k, g)
    decreases k
  {
    if Denotes(c[0], t, k, g) {
      var u := DenotesAlong(c, t, k, g, |c| - 1);
      NoWayBack(c, u, k - (|c| - 1), g);
    }
  }

  /** A trapped node has no denotation at all. */
  lemma TrappedDenotesNothing(n: Node, p: seq<Node>, back: Node?, t: Tree, k: nat, g: set<Node>)
    requires Closed(g) && n in g && Trap(n, p, back, {})
    ensures !Denotes(n, t, k, g)
  {
    if Denotes(n, t, k, g) {
      var end := |p| - 1;
      var u := DenotesAlong(p, t, k, g, end);
      if !Dangling(p[end]) {
        var i :| 0 <= i < |p| && p[i] == back;
        var c := p[i..] + [back];
        assert IsPath(c) by {
          forall j | 0 <= j < |c| - 1 ensures c[j + 1] in Next(c[j]) {
            if j < |c| - 2 { assert p[i + j + 1] in Next(p[i + j]); }
          }
        }
        var w := DenotesAlong(p, t, k, g, i);
        NoWayBack(c, w, k - i, g);
      }
    }
  }
}
