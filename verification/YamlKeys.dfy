/** The duplicate-key check, a depth-first walk that visits every node of a graph once. */
module YamlKeys {
  import opened Collections
  import opened Options
  import opened YamlNodes
  import opened YamlClone

  /** The typed identifier of a scalar key, when it can be decoded. */
  type Identify = (string, string) -> Option<string>

  function Identifier(key: Node, identify: Identify): Option<string>
    reads key
  {
    identify(key.tag, key.value)
  }

  /** Where the walk goes: mapping keys are looked at but not entered. */
  function Walked(n: Node): seq<Node>
    reads n
  {
    match n.kind
    case MappingKind => seq(|n.content| / 2, i requires 0 <= i < |n.content| / 2 reads n => n.content[2 * i + 1])
    case ScalarKind => []
    case AliasKind => if n.alias == null then [] else [n.alias]
    case _ => n.content
  }

  /** Scalar keys only, and no identifier twice. */
  ghost predicate DistinctKeys(n: Node, upTo: nat, identify: Identify)
    requires 2 * upTo <= |n.content|
    reads n, n.content
  {
    && (forall i | 0 <= i < upTo :: n.content[2 * i].kind == ScalarKind && Identifier(n.content[2 * i], identify).Some?)
    && (forall i, j | 0 <= i < j < upTo ::
      Identifier(n.content[2 * i], identify) != Identifier(n.content[2 * j], identify))
  }

  ghost predicate GoodNode(n: Node, identify: Identify)
    reads n, n.content
  {
    n.kind == MappingKind ==> DistinctKeys(n, |n.content| / 2, identify)
  }

  predicate IsWalk(p: seq<Node>)
    reads p
  {
    forall i | 0 <= i < |p| - 1 :: p[i + 1] in Walked(p[i])
  }

  /** A walk from `n` to a mapping that breaks the rules. */
  ghost predicate Leads(n: Node, p: seq<Node>, identify: Identify, g: set<Node>)
    requires Closed(g)
    reads g
  {
    && |p| > 0 && p[0] == n && (forall i | 0 <= i < |p| :: p[i] in g)
    && IsWalk(p) && !GoodNode(p[|p| - 1], identify)
  }

  /** Everything found since `before` is in order and leads only to what has been found. */
  ghost predicate Explored(before: set<Node>, found: set<Node>, identify: Identify, g: set<Node>)
    requires Closed(g)
    reads g
  {
    && before <= found <= g
    && forall n | n in found - before ::
      GoodNode(n, identify) && forall i | 0 <= i < |Walked(n)| :: Walked(n)[i] in found
  }

  lemma WalkedInside(n: Node, g: set<Node>)
    requires Closed(g) && n in g
    ensures forall i | 0 <= i < |Walked(n)| :: Walked(n)[i] in g
  {
  }

  lemma LeadsFrom(n: Node, p: seq<Node>, identify: Identify, g: set<Node>)
    requires Closed(g) && n in g && |p| > 0 && p[0] in Walked(n) && Leads(p[0], p, identify, g)
    ensures Leads(n, [n] + p, identify, g)
  {
    var q := [n] + p;
    forall i | 0 <= i < |q| - 1 ensures q[i + 1] in Walked(q[i]) {
      if i > 0 { assert p[i] in Walked(p[i - 1]); }
    }
  }

  lemma ExploredMore(v0: set<Node>, v1: set<Node>, v2: set<Node>, identify: Identify, g: set<Node>)
    requires Closed(g) && Explored(v0, v1, identify, g) && Explored(v1, v2, identify, g)
    ensures Explored(v0, v2, identify, g)
  {
  }

  lemma ExploredNone(visited: set<Node>, identify: Identify, g: set<Node>)
    requires Closed(g) && visited <= g
    ensures Explored(visited, visited, identify, g)
  {
  }

  lemma ExploredBounds(before: set<Node>, found: set<Node>, identify: Identify, g: set<Node>)
    requires Closed(g) && Explored(before, found, identify, g)
    ensures before <= found <= g
  {
  }

  lemma WalkedValues(node: Node)
    requires node.kind == MappingKind
    ensures |Walked(node)| == |node.content| / 2
    ensures forall i | 0 <= i < |Walked(node)| :: Walked(node)[i] == node.content[2 * i + 1]
  {
  }

  method ValidateUniqueKeys(node: Node?, visited: set<Node>, identify: Identify, ghost g: set<Node>)
    returns (ok: bool, found: set<Node>, ghost bad: seq<Node>)
    requires Closed(g) && (node != null ==> node in g) && visited <= g
    ensures ok ==> Explored(visited, found, identify, g) && (node != null ==> node in found)
    ensures !ok ==> node != null && Leads(node, bad, identify, g)
    decreases |g - visited|, 1
  {
    found, bad, ok := visited, [], true;
    if node == null || node in visited { return; }
    hide Leads, GoodNode;
    var inner := visited + {node};
    SmallerSet(g - inner, g - visited, node);
    WalkedInside(node, g);
    match node.kind {
      case MappingKind => ok, found, bad := ValidateMapping(node, inner, identify, g);
      case ScalarKind => found := inner;
      case AliasKind => ok, found, bad := ValidateUniqueKeys(node.alias, inner, identify, g);
      case _ => ok, found, bad := ValidateAll(node, inner, identify, g);
    }
    if !ok && node.kind == AliasKind { LeadsFrom(node, bad, identify, g); bad := [node] + bad; }
  }

  method ValidateMapping(node: Node, visited: set<Node>, identify: Identify, ghost g: set<Node>)
    returns (ok: bool, found: set<Node>, ghost bad: seq<Node>)
    requires Closed(g) && node in visited && visited <= g && node.kind == MappingKind
    ensures ok ==> Explored(visited, found, identify, g) && GoodNode(node, identify)
    ensures ok ==> forall i | 0 <= i < |Walked(node)| :: Walked(node)[i] in found
    ensures !ok ==> Leads(node, bad, identify, g)
    decreases |g - visited|, 2
  {
    hide Leads, GoodNode, DistinctKeys, SeenKeys, Explored, Walked;
    NoKeys(node, identify);
    ExploredNone(visited, identify, g);
    WalkedValues(node);
    found, bad, ok := visited, [], true;
    var seen: set<string> := {};
    var i := 0;
    while 2 * i + 1 < |node.content|
      invariant 0 <= 2 * i <= |node.content|
      invariant SeenKeys(node, i, seen, identify)
      invariant Explored(visited, found, identify, g)
      invariant forall j | 0 <= j < i :: node.content[2 * j + 1] in found
    {
      var key := node.content[2 * i];
      if key.kind != ScalarKind { KeyBreaks(node, i, seen, identify, g); return false, found, [node]; }
      var identifier := Identifier(key, identify);
      if identifier.None? { KeyBreaks(node, i, seen, identify, g); return false, found, [node]; }
      if identifier.value in seen { KeyBreaks(node, i, seen, identify, g); return false, found, [node]; }
      KeyFits(node, i, seen, identify);
      seen := seen + {identifier.value};
      ghost var before := found;
      ExploredBounds(visited, found, identify, g);
      SubsetSize(g - found, g - visited);
      ok, found, bad := ValidateUniqueKeys(node.content[2 * i + 1], found, identify, g);
      if !ok {
        LeadsStarts(node.content[2 * i + 1], bad, identify, g);
        assert Walked(node)[i] == bad[0];
        LeadsFrom(node, bad, identify, g);
        bad := [node] + bad;
        return;
      }
      ExploredBounds(before, found, identify, g);
      ExploredMore(visited, before, found, identify, g);
      i := i + 1;
    }
    KeysDone(node, i, seen, identify);
  }

  method ValidateAll(node: Node, visited: set<Node>, identify: Identify, ghost g: set<Node>)
    returns (ok: bool, found: set<Node>, ghost bad: seq<Node>)
    requires Closed(g) && node in visited && visited <= g && (node.kind == DocumentKind || node.kind == SequenceKind)
    ensures ok ==> Explored(visited, found, identify, g)
    ensures ok ==> forall i | 0 <= i < |Walked(node)| :: Walked(node)[i] in found
    ensures !ok ==> Leads(node, bad, identify, g)
    decreases |g - visited|, 2
  {
    hide Leads;
    found, bad, ok := visited, [], true;
    var i := 0;
    while i < |node.content|
      invariant 0 <= i <= |node.content|
      invariant Explored(visited, found, identify, g)
      invariant forall j | 0 <= j < i :: node.content[j] in found
    {
      ghost var before := found;
      SubsetSize(g - found, g - visited);
      ok, found, bad := ValidateUniqueKeys(node.content[i], found, identify, g);
      if !ok {
        LeadsStarts(node.content[i], bad, identify, g);
        assert Walked(node)[i] == bad[0];
        LeadsFrom(node, bad, identify, g);
        bad := [node] + bad;
        return;
      }
      ExploredMore(visited, before, found, identify, g);
      i := i + 1;
    }
  }

  lemma LeadsStarts(n: Node, p: seq<Node>, identify: Identify, g: set<Node>)
    requires Closed(g) && Leads(n, p, identify, g)
    ensures |p| > 0 && p[0] == n
  {
  }

  /** The first `i` keys of a mapping are in order, and `seen` holds their identifiers. */
  ghost predicate SeenKeys(node: Node, i: nat, seen: set<string>, identify: Identify)
    reads node, node.content
  {
    && 2 * i <= |node.content| && DistinctKeys(node, i, identify)
    && forall k :: k in seen <==> exists j | 0 <= j < i :: Identifier(node.content[2 * j], identify) == Some(k)
  }

  lemma NoKeys(node: Node, identify: Identify)
    ensures SeenKeys(node, 0, {}, identify)
  {
  }

  lemma KeyFits(node: Node, i: nat, seen: set<string>, identify: Identify)
    requires SeenKeys(node, i, seen, identify) && 2 * i + 1 < |node.content|
    requires var k := Identifier(node.content[2 * i], identify);
      node.content[2 * i].kind == ScalarKind && k.Some? && k.value !in seen
    ensures SeenKeys(node, i + 1, seen + {Identifier(node.content[2 * i], identify).value}, identify)
  {
    forall j | 0 <= j < i ensures Identifier(node.content[2 * j], identify).value in seen {
      assert Identifier(node.content[2 * j], identify) == Some(Identifier(node.content[2 * j], identify).value);
    }
  }

  lemma KeysDone(node: Node, i: nat, seen: set<string>, identify: Identify)
    requires SeenKeys(node, i, seen, identify) && 2 * i + 1 >= |node.content|
    ensures GoodNode(node, identify)
  {
  }

  lemma KeyBreaks(node: Node, i: nat, seen: set<string>, identify: Identify, g: set<Node>)
    requires Closed(g) && node in g && node.kind == MappingKind && 2 * i + 1 < |node.content|
    requires SeenKeys(node, i, seen, identify)
    requires var k := Identifier(node.content[2 * i], identify);
      node.content[2 * i].kind != ScalarKind || k.None? || k.value in seen
    ensures Leads(node, [node], identify, g)
  {
  }

  // ---- Exactness ----

  /** A walk that starts in a fully explored set stays in it and meets only well-formed nodes. */
  lemma {:induction false} ExploredWalk(p: seq<Node>, found: set<Node>, identify: Identify, g: set<Node>)
    requires Closed(g) && Explored({}, found, identify, g) && |p| > 0 && p[0] in found && IsWalk(p)
    ensures p[|p| - 1] in found && GoodNode(p[|p| - 1], identify)
  {
    if |p| > 1 {
      assert p[1] in Walked(p[0]);
      forall i | 0 <= i < |p[1..]| - 1
        ensures p[1..][i + 1] in Walked(p[1..][i])
      {
        assert p[i + 2] in Walked(p[i + 1]);
      }
      ExploredWalk(p[1..], found, identify, g);
    }
  }

  /**
   The check is exact on any graph, shared or cyclic: it accepts just when every mapping that can
   be walked to has scalar keys with pairwise distinct identifiers.
   */
  method CheckDocument(document: Node, identify: Identify, ghost g: set<Node>) returns (ok: bool)
    requires Closed(g) && document in g
    ensures ok <==> forall p: seq<Node> :: !Leads(document, p, identify, g)
  {
    var found: set<Node>;
    ghost var bad: seq<Node>;
    ok, found, bad := ValidateUniqueKeys(document, {}, identify, g);
    if ok {
      forall p: seq<Node> ensures !Leads(document, p, identify, g) {
        if Leads(document, p, identify, g) { ExploredWalk(p, found, identify, g); }
      }
    }
  }
}
