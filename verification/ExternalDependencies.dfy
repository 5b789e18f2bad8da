/** Finding the external Consul clients of a materialized application by walking its node graph. */
module ExternalDependencies {
  import opened Collections
  import opened Options
  import opened YamlNodes
  import opened YamlClone
  import opened YamlPaths

  datatype Dependency = Dependency(owner: string, path: string, host: string, port: int, key: string)

  /** Whose application it is, which paths are routed locally, and how scalars are read. */
  datatype Site = Site(owner: string, kind: string, localRoutes: set<string>, decoder: Decoder,
    trim: string -> string, port: (string, string) -> Option<int>, ordinal: nat -> string)

  // ---- One mapping ----

  /** The value of a string key, one alias followed. */
  function MappingValueFrom(m: Node, key: string, i: nat): (v: Node?)
    reads m, m.content
    decreases |m.content| - i
  {
    if 2 * i + 1 >= |m.content| then null
    else
      var k, v := m.content[2 * i], m.content[2 * i + 1];
      if k.kind == ScalarKind && k.tag == "!!str" && k.value == key then
        if v.kind == AliasKind then v.alias else v
      else MappingValueFrom(m, key, i + 1)
  }

  ghost function ValueUnder(m: Node?, key: string, g: set<Node>): Node?
    requires Closed(g) && (m != null ==> m in g)
    reads g
    ensures ValueUnder(m, key, g) != null ==> ValueUnder(m, key, g) in g
  {
    if m == null || m.kind != MappingKind then null
    else
      ValueFromInside(m, key, 0, g);
      MappingValueFrom(m, key, 0)
  }

  lemma {:induction false} ValueFromInside(m: Node, key: string, i: nat, g: set<Node>)
    requires Closed(g) && m in g
    ensures MappingValueFrom(m, key, i) != null ==> MappingValueFrom(m, key, i) in g
    decreases |m.content| - i
  {
    if 2 * i + 1 < |m.content| {
      assert m.content[2 * i + 1] in g;
      ValueFromInside(m, key, i + 1, g);
    }
  }

  function StringValue(n: Node?): string
    reads if n == null then {} else {n}
  {
    if n == null || n.kind != ScalarKind || n.tag != "!!str" then "" else n.value
  }

  predicate TagAllowed(n: Node)
    reads n
  {
    match n.kind
    case MappingKind => n.tag == "!!map"
    case SequenceKind => n.tag == "!!seq"
    case ScalarKind => n.tag in {"!!str", "!!int", "!!bool", "!!float", "!!null", "!!timestamp"}
    case _ => false
  }

  /** Scalar string or integer keys, no merge key, no identifier and no text twice. */
  ghost predicate KeysAllowed(n: Node, upTo: nat, d: Decoder, g: set<Node>)
    requires Closed(g) && n in g && 2 * upTo <= |n.content|
    reads g
  {
    && (forall i | 0 <= i < upTo :: KeyAllowed(n.content[2 * i], d))
    && (forall i, j | 0 <= i < j < upTo ::
          && d.identify(n.content[2 * i].tag, n.content[2 * i].value) !=
            d.identify(n.content[2 * j].tag, n.content[2 * j].value)
          && d.text(n.content[2 * i].tag, n.content[2 * i].value) !=
            d.text(n.content[2 * j].tag, n.content[2 * j].value))
  }

  predicate KeyAllowed(key: Node, d: Decoder)
    reads key
  {
    && key.kind == ScalarKind && key.value != "<<" && (key.tag == "!!str" || key.tag == "!!int")
    && d.identify(key.tag, key.value).Some? && d.text(key.tag, key.value).Some?
  }

  /** The dependency a mapping stands for: none, one, or an error. */
  ghost function OwnEntry(n: Node, path: string, site: Site, g: set<Node>): Option<seq<Dependency>>
    requires Closed(g) && n in g
    reads g
  {
    if StringValue(ValueUnder(n, "discovType", g)) != "consul" then Some([])
    else if path == "" && (site.kind == "rpc" || site.kind == "http") then None
    else if path in site.localRoutes then None
    else
      var consul := ValueUnder(n, "consul", g);
      if consul == null || consul.kind != MappingKind then None
      else
        var host := site.trim(StringValue(ValueUnder(consul, "host", g)));
        var port := PortOf(ValueUnder(consul, "port", g), site);
        var key := site.trim(StringValue(ValueUnder(consul, "key", g)));
        if host == "" || port.None? || key == "" then None
        else Some([Dependency(site.owner, path, host, port.value, key)])
  }

  function PortOf(n: Node?, site: Site): Option<int>
    reads if n == null then {} else {n}
  {
    if n == null || n.kind != ScalarKind then None
    else
      var port := site.port(n.tag, n.value);
      if port.Some? && 1 <= port.value <= 65535 then port else None
  }

  function ChildPath(path: string, key: string): string {
    if path == "" then key else path + "." + key
  }

  function ItemPath(path: string, i: nat, site: Site): string {
    path + "[" + site.ordinal(i) + "]"
  }

  // ---- The list a document unfolds to ----

  /**
   The dependencies along every unfolded path below `n`, in preorder: aliases are followed, a shared
   node counts once for every path to it, and `k` bounds the depth. None stands for an error.
   */
  ghost function Unfolded(n: Node, path: string, k: nat, site: Site, g: set<Node>): Option<seq<Dependency>>
    requires Closed(g) && n in g
    reads g
    decreases k, 1, 0
  {
    if k == 0 then None
    else if n.kind == AliasKind then
      if n.alias == null then Some([]) else Unfolded(n.alias, path, k - 1, site, g)
    else if !TagAllowed(n) then None
    else if n.kind == MappingKind then
      if !KeysAllowed(n, |n.content| / 2, site.decoder, g) then None
      else Joined(OwnEntry(n, path, site, g), UnfoldedBelow(n, 0, path, k, site, g))
    else if n.kind == SequenceKind then UnfoldedBelow(n, 0, path, k, site, g)
    else Some([])
  }

  function Joined(a: Option<seq<Dependency>>, b: Option<seq<Dependency>>): Option<seq<Dependency>> {
    if a.None? || b.None? then None else Some(a.value + b.value)
  }

  function Width(n: Node): nat
    reads n
  {
    if n.kind == MappingKind then |n.content| / 2 else |n.content|
  }

  function Child(n: Node, i: nat): Node
    requires i < Width(n)
    reads n
  {
    if n.kind == MappingKind then n.content[2 * i + 1] else n.content[i]
  }

  function PathOf(n: Node, i: nat, path: string, site: Site): string
    requires i < Width(n)
    reads n, n.content
  {
    if n.kind == MappingKind then ChildPath(path, n.content[2 * i].value) else ItemPath(path, i, site)
  }

  ghost function UnfoldedBelow(n: Node, i: nat, path: string, k: nat, site: Site, g: set<Node>): Option<seq<Dependency>>
    requires Closed(g) && n in g && i <= Width(n) && k > 0
    reads g
    decreases k, 0, |n.content| - i
  {
    if i == Width(n) then Some([])
    else Joined(Unfolded(Child(n, i), PathOf(n, i, path, site), k - 1, site, g),
      UnfoldedBelow(n, i + 1, path, k, site, g))
  }

  lemma {:induction false} UnfoldedDeeper(n: Node, path: string, k: nat, l: nat, site: Site, g: set<Node>)
    requires Closed(g) && n in g && k <= l && Unfolded(n, path, k, site, g).Some?
    ensures Unfolded(n, path, l, site, g) == Unfolded(n, path, k, site, g)
    decreases k, 1, 0
  {
    if n.kind == AliasKind {
      if n.alias != null { UnfoldedDeeper(n.alias, path, k - 1, l - 1, site, g); }
    } else if n.kind == MappingKind || n.kind == SequenceKind {
      BelowDeeper(n, 0, path, k, l, site, g);
    }
  }

  lemma {:induction false} BelowDeeper(n: Node, i: nat, path: string, k: nat, l: nat, site: Site, g: set<Node>)
    requires Closed(g) && n in g && i <= Width(n) && 0 < k <= l && UnfoldedBelow(n, i, path, k, site, g).Some?
    ensures UnfoldedBelow(n, i, path, l, site, g) == UnfoldedBelow(n, i, path, k, site, g)
    decreases k, 0, |n.content| - i
  {
    if i < Width(n) {
      UnfoldedDeeper(Child(n, i), PathOf(n, i, path, site), k - 1, l - 1, site, g);
      BelowDeeper(n, i + 1, path, k, l, site, g);
    }
  }

  /** Any two depths that suffice give the same list. */
  lemma UnfoldedUnique(n: Node, path: string, k: nat, l: nat, site: Site, g: set<Node>)
    requires Closed(g) && n in g && Unfolded(n, path, k, site, g).Some? && Unfolded(n, path, l, site, g).Some?
    ensures Unfolded(n, path, k, site, g) == Unfolded(n, path, l, site, g)
  {
    UnfoldedDeeper(n, path, if k <= l then k else l, if k <= l then l else k, site, g);
  }

  // ---- Cycles ----

  /** One step of the walk: to the target of an alias, or to a value or item. */
  predicate StepsTo(n: Node, m: Node)
    reads n
  {
    if n.kind == AliasKind then n.alias == m
    else (n.kind == MappingKind || n.kind == SequenceKind) && exists i | 0 <= i < Width(n) :: Child(n, i) == m
  }

  predicate IsTrail(p: seq<Node>)
    reads p
  {
    forall i | 0 <= i < |p| - 1 :: StepsTo(p[i], p[i + 1])
  }

  lemma UnfoldedStep(n: Node, path: string, k: nat, site: Site, g: set<Node>, m: Node) returns (q: string)
    requires Closed(g) && n in g && Unfolded(n, path, k, site, g).Some? && StepsTo(n, m)
    ensures k > 0 && m in g && Unfolded(m, q, k - 1, site, g).Some?
  {
    if n.kind == AliasKind {
      q := path;
    } else {
      var i :| 0 <= i < Width(n) && Child(n, i) == m;
      q := PathOf(n, i, path, site);
      BelowPart(n, 0, i, path, k, site, g);
    }
  }

  lemma {:induction false} BelowPart(n: Node, i: nat, j: nat, path: string, k: nat, site: Site, g: set<Node>)
    requires Closed(g) && n in g && i <= j < Width(n) && k > 0 && UnfoldedBelow(n, i, path, k, site, g).Some?
    ensures Unfolded(Child(n, j), PathOf(n, j, path, site), k - 1, site, g).Some?
    decreases j - i
  {
    if i < j { BelowPart(n, i + 1, j, path, k, site, g); }
  }

  lemma {:induction false} UnfoldedAlong(p: seq<Node>, path: string, k: nat, site: Site, g: set<Node>)
    returns (q: string)
    requires Closed(g) && |p| > 0 && p[0] in g && IsTrail(p) && Unfolded(p[0], path, k, site, g).Some?
    ensures |p| - 1 <= k && p[|p| - 1] in g && Unfolded(p[|p| - 1], q, k - (|p| - 1), site, g).Some?
  {
    if |p| == 1 {
      q := path;
    } else {
      assert StepsTo(p[0], p[1]);
      q := UnfoldedStep(p[0], path, k, site, g, p[1]);
      forall i | 0 <= i < |p[1..]| - 1 ensures StepsTo(p[1..][i], p[1..][i + 1]) { assert StepsTo(p[i + 1], p[i + 2]); }
      q := UnfoldedAlong(p[1..], q, k - 1, site, g);
    }
  }

  /** A node the walk can return to has no list, however deep. */
  lemma {:induction false} CyclesHaveNoList(c: seq<Node>, path: string, k: nat, site: Site, g: set<Node>)
    requires Closed(g) && |c| > 1 && c[0] in g && IsTrail(c) && c[|c| - 1] == c[0]
    ensures Unfolded(c[0], path, k, site, g).None?
    decreases k
  {
    if Unfolded(c[0], path, k, site, g).Some? {
      var q := UnfoldedAlong(c, path, k, site, g);
      CyclesHaveNoList(c, q, k - (|c| - 1), site, g);
    }
  }

  /** A node found on the stack of the walk that led to it has no list. */
  lemma OnStackHasNoList(trail: seq<Node>, m: Node, path: string, k: nat, site: Site, g: set<Node>)
    requires Closed(g) && |trail| > 0 && m in trail && m in g && IsTrail(trail) && StepsTo(trail[|trail| - 1], m)
    ensures Unfolded(m, path, k, site, g).None?
  {
    var i :| 0 <= i < |trail| && trail[i] == m;
    var c := trail[i..] + [m];
    forall j | 0 <= j < |c| - 1 ensures StepsTo(c[j], c[j + 1]) {
      if j < |c| - 2 { assert StepsTo(trail[i + j], trail[i + j + 1]); }
    }
    CyclesHaveNoList(c, path, k, site, g);
  }

  // ---- The walk ----

  /** The children before `i`, as a loop over them collects them. */
  ghost function UnfoldedUpTo(n: Node, i: nat, path: string, k: nat, site: Site, g: set<Node>): Option<seq<Dependency>>
    requires Closed(g) && n in g && i <= Width(n) && k > 0
    reads g
  {
    if i == 0 then Some([])
    else Joined(UnfoldedUpTo(n, i - 1, path, k, site, g),
      Unfolded(Child(n, i - 1), PathOf(n, i - 1, path, site), k - 1, site, g))
  }

  lemma {:induction false} UpToThenBelow(n: Node, i: nat, path: string, k: nat, site: Site, g: set<Node>)
    requires Closed(g) && n in g && i <= Width(n) && k > 0
    ensures UnfoldedBelow(n, 0, path, k, site, g) ==
      Joined(UnfoldedUpTo(n, i, path, k, site, g), UnfoldedBelow(n, i, path, k, site, g))
  {
    hide Unfolded, PathOf, Joined;
    if i == 0 {
      JoinedEmpty(UnfoldedBelow(n, 0, path, k, site, g));
    } else {
      UpToThenBelow(n, i - 1, path, k, site, g);
      JoinedAssociates(UnfoldedUpTo(n, i - 1, path, k, site, g),
        Unfolded(Child(n, i - 1), PathOf(n, i - 1, path, site), k - 1, site, g), UnfoldedBelow(n, i, path, k, site, g));
    }
  }

  lemma JoinedEmpty(a: Option<seq<Dependency>>)
    ensures Joined(Some([]), a) == a && Joined(a, Some([])) == a
  {
    if a.Some? { assert [] + a.value == a.value == a.value + []; }
  }

  lemma JoinedAssociates(a: Option<seq<Dependency>>, b: Option<seq<Dependency>>, c: Option<seq<Dependency>>)
    ensures Joined(a, Joined(b, c)) == Joined(Joined(a, b), c)
  {
    if a.Some? && b.Some? && c.Some? { assert a.value + (b.value + c.value) == (a.value + b.value) + c.value; }
  }

  lemma {:induction false} UpToDeeper(n: Node, i: nat, path: string, k: nat, l: nat, site: Site, g: set<Node>)
    requires Closed(g) && n in g && i <= Width(n) && 0 < k <= l && UnfoldedUpTo(n, i, path, k, site, g).Some?
    ensures UnfoldedUpTo(n, i, path, l, site, g) == UnfoldedUpTo(n, i, path, k, site, g)
  {
    if i > 0 {
      UpToDeeper(n, i - 1, path, k, l, site, g);
      UnfoldedDeeper(Child(n, i - 1), PathOf(n, i - 1, path, site), k - 1, l - 1, site, g);
    }
  }

  /** The walk failed at a place without a list, so nothing above it has one either. */
  lemma ChildHasNoList(n: Node, i: nat, path: string, site: Site, g: set<Node>)
    requires Closed(g) && n in g && i < Width(n) && (n.kind == MappingKind || n.kind == SequenceKind)
    requires forall k :: Unfolded(Child(n, i), PathOf(n, i, path, site), k, site, g).None?
    ensures forall k :: Unfolded(n, path, k, site, g).None?
  {
    forall k ensures Unfolded(n, path, k, site, g).None? {
      if Unfolded(n, path, k, site, g).Some? { BelowPart(n, 0, i, path, k, site, g); }
    }
  }

  /** Rejects merge keys, other kinds of keys, and duplicates by identifier or by text. */
  method CheckKeys(n: Node, d: Decoder, ghost g: set<Node>) returns (ok: bool)
    requires Closed(g) && n in g
    ensures ok <==> KeysAllowed(n, |n.content| / 2, d, g)
  {
    var seenKeys: set<Option<string>>, seenText: set<Option<string>> := {}, {};
    var i := 0;
    while 2 * i + 1 < |n.content|
      invariant 0 <= 2 * i <= |n.content| && KeysAllowed(n, i, d, g)
      invariant forall x :: x in seenKeys <==>
        exists j | 0 <= j < i :: d.identify(n.content[2 * j].tag, n.content[2 * j].value) == x
      invariant forall x :: x in seenText <==>
        exists j | 0 <= j < i :: d.text(n.content[2 * j].tag, n.content[2 * j].value) == x
    {
      var key := n.content[2 * i];
      if !KeyAllowed(key, d) { return false; }
      var identifier, text := d.identify(key.tag, key.value), d.text(key.tag, key.value);
      if identifier in seenKeys || text in seenText { return false; }
      seenKeys, seenText := seenKeys + {identifier}, seenText + {text};
      i := i + 1;
    }
    ok := true;
  }

  /**
   Walks everything below a node, pushing it on the stack while its content is visited. The walk
   succeeds just when the unfolded list exists, and then appends exactly that list.
   */
  method Walk(node: Node?, path: string, site: Site, stack: set<Node>, dependencies: seq<Dependency>,
      ghost trail: seq<Node>, ghost g: set<Node>)
    returns (ok: bool, found: seq<Dependency>, ghost depth: nat)
    requires Closed(g) && (node != null ==> node in g) && stack <= g
    requires forall m :: m in stack <==> m in trail
    requires node != null ==> IsTrail(trail + [node])
    ensures node == null ==> ok && found == dependencies
    ensures node != null && ok ==>
      Unfolded(node, path, depth, site, g).Some? && found == dependencies + Unfolded(node, path, depth, site, g).value
    ensures node != null && !ok ==> forall k :: Unfolded(node, path, k, site, g).None?
    decreases |g - stack|, 1
  {
    hide Unfolded, UnfoldedBelow, KeysAllowed, OwnEntry, IsTrail, StepsTo, TagAllowed;
    ok, found, depth := true, dependencies, 0;
    if node == null { return; }
    var n: Node := node;
    if n in stack {
      StackStops(trail, n, path, site, g);
      return false, found, 0;
    }
    var inner := stack + {n};
    SmallerSet(g - inner, g - stack, n);
    if n.kind == AliasKind {
      TrailGrows(trail, n, n.alias);
      ok, found, depth := Walk(n.alias, path, site, inner, dependencies, trail + [n], g);
      AliasUnfolds(n, path, depth, site, g);
      if n.alias == null { assert dependencies + [] == dependencies; }
      depth := depth + 1;
      return;
    }
    UnfoldedRefused(n, path, site, g);
    if !TagAllowed(n) { return false, found, 0; }
    if n.kind == MappingKind {
      var allowed := CheckKeys(n, site.decoder, g);
      if !allowed { return false, found, 0; }
      var entry := EntryOf(n, path, site, g);
      if entry.None? { return false, found, 0; }
      found := found + entry.value;
      ok, found, depth := WalkChildren(n, path, site, inner, found, trail + [n], g);
      if ok { MappingUnfolds(n, path, depth, site, g, dependencies); }
    } else if n.kind == SequenceKind {
      ok, found, depth := WalkChildren(n, path, site, inner, found, trail + [n], g);
      if ok { SequenceUnfolds(n, path, depth, site, g); }
    } else {
      depth := 1;
      ScalarUnfolds(n, path, site, g);
      assert dependencies + [] == dependencies;
    }
  }

  lemma AliasUnfolds(n: Node, path: string, depth: nat, site: Site, g: set<Node>)
    requires Closed(g) && n in g && n.kind == AliasKind
    ensures n.alias == null ==> Unfolded(n, path, depth + 1, site, g) == Some([])
    ensures n.alias != null ==> Unfolded(n, path, depth + 1, site, g) == Unfolded(n.alias, path, depth, site, g)
    ensures n.alias != null && (forall k :: Unfolded(n.alias, path, k, site, g).None?) ==>
      forall k :: Unfolded(n, path, k, site, g).None?
  {
  }

  lemma UnfoldedRefused(n: Node, path: string, site: Site, g: set<Node>)
    requires Closed(g) && n in g && n.kind != AliasKind
    ensures !TagAllowed(n)
      || (n.kind == MappingKind
        && (!KeysAllowed(n, |n.content| / 2, site.decoder, g) || OwnEntry(n, path, site, g).None?))
      ==> forall k :: Unfolded(n, path, k, site, g).None?
  {
    hide KeysAllowed, OwnEntry, TagAllowed;
  }

  lemma MappingUnfolds(n: Node, path: string, depth: nat, site: Site, g: set<Node>, before: seq<Dependency>)
    requires Closed(g) && n in g && n.kind == MappingKind && TagAllowed(n) && depth > 0
    requires KeysAllowed(n, |n.content| / 2, site.decoder, g) && OwnEntry(n, path, site, g).Some?
    requires UnfoldedBelow(n, 0, path, depth, site, g).Some?
    ensures Unfolded(n, path, depth, site, g).Some?
    ensures before + OwnEntry(n, path, site, g).value + UnfoldedBelow(n, 0, path, depth, site, g).value
         == before + Unfolded(n, path, depth, site, g).value
  {
    hide KeysAllowed, OwnEntry, TagAllowed, UnfoldedBelow;
    assert Unfolded(n, path, depth, site, g) ==
      Joined(OwnEntry(n, path, site, g), UnfoldedBelow(n, 0, path, depth, site, g));
  }

  lemma SequenceUnfolds(n: Node, path: string, depth: nat, site: Site, g: set<Node>)
    requires Closed(g) && n in g && n.kind == SequenceKind && TagAllowed(n) && depth > 0
    ensures Unfolded(n, path, depth, site, g) == UnfoldedBelow(n, 0, path, depth, site, g)
  {
  }

  lemma ScalarUnfolds(n: Node, path: string, site: Site, g: set<Node>)
    requires Closed(g) && n in g && TagAllowed(n) && n.kind != MappingKind && n.kind != SequenceKind
    ensures Unfolded(n, path, 1, site, g) == Some([])
  {
  }

  lemma StackStops(trail: seq<Node>, n: Node, path: string, site: Site, g: set<Node>)
    requires Closed(g) && n in g && n in trail && IsTrail(trail + [n])
    ensures forall k :: Unfolded(n, path, k, site, g).None?
  {
    var p := trail + [n];
    forall i | 0 <= i < |trail| - 1 ensures StepsTo(trail[i], trail[i + 1]) { assert StepsTo(p[i], p[i + 1]); }
    assert StepsTo(p[|trail| - 1], p[|trail|]);
    forall k ensures Unfolded(n, path, k, site, g).None? { OnStackHasNoList(trail, n, path, k, site, g); }
  }

  lemma TrailGrows(trail: seq<Node>, n: Node, next: Node?)
    requires IsTrail(trail + [n])
    ensures next != null && StepsTo(n, next) ==> IsTrail(trail + [n] + [next])
    ensures n.kind == AliasKind && n.alias == next != null ==> StepsTo(n, next)
  {
    if next == null || !StepsTo(n, next) { return; }
    var m: Node := next;
    var p, q := trail + [n], trail + [n] + [m];
    forall i | 0 <= i < |q| - 1 ensures StepsTo(q[i], q[i + 1]) {
      if i < |p| - 1 { assert StepsTo(p[i], p[i + 1]); }
    }
  }

  method WalkChildren(n: Node, path: string, site: Site, stack: set<Node>, dependencies: seq<Dependency>,
      ghost trail: seq<Node>, ghost g: set<Node>)
    returns (ok: bool, found: seq<Dependency>, ghost depth: nat)
    requires Closed(g) && n in g && stack <= g && (n.kind == MappingKind || n.kind == SequenceKind)
    requires forall m :: m in stack <==> m in trail
    requires IsTrail(trail) && |trail| > 0 && trail[|trail| - 1] == n
    ensures ok ==>
      depth > 0 && UnfoldedBelow(n, 0, path, depth, site, g).Some?
      && found == dependencies + UnfoldedBelow(n, 0, path, depth, site, g).value
    ensures !ok ==> forall k :: Unfolded(n, path, k, site, g).None?
    decreases |g - stack|, 2
  {
    hide Unfolded, UnfoldedBelow, UnfoldedUpTo, IsTrail, StepsTo, PathOf, Child;
    ok, found, depth := true, dependencies, 1;
    NothingUpTo(n, path, site, g);
    assert dependencies + [] == dependencies;
    var i := 0;
    while i < Width(n)
      invariant 0 <= i <= Width(n) && depth > 0
      invariant UnfoldedUpTo(n, i, path, depth, site, g).Some?
      invariant found == dependencies + UnfoldedUpTo(n, i, path, depth, site, g).value
    {
      var child := Child(n, i);
      ChildTrail(trail, n, i, g);
      ghost var d, before := 0, found;
      ok, found, d := Walk(child, PathOf(n, i, path, site), site, stack, found, trail, g);
      if !ok {
        ChildHasNoList(n, i, path, site, g);
        return;
      }
      UpToMore(n, i, path, depth, d, site, g, dependencies);
      depth := depth + d;
      i := i + 1;
    }
    UpToThenBelow(n, Width(n), path, depth, site, g);
    BelowEnds(n, path, depth, site, g);
  }

  lemma NothingUpTo(n: Node, path: string, site: Site, g: set<Node>)
    requires Closed(g) && n in g
    ensures UnfoldedUpTo(n, 0, path, 1, site, g) == Some([])
  {
  }

  lemma BelowEnds(n: Node, path: string, depth: nat, site: Site, g: set<Node>)
    requires Closed(g) && n in g && depth > 0
    ensures Joined(UnfoldedUpTo(n, Width(n), path, depth, site, g),
      UnfoldedBelow(n, Width(n), path, depth, site, g)) == UnfoldedUpTo(n, Width(n), path, depth, site, g)
  {
    JoinedEmpty(UnfoldedUpTo(n, Width(n), path, depth, site, g));
  }

  lemma ChildTrail(trail: seq<Node>, n: Node, i: nat, g: set<Node>)
    requires Closed(g) && n in g && i < Width(n) && (n.kind == MappingKind || n.kind == SequenceKind)
    requires IsTrail(trail) && |trail| > 0 && trail[|trail| - 1] == n
    ensures Child(n, i) in g && IsTrail(trail + [Child(n, i)])
  {
    assert StepsTo(n, Child(n, i));
    assert trail[..|trail| - 1] + [n] == trail;
    TrailGrows(trail[..|trail| - 1], n, Child(n, i));
  }

  lemma UpToMore(n: Node, i: nat, path: string, depth: nat, d: nat, site: Site, g: set<Node>, before: seq<Dependency>)
    requires Closed(g) && n in g && i < Width(n) && depth > 0 && UnfoldedUpTo(n, i, path, depth, site, g).Some?
    requires Unfolded(Child(n, i), PathOf(n, i, path, site), d, site, g).Some?
    ensures UnfoldedUpTo(n, i + 1, path, depth + d, site, g).Some?
    ensures before + UnfoldedUpTo(n, i, path, depth, site, g).value
      + Unfolded(Child(n, i), PathOf(n, i, path, site), d, site, g).value
         == before + UnfoldedUpTo(n, i + 1, path, depth + d, site, g).value
  {
    UpToDeeper(n, i, path, depth, depth + d, site, g);
    UnfoldedDeeper(Child(n, i), PathOf(n, i, path, site), d, depth + d - 1, site, g);
    hide Unfolded, PathOf, Child;
    assert UnfoldedUpTo(n, i + 1, path, depth + d, site, g)
        == Joined(UnfoldedUpTo(n, i, path, depth + d, site, g),
          Unfolded(Child(n, i), PathOf(n, i, path, site), depth + d - 1, site, g));
  }

  /** What the mapping itself contributes. */
  method EntryOf(n: Node, path: string, site: Site, ghost g: set<Node>) returns (entry: Option<seq<Dependency>>)
    requires Closed(g) && n in g && n.kind == MappingKind
    ensures entry == OwnEntry(n, path, site, g)
  {
    var discovType := LookUp(n, "discovType", g);
    if StringValue(discovType) != "consul" { return Some([]); }
    if path == "" && (site.kind == "rpc" || site.kind == "http") { return None; }
    if path in site.localRoutes { return None; }
    var consul := LookUp(n, "consul", g);
    if consul == null || consul.kind != MappingKind { return None; }
    var host := LookUp(consul, "host", g);
    var port := LookUp(consul, "port", g);
    var key := LookUp(consul, "key", g);
    if site.trim(StringValue(host)) == "" || PortOf(port, site).None? || site.trim(StringValue(key)) == "" {
      return None;
    }
    entry := Some([Dependency(site.owner, path, site.trim(StringValue(host)), PortOf(port, site).value,
      site.trim(StringValue(key)))]);
  }

  method LookUp(m: Node?, key: string, ghost g: set<Node>) returns (v: Node?)
    requires Closed(g) && (m != null ==> m in g)
    ensures v == ValueUnder(m, key, g)
  {
    if m == null || m.kind != MappingKind { return null; }
    var i := 0;
    while 2 * i + 1 < |m.content|
      invariant 0 <= 2 * i <= |m.content|
      invariant MappingValueFrom(m, key, 0) == MappingValueFrom(m, key, i)
    {
      var k := m.content[2 * i];
      if k.kind == ScalarKind && k.tag == "!!str" && k.value == key {
        var value := m.content[2 * i + 1];
        return if value.kind == AliasKind then value.alias else value;
      }
      i := i + 1;
    }
    v := null;
  }

  /**
   The inspection of an application is exact: it ends on every graph, fails just when there is no
   list at any depth, and otherwise finds the one list, path by path.
   */
  method Inspect(root: Node, site: Site, ghost g: set<Node>) returns (ok: bool, found: seq<Dependency>)
    requires Closed(g) && root in g
    ensures ok <==> exists k :: Unfolded(root, "", k, site, g).Some?
    ensures ok ==> forall k | Unfolded(root, "", k, site, g).Some? :: Unfolded(root, "", k, site, g) == Some(found)
  {
    ghost var depth;
    ok, found, depth := Walk(root, "", site, {}, [], [], g);
    if ok {
      assert [] + Unfolded(root, "", depth, site, g).value == Unfolded(root, "", depth, site, g).value;
      forall k | Unfolded(root, "", k, site, g).Some? ensures Unfolded(root, "", k, site, g) == Some(found) {
        UnfoldedUnique(root, "", k, depth, site, g);
      }
    }
  }
}
