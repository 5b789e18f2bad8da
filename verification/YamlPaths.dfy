/** Reading and writing dotted paths in alias-free YAML documents. */
module YamlPaths {
  import opened Options
  import opened YamlNodes

  type Path = seq<string>

  /** How scalars are decoded: the typed identifier of a scalar and the text of its decoded value. */
  datatype Decoder = Decoder(identify: (string, string) -> Option<string>, text: (string, string) -> Option<string>)

  /** Strings decode to themselves, and identifiers tell types apart. */
  ghost predicate Sane(d: Decoder) {
    && (forall v :: d.text("!!str", v) == Some(v))
    && (forall v :: d.identify("!!str", v).Some?)
    && (forall v, tag, w :: d.identify("!!str", v) == d.identify(tag, w) ==> tag == "!!str" && v == w)
  }

  datatype Access = Missing | Blocked | At(tree: Tree)

  /** A patch overwrites whatever is there; a guard only a scalar, and creates only when told to. */
  datatype Mode = Patching | Guarding(allowCreate: bool)

  predicate IsKey(t: Tree, key: string) {
    t.kind == ScalarKind && t.tag == "!!str" && t.value == key
  }

  function Key(key: string): Tree {
    Tree(ScalarKind, "!!str", key, [])
  }

  /** The first position of a string key, or -1. */
  function Position(ts: seq<Tree>, key: string, from: nat): (i: int)
    ensures i == -1 || (from <= i < |ts| - 1 && (i - from) % 2 == 0 && IsKey(ts[i], key))
    ensures forall j | from <= j < (if i == -1 then |ts| - 1 else i) && (j - from) % 2 == 0 :: !IsKey(ts[j], key)
    decreases |ts| - from
  {
    if from + 1 >= |ts| then -1
    else if IsKey(ts[from], key) then from
    else Position(ts, key, from + 2)
  }

  function Read(t: Tree, p: Path): Access
    requires |p| > 0
    decreases |p|
  {
    var i := Position(t.children, p[0], 0);
    if i < 0 then Missing
    else if |p| == 1 then At(t.children[i + 1])
    else if t.children[i + 1].kind != MappingKind then Blocked
    else Read(t.children[i + 1], p[1..])
  }

  function Built(p: Path, v: Tree): Tree
    decreases |p|
  {
    if p == [] then v else Tree(MappingKind, "!!map", "", [Key(p[0]), Built(p[1..], v)])
  }

  function Write(t: Tree, p: Path, v: Tree, m: Mode): Option<Tree>
    requires |p| > 0
    decreases |p|
  {
    var i := Position(t.children, p[0], 0);
    if i < 0 then
      if m.Guarding? && !m.allowCreate then None
      else Some(t.(children := t.children + [Key(p[0]), Built(p[1..], v)]))
    else if |p| == 1 then
      if m.Guarding? && t.children[i + 1].kind != ScalarKind then None
      else Some(t.(children := t.children[i + 1 := v]))
    else if t.children[i + 1].kind != MappingKind then None
    else
      var w := Write(t.children[i + 1], p[1..], v, m);
      if w.None? then None else Some(t.(children := t.children[i + 1 := w.value]))
  }

  /** Mappings come in key-value pairs, as the parser builds them. */
  predicate Paired(t: Tree) {
    (t.kind == MappingKind ==> |t.children| % 2 == 0) && forall i | 0 <= i < |t.children| :: Paired(t.children[i])
  }

  predicate Comparable(p: Path, q: Path) {
    p <= q || q <= p
  }

  // ---- Positions after a write ----

  lemma {:induction false} PositionUpdated(ts: seq<Tree>, key: string, from: nat, i: nat, v: Tree)
    requires i < |ts| && (i < from || (i - from) % 2 == 1)
    ensures Position(ts[i := v], key, from) == Position(ts, key, from)
    decreases |ts| - from
  {
    if from + 1 < |ts| && !IsKey(ts[from], key) {
      PositionUpdated(ts, key, from + 2, i, v);
    }
  }

  lemma {:induction false} PositionAppended(ts: seq<Tree>, key: string, from: nat, k: Tree, v: Tree)
    requires from <= |ts| && (|ts| - from) % 2 == 0
    ensures Position(ts + [k, v], key, from) ==
            if Position(ts, key, from) >= 0 then Position(ts, key, from) else if IsKey(k, key) then |ts| else -1
    decreases |ts| - from
  {
    if from == |ts| {
      assert Position(ts + [k, v], key, from + 2) == -1;
    } else if !IsKey(ts[from], key) {
      PositionAppended(ts, key, from + 2, k, v);
    }
  }

  // ---- The laws of writing ----

  /** What was written is read back. */
  lemma {:induction false} ReadBack(t: Tree, p: Path, v: Tree, m: Mode)
    requires |p| > 0 && Paired(t) && t.kind == MappingKind && Write(t, p, v, m).Some?
    ensures Read(Write(t, p, v, m).value, p) == At(v)
    ensures Write(t, p, v, m).value.kind == MappingKind
    decreases |p|
  {
    var i := Position(t.children, p[0], 0);
    if i < 0 {
      PositionAppended(t.children, p[0], 0, Key(p[0]), Built(p[1..], v));
      if |p| > 1 { ReadBuilt(p[1..], v); }
    } else if |p| == 1 {
      PositionUpdated(t.children, p[0], 0, i + 1, v);
    } else {
      ReadBack(t.children[i + 1], p[1..], v, m);
      PositionUpdated(t.children, p[0], 0, i + 1, Write(t.children[i + 1], p[1..], v, m).value);
    }
  }

  lemma {:induction false} ReadBuilt(p: Path, v: Tree)
    requires |p| > 0
    ensures Read(Built(p, v), p) == At(v) && Built(p, v).kind == MappingKind
    decreases |p|
  {
    assert Position(Built(p, v).children, p[0], 0) == 0;
    if |p| > 1 { ReadBuilt(p[1..], v); }
  }

  lemma {:induction false} ReadElsewhereBuilt(p: Path, v: Tree, q: Path)
    requires |p| > 0 && |q| > 0 && !Comparable(p, q)
    ensures Read(Built(p, v), q) == Missing && Built(p, v).kind == MappingKind
    decreases |p|
  {
    var b := Built(p, v).children;
    if p[0] != q[0] {
      assert Position(b, q[0], 2) == -1;
      assert Position(b, q[0], 0) == -1;
    } else {
      Incomparable(p, q);
      assert Position(b, q[0], 0) == 0;
      ReadElsewhereBuilt(p[1..], v, q[1..]);
    }
  }

  lemma Incomparable(p: Path, q: Path)
    requires |p| > 0 && |q| > 0 && p[0] == q[0]
    ensures Comparable(p, q) <==> Comparable(p[1..], q[1..])
  {
    assert p == [p[0]] + p[1..] && q == [q[0]] + q[1..];
  }

  /** Nothing is seen of a write along any path that is not a prefix or an extension of it. */
  lemma {:induction false} ReadElsewhere(t: Tree, p: Path, v: Tree, m: Mode, q: Path)
    requires |p| > 0 && |q| > 0 && Paired(t) && t.kind == MappingKind && Write(t, p, v, m).Some? && !Comparable(p, q)
    ensures Read(Write(t, p, v, m).value, q) == Read(t, q)
    decreases |p|
  {
    var i := Position(t.children, p[0], 0);
    if p[0] == q[0] {
      Incomparable(p, q);
      assert |p| > 1 && |q| > 1 by { NeitherEnds(p, q); }
    }
    if i < 0 {
      if p[0] == q[0] { ReadElsewhereBuilt(p[1..], v, q[1..]); }
      ReadAppended(t, p[0], Built(p[1..], v), q);
    } else {
      var next := if |p| == 1 then v else Write(t.children[i + 1], p[1..], v, m).value;
      if p[0] == q[0] {
        ReadBack(t.children[i + 1], p[1..], v, m);
        ReadElsewhere(t.children[i + 1], p[1..], v, m, q[1..]);
      }
      ReadReplaced(t, i, p[0], next, q);
    }
  }

  lemma NeitherEnds(p: Path, q: Path)
    requires |p| > 0 && |q| > 0 && p[0] == q[0] && !Comparable(p, q)
    ensures |p| > 1 && |q| > 1
  {
    Incomparable(p, q);
  }

  /** Reading past an appended entry. */
  lemma {:induction false} ReadAppended(t: Tree, key: string, v: Tree, q: Path)
    requires |q| > 0 && |t.children| % 2 == 0 && Position(t.children, key, 0) < 0
    requires q[0] == key ==> |q| > 1 && v.kind == MappingKind && Read(v, q[1..]) == Missing
    ensures Read(t.(children := t.children + [Key(key), v]), q) == Read(t, q)
  {
    PositionAppended(t.children, q[0], 0, Key(key), v);
  }

  /** Reading past a replaced value. */
  lemma {:induction false} ReadReplaced(t: Tree, i: nat, key: string, v: Tree, q: Path)
    requires |q| > 0 && Position(t.children, key, 0) == i
    requires q[0] == key ==>
      |q| > 1 && v.kind == MappingKind && t.children[i + 1].kind == MappingKind
        && Read(v, q[1..]) == Read(t.children[i + 1], q[1..])
    ensures Read(t.(children := t.children[i + 1 := v]), q) == Read(t, q)
  {
    hide Read;
    var u, j := t.(children := t.children[i + 1 := v]), Position(t.children, q[0], 0);
    PositionUpdated(t.children, q[0], 0, i + 1, v);
    if q[0] != key && j >= 0 { DifferentKeys(t.children, q[0], key); }
    ReadSame(t, u, q);
  }

  /** Documents in which the first key of a path leads to the same, or reads on the same, read the same. */
  lemma {:induction false} ReadSame(t: Tree, u: Tree, q: Path)
    requires |q| > 0 && |u.children| == |t.children| && Position(u.children, q[0], 0) == Position(t.children, q[0], 0)
    requires var j := Position(t.children, q[0], 0);
      j >= 0 && u.children[j + 1] != t.children[j + 1] ==>
        && |q| > 1 && u.children[j + 1].kind == MappingKind && t.children[j + 1].kind == MappingKind
        && Read(u.children[j + 1], q[1..]) == Read(t.children[j + 1], q[1..])
    ensures Read(u, q) == Read(t, q)
  {
    hide Position, Read;
    ReadStep(t, q);
    ReadStep(u, q);
  }

  lemma {:induction false} ReadStep(t: Tree, q: Path)
    requires |q| > 0
    ensures var j := Position(t.children, q[0], 0);
      Read(t, q) ==
        if j < 0 then Missing
        else if |q| == 1 then At(t.children[j + 1])
        else if t.children[j + 1].kind != MappingKind then Blocked
        else Read(t.children[j + 1], q[1..])
  {
  }

  lemma DifferentKeys(ts: seq<Tree>, a: string, b: string)
    requires a != b && Position(ts, a, 0) >= 0 && Position(ts, b, 0) >= 0
    ensures Position(ts, a, 0) != Position(ts, b, 0)
  {
  }

  lemma {:induction false} WritePaired(t: Tree, p: Path, v: Tree, m: Mode)
    requires |p| > 0 && Paired(t) && t.kind == MappingKind && Paired(v) && Write(t, p, v, m).Some?
    ensures Paired(Write(t, p, v, m).value)
    decreases |p|
  {
    var i := Position(t.children, p[0], 0);
    if i < 0 { BuiltPaired(p[1..], v); }
    else if |p| > 1 { WritePaired(t.children[i + 1], p[1..], v, m); }
  }

  lemma {:induction false} BuiltPaired(p: Path, v: Tree)
    requires Paired(v)
    ensures Paired(Built(p, v))
    decreases |p|
  {
    if p != [] { BuiltPaired(p[1..], v); }
  }

  /**
   Exactly when a write goes through: no proper prefix of the path is anything but a mapping, and a
   guard finds a scalar, or nothing where it may create.
   */
  lemma {:induction false} WriteSucceeds(t: Tree, p: Path, v: Tree, m: Mode)
    requires |p| > 0
    ensures Write(t, p, v, m).Some? <==>
      && Read(t, p) != Blocked
      && (m.Guarding? && Read(t, p).At? ==> Read(t, p).tree.kind == ScalarKind)
      && (m.Guarding? && !m.allowCreate ==> Read(t, p).At?)
    decreases |p|
  {
    var i := Position(t.children, p[0], 0);
    if i >= 0 && |p| > 1 && t.children[i + 1].kind == MappingKind {
      WriteSucceeds(t.children[i + 1], p[1..], v, m);
    }
  }

  // ---- Duplicate keys ----

  function KeyAt(ts: seq<Tree>, i: nat): Tree
    requires i < |ts| / 2
  {
    ts[2 * i]
  }

  function IdentifierOf(t: Tree, d: Decoder): Option<string> {
    d.identify(t.tag, t.value)
  }

  function TextOf(t: Tree, d: Decoder): Option<string> {
    d.text(t.tag, t.value)
  }

  /** Scalar keys that decode, with pairwise distinct typed identifiers. */
  predicate StrictKeys(ts: seq<Tree>, d: Decoder) {
    && (forall i | 0 <= i < |ts| / 2 :: KeyAt(ts, i).kind == ScalarKind && IdentifierOf(KeyAt(ts, i), d).Some?)
    && (forall i, j | 0 <= i < j < |ts| / 2 :: IdentifierOf(KeyAt(ts, i), d) != IdentifierOf(KeyAt(ts, j), d))
  }

  /** The stricter rule of guarded documents: string and integer keys, no merge key, no text twice. */
  predicate GuardKeys(ts: seq<Tree>, d: Decoder) {
    && StrictKeys(ts, d)
    && (forall i | 0 <= i < |ts| / 2 :: GuardKey(KeyAt(ts, i), d))
    && (forall i, j | 0 <= i < j < |ts| / 2 :: TextOf(KeyAt(ts, i), d) != TextOf(KeyAt(ts, j), d))
  }

  predicate GuardKey(t: Tree, d: Decoder) {
    (t.tag == "!!str" || t.tag == "!!int") && t.value != "<<" && TextOf(t, d).Some?
  }

  /** Every mapping of the document keeps to the rule. */
  predicate KeysFine(t: Tree, guarded: bool, d: Decoder) {
    && (t.kind == MappingKind ==> if guarded then GuardKeys(t.children, d) else StrictKeys(t.children, d))
    && forall i | 0 <= i < |t.children| :: KeysFine(t.children[i], guarded, d)
  }

  /** The tree and everything in it. */
  function Subtrees(t: Tree): seq<Tree>
    decreases t, 1
  {
    [t] + SubtreesOf(t.children)
  }

  function SubtreesOf(ts: seq<Tree>): seq<Tree>
    decreases ts, 0
  {
    if ts == [] then [] else Subtrees(ts[0]) + SubtreesOf(ts[1..])
  }

  lemma {:induction false} SubtreeOf(ts: seq<Tree>, m: Tree)
    ensures m in SubtreesOf(ts) <==> exists i | 0 <= i < |ts| :: m in Subtrees(ts[i])
    decreases |ts|
  {
    hide Subtrees;
    if ts != [] {
      SubtreeOf(ts[1..], m);
      if m in SubtreesOf(ts[1..]) {
        var i :| 0 <= i < |ts[1..]| && m in Subtrees(ts[1..][i]);
        assert m in Subtrees(ts[i + 1]);
      }
      if i :| 0 <= i < |ts| && m in Subtrees(ts[i]) {
        if i > 0 { assert m in Subtrees(ts[1..][i - 1]); }
      }
    }
  }

  /** A mapping with a key that is no scalar or does not decode, or with two keys of one identifier. */
  ghost predicate AmbiguousKeys(m: Tree, d: Decoder) {
    m.kind == MappingKind && (
      || (exists i | 0 <= 2 * i < |m.children| - 1 ::
            m.children[2 * i].kind != ScalarKind || d.identify(m.children[2 * i].tag, m.children[2 * i].value).None?)
      || exists i, j | 0 <= 2 * i < 2 * j < |m.children| - 1 ::
           d.identify(m.children[2 * i].tag, m.children[2 * i].value) ==
           d.identify(m.children[2 * j].tag, m.children[2 * j].value))
  }

  /** A mapping with a key that is neither string nor integer, a merge key, or two keys that read alike. */
  ghost predicate UnguardedKeys(m: Tree, d: Decoder) {
    m.kind == MappingKind && (
      || (exists i | 0 <= 2 * i < |m.children| - 1 ::
            var k := m.children[2 * i];
            (k.tag != "!!str" && k.tag != "!!int") || k.value == "<<" || d.text(k.tag, k.value).None?)
      || exists i, j | 0 <= 2 * i < 2 * j < |m.children| - 1 ::
           d.text(m.children[2 * i].tag, m.children[2 * i].value) ==
           d.text(m.children[2 * j].tag, m.children[2 * j].value))
  }

  lemma RulesExact(m: Tree, d: Decoder)
    requires m.kind == MappingKind
    ensures StrictKeys(m.children, d) <==> !AmbiguousKeys(m, d)
    ensures GuardKeys(m.children, d) <==> !AmbiguousKeys(m, d) && !UnguardedKeys(m, d)
  {
    var ts := m.children;
    forall i | 0 <= i < |ts| / 2 ensures KeyAt(ts, i) == ts[2 * i] {}
  }

  /** What it takes for a document to be accepted, mapping by mapping. */
  lemma {:induction false} KeysFineExact(t: Tree, guarded: bool, d: Decoder)
    ensures KeysFine(t, guarded, d) <==>
      forall m | m in Subtrees(t) :: !AmbiguousKeys(m, d) && (guarded ==> !UnguardedKeys(m, d))
    decreases t
  {
    hide StrictKeys, GuardKeys, AmbiguousKeys, UnguardedKeys, SubtreesOf;
    forall m ensures m in Subtrees(t) <==> m == t || exists i | 0 <= i < |t.children| :: m in Subtrees(t.children[i]) {
      SubtreeOf(t.children, m);
    }
    if t.kind == MappingKind { RulesExact(t, d); } else { NoMapping(t, d); }
    forall i | 0 <= i < |t.children|
      ensures KeysFine(t.children[i], guarded, d) <==>
        forall m | m in Subtrees(t.children[i]) :: !AmbiguousKeys(m, d) && (guarded ==> !UnguardedKeys(m, d))
    {
      KeysFineExact(t.children[i], guarded, d);
    }
    hide Subtrees;
  }

  lemma NoMapping(t: Tree, d: Decoder)
    requires t.kind != MappingKind
    ensures !AmbiguousKeys(t, d) && !UnguardedKeys(t, d)
  {
  }

  /** Replacing a value leaves the keys as they were. */
  lemma KeysOfUpdated(ts: seq<Tree>, i: nat, v: Tree, d: Decoder)
    requires i < |ts| && i % 2 == 1
    ensures StrictKeys(ts[i := v], d) <==> StrictKeys(ts, d)
    ensures GuardKeys(ts[i := v], d) <==> GuardKeys(ts, d)
  {
    var us := ts[i := v];
    forall j | 0 <= j < |ts| / 2 ensures KeyAt(us, j) == KeyAt(ts, j) {}
    SameKeys(ts, us, d);
  }

  lemma SameKeys(ts: seq<Tree>, us: seq<Tree>, d: Decoder)
    requires |us| / 2 == |ts| / 2 && forall j | 0 <= j < |ts| / 2 :: KeyAt(us, j) == KeyAt(ts, j)
    ensures StrictKeys(us, d) <==> StrictKeys(ts, d)
    ensures GuardKeys(us, d) <==> GuardKeys(ts, d)
  {
    hide KeyAt, IdentifierOf, TextOf, GuardKey;
  }

  lemma KeysOfAppended(ts: seq<Tree>, key: string, v: Tree, d: Decoder)
    requires |ts| % 2 == 0 && Position(ts, key, 0) < 0 && Sane(d)
    ensures StrictKeys(ts + [Key(key), v], d) <==> StrictKeys(ts, d)
    ensures GuardKeys(ts + [Key(key), v], d) <==> GuardKeys(ts, d) && key != "<<" && !HasText(ts, key, d)
  {
    hide StrictKeys, GuardKeys, HasText;
    var us, n := ts + [Key(key), v], |ts| / 2;
    assert KeyAt(us, n) == Key(key);
    forall j | 0 <= j < n ensures KeyAt(us, j) == KeyAt(ts, j) {}
    forall j | 0 <= j < n && KeyAt(ts, j).kind == ScalarKind
      ensures IdentifierOf(KeyAt(ts, j), d) != IdentifierOf(Key(key), d)
    {
      assert (2 * j - 0) % 2 == 0 && !IsKey(ts[2 * j], key);
    }
    assert TextOf(Key(key), d) == Some(key) && IdentifierOf(Key(key), d).Some?;
    IdentifiersOfAppended(ts, us, key, d);
    TextsOfAppended(ts, us, key, d);
  }

  lemma IdentifiersOfAppended(ts: seq<Tree>, us: seq<Tree>, key: string, d: Decoder)
    requires |us| / 2 == |ts| / 2 + 1 && KeyAt(us, |ts| / 2) == Key(key) && IdentifierOf(Key(key), d).Some?
    requires forall j | 0 <= j < |ts| / 2 :: KeyAt(us, j) == KeyAt(ts, j)
    requires forall j | 0 <= j < |ts| / 2 && KeyAt(ts, j).kind == ScalarKind ::
      IdentifierOf(KeyAt(ts, j), d) != IdentifierOf(Key(key), d)
    ensures StrictKeys(us, d) <==> StrictKeys(ts, d)
  {
    hide KeyAt, IdentifierOf;
    if StrictKeys(us, d) {
      forall i | 0 <= i < |ts| / 2 ensures KeyAt(ts, i).kind == ScalarKind && IdentifierOf(KeyAt(ts, i), d).Some? {
        assert KeyAt(us, i) == KeyAt(ts, i);
      }
      forall i, j | 0 <= i < j < |ts| / 2 ensures IdentifierOf(KeyAt(ts, i), d) != IdentifierOf(KeyAt(ts, j), d) {
        assert IdentifierOf(KeyAt(us, i), d) != IdentifierOf(KeyAt(us, j), d);
      }
    }
  }

  lemma TextsOfAppended(ts: seq<Tree>, us: seq<Tree>, key: string, d: Decoder)
    requires |us| / 2 == |ts| / 2 + 1 && KeyAt(us, |ts| / 2) == Key(key) && TextOf(Key(key), d) == Some(key)
    requires forall j | 0 <= j < |ts| / 2 :: KeyAt(us, j) == KeyAt(ts, j)
    requires StrictKeys(us, d) <==> StrictKeys(ts, d)
    ensures GuardKeys(us, d) <==> GuardKeys(ts, d) && key != "<<" && !HasText(ts, key, d)
  {
    hide StrictKeys, KeyAt, TextOf;
    var n := |ts| / 2;
    if GuardKeys(us, d) {
      assert GuardKey(KeyAt(us, n), d);
      forall i, j | 0 <= i < j < n ensures TextOf(KeyAt(ts, i), d) != TextOf(KeyAt(ts, j), d) {
        assert TextOf(KeyAt(us, i), d) != TextOf(KeyAt(us, j), d);
      }
      forall j | 0 <= j < n ensures GuardKey(KeyAt(ts, j), d) && TextOf(KeyAt(ts, j), d) != Some(key) {
        assert GuardKey(KeyAt(us, j), d);
        assert TextOf(KeyAt(us, j), d) != TextOf(KeyAt(us, n), d);
      }
    }
  }

  /** Some key of the mapping, an integer say, is written like the string `key`. */
  ghost predicate HasText(ts: seq<Tree>, key: string, d: Decoder) {
    exists j | 0 <= j < |ts| / 2 :: TextOf(KeyAt(ts, j), d) == Some(key)
  }

  /** No write introduces a duplicate typed key. */
  lemma {:induction false} WriteKeepsKeysUnique(t: Tree, p: Path, v: Tree, m: Mode, d: Decoder)
    requires |p| > 0 && Paired(t) && t.kind == MappingKind && Write(t, p, v, m).Some? && Sane(d)
    requires KeysFine(t, false, d) && KeysFine(v, false, d)
    ensures KeysFine(Write(t, p, v, m).value, false, d)
    decreases |p|
  {
    hide StrictKeys, GuardKeys, Sane;
    var i := Position(t.children, p[0], 0);
    if i < 0 {
      BuiltKeysFine(p[1..], v, false, d);
      KeysOfAppended(t.children, p[0], Built(p[1..], v), d);
      assert KeysFine(Key(p[0]), false, d);
    } else if |p| == 1 {
      KeysOfUpdated(t.children, i + 1, v, d);
    } else {
      WriteKeepsKeysUnique(t.children[i + 1], p[1..], v, m, d);
      KeysOfUpdated(t.children, i + 1, Write(t.children[i + 1], p[1..], v, m).value, d);
    }
  }

  /** What a write has to create along its path would not be accepted in a guarded document. */
  ghost predicate Clashes(t: Tree, p: Path, d: Decoder)
    requires |p| > 0
    decreases |p|
  {
    var i := Position(t.children, p[0], 0);
    if i < 0 then "<<" in p || HasText(t.children, p[0], d)
    else |p| > 1 && Clashes(t.children[i + 1], p[1..], d)
  }

  /** A guarded document stays one just when the write creates no merge key and no key written like an existing one. */
  lemma {:induction false} WriteKeepsGuarded(t: Tree, p: Path, v: Tree, m: Mode, d: Decoder)
    requires |p| > 0 && Paired(t) && t.kind == MappingKind && Write(t, p, v, m).Some? && Sane(d)
    requires KeysFine(t, true, d) && KeysFine(v, true, d)
    ensures KeysFine(Write(t, p, v, m).value, true, d) <==> !Clashes(t, p, d)
    decreases |p|
  {
    hide StrictKeys, GuardKeys, Sane, HasText;
    var u, i := Write(t, p, v, m).value, Position(t.children, p[0], 0);
    if i < 0 {
      var b := Built(p[1..], v);
      KeysOfAppended(t.children, p[0], b, d);
      if "<<" !in p[1..] { BuiltKeysFine(p[1..], v, true, d); } else { BuiltMerges(p[1..], v, d); }
      assert "<<" in p <==> p[0] == "<<" || "<<" in p[1..];
      assert u.children[|t.children| + 1] == b && u.children[|t.children|] == Key(p[0]);
      assert KeysFine(Key(p[0]), true, d);
      if KeysFine(u, true, d) { assert KeysFine(b, true, d); }
    } else if |p| == 1 {
      KeysOfUpdated(t.children, i + 1, v, d);
    } else {
      var w := Write(t.children[i + 1], p[1..], v, m).value;
      WriteKeepsGuarded(t.children[i + 1], p[1..], v, m, d);
      KeysOfUpdated(t.children, i + 1, w, d);
      assert u.children[i + 1] == w;
    }
  }

  // ---- What a write does to the clashes of other writes ----

  lemma HasTextOfAppended(ts: seq<Tree>, key: string, v: Tree, other: string, d: Decoder)
    requires |ts| % 2 == 0 && Sane(d) && other != key
    ensures HasText(ts + [Key(key), v], other, d) <==> HasText(ts, other, d)
  {
    var us, n := ts + [Key(key), v], |ts| / 2;
    assert KeyAt(us, n) == Key(key);
    forall j | 0 <= j < n ensures KeyAt(us, j) == KeyAt(ts, j) {}
  }

  lemma HasTextOfUpdated(ts: seq<Tree>, i: nat, v: Tree, other: string, d: Decoder)
    requires i < |ts| && i % 2 == 1
    ensures HasText(ts[i := v], other, d) <==> HasText(ts, other, d)
  {
    var us := ts[i := v];
    forall j | 0 <= j < |ts| / 2 ensures KeyAt(us, j) == KeyAt(ts, j) {}
    hide KeyAt, TextOf;
  }

  /** Beside what a write created, only a merge key can clash. */
  lemma {:induction false} BuiltClashes(p: Path, v: Tree, q: Path, d: Decoder)
    requires |p| > 0 && |q| > 0 && Sane(d) && "<<" !in p && (p == q || !Comparable(p, q))
    ensures Clashes(Built(p, v), q, d) <==> "<<" in q
    decreases |p|
  {
    hide Clashes;
    var b := Built(p, v).children;
    ClashStep(Built(p, v), q, d);
    if p[0] != q[0] {
      assert Position(b, q[0], 2) == -1;
      assert Position(b, q[0], 0) == -1;
      assert KeyAt(b, 0) == Key(p[0]) && TextOf(KeyAt(b, 0), d) == Some(p[0]);
      assert !HasText(b, q[0], d);
    } else {
      assert Position(b, q[0], 0) == 0 && q[0] != "<<";
      if p != q {
        Incomparable(p, q);
        NeitherEnds(p, q);
      }
      if |q| > 1 {
        assert "<<" !in p[1..] && ("<<" in q <==> "<<" in q[1..]);
        BuiltClashes(p[1..], v, q[1..], d);
        assert b[1] == Built(p[1..], v);
      } else {
        assert q == [q[0]];
      }
    }
  }

  lemma {:induction false} ClashStep(t: Tree, p: Path, d: Decoder)
    requires |p| > 0
    ensures var i := Position(t.children, p[0], 0);
      Clashes(t, p, d) <==>
        if i < 0 then "<<" in p || HasText(t.children, p[0], d) else |p| > 1 && Clashes(t.children[i + 1], p[1..], d)
  {
  }

  /**
   A write that does not clash changes nothing about which other writes would, unless one goes
   through the other.
   */
  lemma {:induction false} WriteKeepsClashes(t: Tree, p: Path, v: Tree, m: Mode, q: Path, d: Decoder)
    requires |p| > 0 && |q| > 0 && Paired(t) && t.kind == MappingKind && Write(t, p, v, m).Some? && Sane(d)
    requires !Clashes(t, p, d) && (p == q || !Comparable(p, q))
    ensures Clashes(Write(t, p, v, m).value, q, d) <==> Clashes(t, q, d)
    decreases |p|
  {
    hide Sane, HasText, Clashes;
    var i := Position(t.children, p[0], 0);
    ClashStep(t, p, d);
    if p[0] == q[0] && p != q {
      Incomparable(p, q);
      NeitherEnds(p, q);
    }
    if i < 0 {
      AppendKeepsClashes(t, p, v, q, d);
    } else {
      var next := if |p| == 1 then v else Write(t.children[i + 1], p[1..], v, m).value;
      if p[0] == q[0] && |p| > 1 { WriteKeepsClashes(t.children[i + 1], p[1..], v, m, q[1..], d); }
      ReplaceKeepsClashes(t, i, p, next, q, d);
    }
  }

  lemma {:induction false} AppendKeepsClashes(t: Tree, p: Path, v: Tree, q: Path, d: Decoder)
    requires |p| > 0 && |q| > 0 && |t.children| % 2 == 0 && Sane(d) && Position(t.children, p[0], 0) < 0
    requires "<<" !in p && !HasText(t.children, p[0], d) && (p == q || !Comparable(p, q))
    ensures Clashes(t.(children := t.children + [Key(p[0]), Built(p[1..], v)]), q, d) <==> Clashes(t, q, d)
  {
    hide Sane, HasText, Clashes;
    var b := Built(p[1..], v);
    var u := t.(children := t.children + [Key(p[0]), b]);
    ClashStep(t, q, d);
    ClashStep(u, q, d);
    PositionAppended(t.children, q[0], 0, Key(p[0]), b);
    if p[0] != q[0] {
      HasTextOfAppended(t.children, p[0], b, q[0], d);
    } else {
      assert q == [q[0]] + q[1..] && p == [p[0]] + p[1..];
      if p != q {
        Incomparable(p, q);
        NeitherEnds(p, q);
      }
      if |q| > 1 { BuiltClashes(p[1..], v, q[1..], d); }
    }
  }

  lemma {:induction false} ReplaceKeepsClashes(t: Tree, i: nat, p: Path, next: Tree, q: Path, d: Decoder)
    requires |p| > 0 && |q| > 0 && Position(t.children, p[0], 0) == i
    requires p[0] == q[0] && |q| > 1 ==> (Clashes(next, q[1..], d) <==> Clashes(t.children[i + 1], q[1..], d))
    ensures Clashes(t.(children := t.children[i + 1 := next]), q, d) <==> Clashes(t, q, d)
  {
    hide HasText, Clashes;
    ClashStep(t, q, d);
    ClashStep(t.(children := t.children[i + 1 := next]), q, d);
    PositionUpdated(t.children, q[0], 0, i + 1, next);
    HasTextOfUpdated(t.children, i + 1, next, q[0], d);
    if p[0] != q[0] && Position(t.children, q[0], 0) >= 0 { DifferentKeys(t.children, q[0], p[0]); }
  }

  lemma {:induction false} BuiltMerges(p: Path, v: Tree, d: Decoder)
    requires "<<" in p
    ensures !KeysFine(Built(p, v), true, d)
    decreases |p|
  {
    var b := Built(p, v);
    assert KeyAt(b.children, 0) == Key(p[0]) && b.children[1] == Built(p[1..], v);
    if p[0] == "<<" {
      assert !GuardKey(KeyAt(b.children, 0), d);
    } else {
      BuiltMerges(p[1..], v, d);
    }
  }

  lemma {:induction false} BuiltKeysFine(p: Path, v: Tree, guarded: bool, d: Decoder)
    requires Sane(d) && KeysFine(v, guarded, d) && (guarded ==> "<<" !in p)
    ensures KeysFine(Built(p, v), guarded, d)
    decreases |p|
  {
    if p != [] {
      BuiltKeysFine(p[1..], v, guarded, d);
      assert KeysFine(Key(p[0]), guarded, d);
    }
  }
}
