/** Materializing a configuration: patches layer by layer, then guards, then the verification of the guards. */
module YamlLayers {
  import opened Options
  import opened YamlNodes
  import opened YamlClone
  import opened YamlPaths
  import opened YamlPatch

  type Files = map<string, Tree>

  datatype Patch = Patch(file: string, path: Path, value: Tree, ifPresent: bool)

  datatype Guard = Guard(file: string, path: Path, value: Tree, allowCreate: bool)

  // ---- Editing one document through its nodes ----

  /** Parses a document: fresh nodes that hold its tree. */
  method BuildNodes(t: Tree) returns (n: Node, ghost sh: Shape, ghost nodes: set<Node>)
    requires Plain(t)
    ensures fresh(nodes) && nodes == Nodes(sh) && sh.node == n && Holds(sh, t)
    decreases t
  {
    hide Holds, Nodes;
    var content: seq<Node> := [];
    ghost var shs: seq<Shape>, made: set<Node> := [], {};
    var i := 0;
    while i < |t.children|
      invariant 0 <= i <= |t.children| && |content| == |shs| == i
      invariant fresh(made) && Apart(shs)
      invariant forall j | 0 <= j < i ::
        Nodes(shs[j]) <= made && shs[j].node == content[j] && Holds(shs[j], t.children[j])
    {
      ghost var s, more;
      var child;
      label before:
      child, s, more := BuildNodes(t.children[i]);
      ApartMore(shs, s, made);
      forall j | 0 <= j < i ensures Holds(shs[j], t.children[j]) {
        assert old@before(Holds(shs[j], t.children[j]));
      }
      content, shs, made := content + [child], shs + [s], made + more;
      i := i + 1;
    }
    n := new Node(t.kind, t.tag, t.value, content);
    sh := Shape(n, shs);
    nodes := Nodes(sh);
    NodesOver(sh, made);
    HoldsOver(sh, t);
  }

  lemma HoldsOver(sh: Shape, t: Tree)
    requires sh.node.kind == t.kind != AliasKind && sh.node.tag == t.tag && sh.node.value == t.value
    requires sh.node.alias == null
    requires |sh.node.content| == |sh.children| == |t.children| && Apart(sh.children)
    requires forall i | 0 <= i < |sh.children| ::
      sh.node.content[i] == sh.children[i].node && sh.node !in Nodes(sh.children[i])
    requires forall i | 0 <= i < |sh.children| :: Holds(sh.children[i], t.children[i])
    ensures Holds(sh, t)
  {
  }

  /** Serializes a document. */
  method ReadTree(n: Node, ghost sh: Shape, ghost nodes: set<Node>, ghost t: Tree) returns (r: Tree)
    requires Holds(sh, t) && sh.node == n && nodes == Nodes(sh)
    ensures r == t
    decreases sh
  {
    var children: seq<Tree> := [];
    var i := 0;
    while i < |n.content|
      invariant 0 <= i <= |n.content| && |children| == i
      invariant forall j | 0 <= j < i :: children[j] == t.children[j]
      invariant Holds(sh, t) && nodes == Nodes(sh)
    {
      ghost var inner := nodes * Nodes(sh.children[i]);
      assert inner == Nodes(sh.children[i]);
      var child := ReadTree(n.content[i], sh.children[i], inner, t.children[i]);
      children := children + [child];
      i := i + 1;
    }
    r := Tree(n.kind, n.tag, n.value, children);
  }

  /** Reads a document, edits it in place, and writes it back. */
  method EditDocument(t: Tree, path: Path, v: Tree, m: Mode) returns (r: Option<Tree>)
    requires Plain(t) && Plain(v) && t.kind == MappingKind && |path| > 0
    ensures r == Write(t, path, v, m)
  {
    hide Holds, Nodes, Write;
    ghost var sh, doc, vs, added, after, made;
    var root, value, ok;
    root, sh, doc := BuildNodes(t);
    value, vs, added := BuildNodes(v);
    ok, after, made := ApplyYaml(root, path, value, m, sh, doc, t, vs, added, v);
    if !ok { return None; }
    var u := ReadTree(root, after, Nodes(after), Write(t, path, v, m).value);
    r := Some(u);
  }

  // ---- The fold ----

  predicate Readable(t: Tree, d: Decoder) {
    t.kind == MappingKind && KeysFine(t, false, d)
  }

  predicate GuardReadable(t: Tree, d: Decoder) {
    t.kind == MappingKind && KeysFine(t, true, d)
  }

  function PatchFile(fs: Files, p: Patch, d: Decoder): Option<Files>
    requires |p.path| > 0
  {
    if p.file !in fs then None
    else if p.ifPresent && !GuardReadable(fs[p.file], d) then None
    else if p.ifPresent && Read(fs[p.file], p.path).Blocked? then None
    else if p.ifPresent && Read(fs[p.file], p.path).Missing? then Some(fs)
    else if !Readable(fs[p.file], d) then None
    else
      var w := Write(fs[p.file], p.path, p.value, Patching);
      if w.None? then None else Some(fs[p.file := w.value])
  }

  function GuardFile(fs: Files, g: Guard, d: Decoder): Option<Files>
    requires |g.path| > 0
  {
    if g.file !in fs || !GuardReadable(fs[g.file], d) then None
    else
      var w := Write(fs[g.file], g.path, g.value, Guarding(g.allowCreate));
      if w.None? then None else Some(fs[g.file := w.value])
  }

  predicate PatchesFit(ps: seq<Patch>) {
    forall i | 0 <= i < |ps| :: |ps[i].path| > 0 && Plain(ps[i].value) && Paired(ps[i].value)
  }

  /** Guards have non-empty paths and enforce scalars that decode. */
  predicate GuardsFit(gs: seq<Guard>, d: Decoder) {
    forall i | 0 <= i < |gs| :: |gs[i].path| > 0 && GuardValue(gs[i].value, d)
  }

  predicate GuardValue(v: Tree, d: Decoder) {
    v.kind == ScalarKind && v.children == [] && v.tag != "!!null" && IdentifierOf(v, d).Some?
  }

  /** All patches in order, each on top of the ones before. */
  function ApplyPatches(fs: Files, ps: seq<Patch>, d: Decoder): Option<Files>
    requires PatchesFit(ps)
  {
    if ps == [] then Some(fs)
    else
      var init := ApplyPatches(fs, ps[..|ps| - 1], d);
      if init.None? then None else PatchFile(init.value, ps[|ps| - 1], d)
  }

  function ApplyGuards(fs: Files, gs: seq<Guard>, d: Decoder): Option<Files>
    requires GuardsFit(gs, d)
  {
    if gs == [] then Some(fs)
    else
      var init := ApplyGuards(fs, gs[..|gs| - 1], d);
      if init.None? then None else GuardFile(init.value, gs[|gs| - 1], d)
  }

  /** What the final verification demands of one guard. */
  predicate Verified(fs: Files, g: Guard, d: Decoder)
    requires |g.path| > 0
  {
    && g.file in fs && GuardReadable(fs[g.file], d)
    && var a := Read(fs[g.file], g.path);
    a.At? && a.tree.kind == ScalarKind && IdentifierOf(a.tree, d) == IdentifierOf(g.value, d)
      && IdentifierOf(a.tree, d).Some?
  }

  /** Before anything is written, a guard that may not create must find a scalar. */
  predicate Present(fs: Files, g: Guard, d: Decoder)
    requires |g.path| > 0
  {
    && g.file in fs && GuardReadable(fs[g.file], d)
    && Read(fs[g.file], g.path).At? && Read(fs[g.file], g.path).tree.kind == ScalarKind
  }

  /** The mapping has unambiguous keys throughout; a guarded one has string and integer keys that read apart. */
  ghost predicate WellKeyed(t: Tree, guarded: bool, d: Decoder) {
    t.kind == MappingKind
    && forall m | m in Subtrees(t) :: !AmbiguousKeys(m, d) && (guarded ==> !UnguardedKeys(m, d))
  }

  /** A file is read, for patches or for guards, just when its keys keep to the rules. */
  lemma ReadableExact(t: Tree, d: Decoder)
    ensures Readable(t, d) <==> WellKeyed(t, false, d)
    ensures GuardReadable(t, d) <==> WellKeyed(t, true, d)
  {
    hide Subtrees, AmbiguousKeys, UnguardedKeys, KeysFine;
    KeysFineExact(t, false, d);
    KeysFineExact(t, true, d);
  }

  /** An optional patch whose target is missing does nothing; every other one is written, or refused. */
  lemma PatchExact(fs: Files, p: Patch, d: Decoder)
    requires |p.path| > 0
    ensures PatchFile(fs, p, d).Some? <==>
      && p.file in fs
      && (p.ifPresent ==> WellKeyed(fs[p.file], true, d) && Read(fs[p.file], p.path) != Blocked)
      && ((p.ifPresent && Read(fs[p.file], p.path) == Missing)
          || (WellKeyed(fs[p.file], false, d) && Write(fs[p.file], p.path, p.value, Patching).Some?))
    ensures PatchFile(fs, p, d).Some? && p.ifPresent && Read(fs[p.file], p.path) == Missing ==>
      PatchFile(fs, p, d).value == fs
    ensures PatchFile(fs, p, d).Some? && !(p.ifPresent && Read(fs[p.file], p.path) == Missing) ==>
      PatchFile(fs, p, d).value == fs[p.file := Write(fs[p.file], p.path, p.value, Patching).value]
  {
    hide WellKeyed, Write, Read;
    if p.file in fs { ReadableExact(fs[p.file], d); }
  }

  /** Before anything is written, a guard that may not create finds a scalar in a guarded document. */
  lemma PresentExact(fs: Files, g: Guard, d: Decoder)
    requires |g.path| > 0
    ensures Present(fs, g, d) <==>
      && g.file in fs && WellKeyed(fs[g.file], true, d)
      && exists v :: Read(fs[g.file], g.path) == At(v) && v.kind == ScalarKind
  {
    hide WellKeyed, Read;
    if g.file in fs { ReadableExact(fs[g.file], d); }
  }

  /** In the end a guard is verified when its place holds a scalar of the guarded identifier. */
  lemma VerifiedMeans(fs: Files, g: Guard, d: Decoder)
    requires |g.path| > 0 && GuardValue(g.value, d)
    ensures Verified(fs, g, d) <==>
      && g.file in fs && WellKeyed(fs[g.file], true, d)
      && exists v ::
        && Read(fs[g.file], g.path) == At(v) && v.kind == ScalarKind
        && d.identify(v.tag, v.value) == d.identify(g.value.tag, g.value.value)
  {
    hide WellKeyed, Read;
    if g.file in fs { ReadableExact(fs[g.file], d); }
  }

  /** Guards that ask for different values of one place are never both verified. */
  lemma ConflictNotVerified(fs: Files, g: Guard, h: Guard, d: Decoder)
    requires |g.path| > 0 && g.file == h.file && g.path == h.path
    requires d.identify(g.value.tag, g.value.value) != d.identify(h.value.tag, h.value.value)
    ensures !Verified(fs, g, d) || !Verified(fs, h, d)
  {
    hide GuardReadable, Read;
  }

  ghost predicate Documents(fs: Files) {
    forall f | f in fs :: Plain(fs[f]) && Paired(fs[f])
  }

  // ---- What the fold keeps ----

  lemma {:induction false} WritePlain(t: Tree, p: Path, v: Tree, m: Mode)
    requires |p| > 0 && Plain(t) && Plain(v) && Write(t, p, v, m).Some?
    ensures Plain(Write(t, p, v, m).value)
    decreases |p|
  {
    var i := Position(t.children, p[0], 0);
    if i < 0 { BuiltPlain(p[1..], v); }
    else if |p| > 1 { WritePlain(t.children[i + 1], p[1..], v, m); }
  }

  lemma {:induction false} BuiltPlain(p: Path, v: Tree)
    requires Plain(v)
    ensures Plain(Built(p, v))
    decreases |p|
  {
    if p != [] { BuiltPlain(p[1..], v); }
  }

  lemma PatchKeepsDocuments(fs: Files, p: Patch, d: Decoder)
    requires |p.path| > 0 && Plain(p.value) && Paired(p.value) && Documents(fs) && PatchFile(fs, p, d).Some?
    ensures Documents(PatchFile(fs, p, d).value) && PatchFile(fs, p, d).value.Keys == fs.Keys
  {
    if PatchFile(fs, p, d).value != fs {
      WritePlain(fs[p.file], p.path, p.value, Patching);
      WritePaired(fs[p.file], p.path, p.value, Patching);
    }
  }

  lemma GuardKeepsDocuments(fs: Files, g: Guard, d: Decoder)
    requires |g.path| > 0 && GuardValue(g.value, d) && Documents(fs) && GuardFile(fs, g, d).Some?
    ensures Documents(GuardFile(fs, g, d).value) && GuardFile(fs, g, d).value.Keys == fs.Keys
  {
    WritePlain(fs[g.file], g.path, g.value, Guarding(g.allowCreate));
    WritePaired(fs[g.file], g.path, g.value, Guarding(g.allowCreate));
  }

  lemma {:induction false} PatchesKeepDocuments(fs: Files, ps: seq<Patch>, d: Decoder)
    requires PatchesFit(ps) && Documents(fs) && ApplyPatches(fs, ps, d).Some?
    ensures Documents(ApplyPatches(fs, ps, d).value) && ApplyPatches(fs, ps, d).value.Keys == fs.Keys
  {
    if ps != [] {
      PatchesKeepDocuments(fs, ps[..|ps| - 1], d);
      PatchKeepsDocuments(ApplyPatches(fs, ps[..|ps| - 1], d).value, ps[|ps| - 1], d);
    }
  }

  lemma {:induction false} GuardsKeepDocuments(fs: Files, gs: seq<Guard>, d: Decoder)
    requires GuardsFit(gs, d) && Documents(fs) && ApplyGuards(fs, gs, d).Some?
    ensures Documents(ApplyGuards(fs, gs, d).value) && ApplyGuards(fs, gs, d).value.Keys == fs.Keys
  {
    if gs != [] {
      GuardsKeepDocuments(fs, gs[..|gs| - 1], d);
      GuardKeepsDocuments(ApplyGuards(fs, gs[..|gs| - 1], d).value, gs[|gs| - 1], d);
    }
  }

  // ---- A later layer wins ----

  predicate Overlap(f: string, p: Path, g: string, q: Path) {
    f == g && Comparable(p, q)
  }

  /** A patch that no later patch overlaps is what the patched file says at its path. */
  lemma {:induction false} LaterPatchWins(fs: Files, ps: seq<Patch>, d: Decoder, i: nat)
    requires PatchesFit(ps) && Documents(fs) && ApplyPatches(fs, ps, d).Some? && i < |ps|
    requires ApplyPatches(fs, ps[..i], d).Some? && PatchLands(ApplyPatches(fs, ps[..i], d).value, ps[i])
    requires forall j | i < j < |ps| :: !Overlap(ps[i].file, ps[i].path, ps[j].file, ps[j].path)
    ensures var us := ApplyPatches(fs, ps, d).value;
      ps[i].file in us && Read(us[ps[i].file], ps[i].path) == At(ps[i].value)
  {
    hide KeysFine, Plain, Paired, Read, Write;
    var n := |ps| - 1;
    var init := ps[..n];
    PatchesKeepDocuments(fs, init, d);
    var us := ApplyPatches(fs, init, d).value;
    if i == n {
      ReadBack(us[ps[n].file], ps[n].path, ps[n].value, Patching);
    } else {
      assert init[..i] == ps[..i] && init[i] == ps[i];
      LaterPatchWins(fs, init, d, i);
      if ps[n].file == ps[i].file && PatchFile(us, ps[n], d).value != us {
        ReadElsewhere(us[ps[n].file], ps[n].path, ps[n].value, Patching, ps[i].path);
      }
    }
  }

  /** The patch is not one of those that are skipped because their target is missing. */
  predicate PatchLands(fs: Files, p: Patch)
    requires |p.path| > 0
  {
    p.ifPresent && p.file in fs ==> Read(fs[p.file], p.path).At?
  }

  /** A path no patch overlaps reads as it did before all of them. */
  lemma {:induction false} PatchesElsewhere(fs: Files, ps: seq<Patch>, d: Decoder, f: string, q: Path)
    requires PatchesFit(ps) && Documents(fs) && ApplyPatches(fs, ps, d).Some? && f in fs && |q| > 0
    requires forall j | 0 <= j < |ps| :: !Overlap(f, q, ps[j].file, ps[j].path)
    ensures f in ApplyPatches(fs, ps, d).value && Read(ApplyPatches(fs, ps, d).value[f], q) == Read(fs[f], q)
  {
    hide KeysFine, Plain, Paired, Read, Write;
    if ps != [] {
      var n := |ps| - 1;
      PatchesKeepDocuments(fs, ps[..n], d);
      PatchesElsewhere(fs, ps[..n], d, f, q);
      var us := ApplyPatches(fs, ps[..n], d).value;
      if ps[n].file == f && PatchFile(us, ps[n], d).value != us {
        ReadElsewhere(us[f], ps[n].path, ps[n].value, Patching, q);
      }
    }
  }

  // ---- Guards hold in the end ----

  /** Two guards agree when they cannot disturb each other: apart, or the same path and value. */
  predicate Agree(g: Guard, h: Guard) {
    !Overlap(g.file, g.path, h.file, h.path) || (g.path == h.path && g.value == h.value)
  }

  lemma {:induction false} GuardsHold(fs: Files, gs: seq<Guard>, d: Decoder, i: nat)
    requires GuardsFit(gs, d) && Documents(fs) && ApplyGuards(fs, gs, d).Some? && i < |gs|
    requires forall j, k | 0 <= j < |gs| && 0 <= k < |gs| :: Agree(gs[j], gs[k])
    ensures var us := ApplyGuards(fs, gs, d).value;
      gs[i].file in us && us[gs[i].file].kind == MappingKind && Read(us[gs[i].file], gs[i].path) == At(gs[i].value)
  {
    hide KeysFine, Plain, Paired, Read, Write;
    var n := |gs| - 1;
    var g, init, m := gs[n], gs[..n], Guarding(gs[n].allowCreate);
    GuardsKeepDocuments(fs, init, d);
    var us := ApplyGuards(fs, init, d).value;
    ReadBack(us[g.file], g.path, g.value, m);
    if i < n {
      assert forall j | 0 <= j < n :: init[j] == gs[j];
      GuardsHold(fs, init, d, i);
      assert Agree(gs[i], gs[n]);
      if g.file == gs[i].file && g.path != gs[i].path {
        ReadElsewhere(us[g.file], g.path, g.value, m, gs[i].path);
      }
    }
  }

  /**
   Once all guards were applied, whatever the patches wrote, their verification succeeds just when
   every guarded file can still be read as a guarded document.
   */
  lemma VerificationExact(fs: Files, gs: seq<Guard>, d: Decoder)
    requires GuardsFit(gs, d) && Documents(fs) && ApplyGuards(fs, gs, d).Some?
    requires forall j, k | 0 <= j < |gs| && 0 <= k < |gs| :: Agree(gs[j], gs[k])
    ensures var us := ApplyGuards(fs, gs, d).value;
      (forall i | 0 <= i < |gs| :: Verified(us, gs[i], d)) <==>
        forall i | 0 <= i < |gs| :: gs[i].file in us && GuardReadable(us[gs[i].file], d)
  {
    var us := ApplyGuards(fs, gs, d).value;
    forall i | 0 <= i < |gs|
      ensures Verified(us, gs[i], d) <==> gs[i].file in us && GuardReadable(us[gs[i].file], d)
    {
      GuardsHold(fs, gs, d, i);
    }
  }

  /** A guard leaves its file readable just when what it creates does not clash with a key that is there. */
  lemma GuardLeavesReadable(fs: Files, g: Guard, d: Decoder)
    requires Sane(d) && |g.path| > 0 && GuardValue(g.value, d) && Documents(fs) && GuardFile(fs, g, d).Some?
    ensures GuardReadable(GuardFile(fs, g, d).value[g.file], d) <==> !Clashes(fs[g.file], g.path, d)
  {
    var m := Guarding(g.allowCreate);
    ReadBack(fs[g.file], g.path, g.value, m);
    WriteKeepsGuarded(fs[g.file], g.path, g.value, m, d);
  }

  /** A guard touches its own file only. */
  lemma GuardTouches(fs: Files, g: Guard, d: Decoder)
    requires |g.path| > 0 && GuardFile(fs, g, d).Some?
    ensures var us := GuardFile(fs, g, d).value;
      g.file in fs && us.Keys == fs.Keys && forall f | f in fs && f != g.file :: us[f] == fs[f]
  {
  }

  /** Writing at `q` cannot disturb any guard of the file `f`. */
  predicate Beside(gs: seq<Guard>, f: string, q: Path) {
    forall i | 0 <= i < |gs| && gs[i].file == f :: gs[i].path == q || !Comparable(gs[i].path, q)
  }

  predicate AllAgree(gs: seq<Guard>) {
    forall j, k | 0 <= j < |gs| && 0 <= k < |gs| :: Agree(gs[j], gs[k])
  }

  /** No guard of the file `f` has to create a key that clashes in the tree `t`. */
  ghost predicate NoneClash(t: Tree, gs: seq<Guard>, f: string, d: Decoder)
    requires GuardsFit(gs, d)
  {
    forall i | 0 <= i < |gs| && gs[i].file == f :: !Clashes(t, gs[i].path, d)
  }

  lemma NoneClashStep(t: Tree, gs: seq<Guard>, f: string, d: Decoder)
    requires GuardsFit(gs, d) && gs != []
    ensures var n := |gs| - 1;
      GuardsFit(gs[..n], d)
        && (NoneClash(t, gs, f, d) <==> NoneClash(t, gs[..n], f, d) && (gs[n].file == f ==> !Clashes(t, gs[n].path, d)))
  {
    hide Clashes, GuardValue;
    var init := gs[..|gs| - 1];
    assert forall i | 0 <= i < |init| :: init[i] == gs[i];
  }

  lemma AgreeingPrefix(gs: seq<Guard>, f: string, q: Path)
    requires AllAgree(gs) && gs != [] && Beside(gs, f, q)
    ensures var n := |gs| - 1;
      AllAgree(gs[..n]) && Beside(gs[..n], f, q) && Beside(gs[..n], gs[n].file, gs[n].path)
      && (gs[n].file == f ==> gs[n].path == q || !Comparable(gs[n].path, q))
  {
    var init := gs[..|gs| - 1];
    assert forall i | 0 <= i < |init| :: init[i] == gs[i] && Agree(gs[i], gs[|gs| - 1]);
  }

  /** Whether agreeing guards clash can be told from the file as it was before all of them. */
  lemma {:induction false} GuardsClash(fs: Files, gs: seq<Guard>, d: Decoder, f: string, q: Path)
    requires Sane(d) && GuardsFit(gs, d) && Documents(fs) && ApplyGuards(fs, gs, d).Some?
    requires AllAgree(gs) && f in fs && |q| > 0 && Beside(gs, f, q)
    ensures var us := ApplyGuards(fs, gs, d).value;
      && f in us && (GuardReadable(us[f], d) <==> GuardReadable(fs[f], d) && NoneClash(fs[f], gs, f, d))
      && (GuardReadable(us[f], d) ==> (Clashes(us[f], q, d) <==> Clashes(fs[f], q, d)))
  {
    hide GuardReadable, Clashes, Documents, GuardValue, Sane, AllAgree, Beside, NoneClash, Write, GuardFile;
    if gs == [] {
      assert NoneClash(fs[f], gs, f, d) by { NothingClashes(fs[f], gs, f, d); }
    } else {
      var n := |gs| - 1;
      var g, us := gs[n], ApplyGuards(fs, gs[..n], d).value;
      AgreeingPrefix(gs, f, q);
      NoneClashStep(fs[f], gs, f, d);
      GuardsKeepDocuments(fs, gs[..n], d);
      GuardTouches(us, g, d);
      GuardsClash(fs, gs[..n], d, f, q);
      if g.file == f {
        GuardsClash(fs, gs[..n], d, f, g.path);
        GuardLeavesReadable(us, g, d);
        if !Clashes(us[f], g.path, d) { GuardKeepsClashes(us, g, d, q); }
      }
    }
  }

  lemma NothingClashes(t: Tree, gs: seq<Guard>, f: string, d: Decoder)
    requires gs == []
    ensures GuardsFit(gs, d) && NoneClash(t, gs, f, d)
  {
  }

  lemma GuardKeepsClashes(fs: Files, g: Guard, d: Decoder, q: Path)
    requires Sane(d) && |g.path| > 0 && |q| > 0 && GuardValue(g.value, d) && Documents(fs) && GuardFile(fs, g, d).Some?
    requires !Clashes(fs[g.file], g.path, d) && (g.path == q || !Comparable(g.path, q))
    ensures GuardReadable(fs[g.file], d)
    ensures Clashes(GuardFile(fs, g, d).value[g.file], q, d) <==> Clashes(fs[g.file], q, d)
  {
    WriteKeepsClashes(fs[g.file], g.path, g.value, Guarding(g.allowCreate), q, d);
  }

  /**
   After pairwise agreeing guards went in, the verification of all of them fails in one case only:
   in the file as it was, some guard would have to create a merge key or a key that reads like one
   that is there.
   */
  lemma VerificationFailsOnClash(fs: Files, gs: seq<Guard>, d: Decoder)
    requires Sane(d) && GuardsFit(gs, d) && Documents(fs) && ApplyGuards(fs, gs, d).Some?
    requires forall j, k | 0 <= j < |gs| && 0 <= k < |gs| :: Agree(gs[j], gs[k])
    ensures forall i | 0 <= i < |gs| :: gs[i].file in fs
    ensures (forall i | 0 <= i < |gs| :: Verified(ApplyGuards(fs, gs, d).value, gs[i], d)) <==>
            (forall i | 0 <= i < |gs| :: !Clashes(fs[gs[i].file], gs[i].path, d))
  {
    hide GuardReadable, Verified, Agree, ApplyGuards, Clashes, Sane, Documents, Beside, GuardValue;
    VerificationExact(fs, gs, d);
    var us := ApplyGuards(fs, gs, d).value;
    forall i | 0 <= i < |gs|
      ensures gs[i].file in us && gs[i].file in fs
      ensures GuardReadable(us[gs[i].file], d) <==> NoneClash(fs[gs[i].file], gs, gs[i].file, d)
    {
      GuardedWasReadable(fs, gs, d, i);
      assert Beside(gs, gs[i].file, gs[i].path) by { BesideOwn(gs, i); }
      GuardsClash(fs, gs, d, gs[i].file, gs[i].path);
    }
  }

  lemma BesideOwn(gs: seq<Guard>, i: nat)
    requires i < |gs| && forall j, k | 0 <= j < |gs| && 0 <= k < |gs| :: Agree(gs[j], gs[k])
    ensures Beside(gs, gs[i].file, gs[i].path)
  {
    forall j | 0 <= j < |gs| && gs[j].file == gs[i].file
      ensures gs[j].path == gs[i].path || !Comparable(gs[j].path, gs[i].path)
    {
      assert Agree(gs[j], gs[i]);
    }
  }

  /** A guard can only have gone in where its file could be read as a guarded document all along. */
  lemma {:induction false} GuardedWasReadable(fs: Files, gs: seq<Guard>, d: Decoder, i: nat)
    requires Sane(d) && GuardsFit(gs, d) && Documents(fs) && ApplyGuards(fs, gs, d).Some? && i < |gs|
    requires forall j, k | 0 <= j < |gs| && 0 <= k < |gs| :: Agree(gs[j], gs[k])
    ensures gs[i].file in fs && gs[i].file in ApplyGuards(fs, gs, d).value && GuardReadable(fs[gs[i].file], d)
  {
    hide GuardReadable, Clashes, Documents, GuardValue, Sane, Agree, Beside, NoneClash, Write;
    var n := |gs| - 1;
    GuardsKeepDocuments(fs, gs, d);
    GuardsKeepDocuments(fs, gs[..n], d);
    assert forall j | 0 <= j < n :: gs[..n][j] == gs[j];
    if i < n {
      GuardedWasReadable(fs, gs[..n], d, i);
    } else {
      BesideOwn(gs, n);
      AgreeingPrefix(gs, gs[n].file, gs[n].path);
      GuardsClash(fs, gs[..n], d, gs[n].file, gs[n].path);
    }
  }

  const PORT := Tree(ScalarKind, "!!int", "8080", [])
  const NAME := Tree(ScalarKind, "!!str", "x", [])

  /** Reading every scalar as its own text, marked with its tag. */
  const LITERAL := Decoder(
    (tag: string, value: string) => Some(if tag == "!!str" then "s" + value else "o" + tag + value),
    (tag: string, value: string) => Some(value))

  /** This is one of the decoders the theorems are about, the integer key 8080 included. */
  lemma LiteralIsSane()
    ensures Sane(LITERAL)
    ensures LITERAL.text("!!int", "8080") == Some("8080") && LITERAL.identify("!!int", "8080").Some?
  {
    forall v, tag, w | LITERAL.identify("!!str", v) == LITERAL.identify(tag, w) ensures tag == "!!str" && v == w {
      assert ("s" + v)[0] == 's' && ("o" + tag + w)[0] == 'o';
      assert ("s" + v)[1..] == v && ("s" + w)[1..] == w;
    }
  }

  /** A document keyed by the integer 8080 takes a guard at the path "8080", which then cannot be verified. */
  lemma SameTextFails(d: Decoder)
    requires Sane(d) && d.text("!!int", "8080") == Some("8080") && d.identify("!!int", "8080").Some?
    ensures var fs: Files := map["a" := Tree(MappingKind, "!!map", "", [PORT, NAME])];
      var g := Guard("a", ["8080"], NAME, true);
      && Documents(fs) && GuardsFit([g], d) && ApplyGuards(fs, [g], d).Some?
      && !Verified(ApplyGuards(fs, [g], d).value, g, d)
  {
    var t := Tree(MappingKind, "!!map", "", [PORT, NAME]);
    var fs: Files := map["a" := t];
    var g := Guard("a", ["8080"], NAME, true);
    assert [g][..0] == [] && [g][0] == g;
    assert Position(t.children, "8080", 0) == -1 by { assert Position(t.children, "8080", 2) == -1; }
    assert KeyAt(t.children, 0) == PORT && GuardKeys(t.children, d);
    assert HasText(t.children, "8080", d) && Clashes(t, ["8080"], d);
    assert GuardReadable(t, d);
    assert ApplyGuards(fs, [g], d) == GuardFile(fs, g, d);
    assert Plain(PORT) && Plain(NAME) && Paired(PORT) && Paired(NAME);
    GuardLeavesReadable(fs, g, d);
  }

  // ---- The whole materialization ----

  predicate FilesReadable(fs: Files, d: Decoder) {
    forall f | f in fs :: KeysFine(fs[f], false, d)
  }

  /**
   Materializes a staged configuration. It succeeds just when every step does, and then publishes
   the patches and guards applied one after the other.
   */
  method Materialize(staged: Files, patches: seq<Patch>, guards: seq<Guard>, d: Decoder)
    returns (published: Option<Files>)
    requires PatchesFit(patches) && GuardsFit(guards, d) && Documents(staged)
    ensures published.Some? <==>
      && (forall i | 0 <= i < |guards| && !guards[i].allowCreate :: Present(staged, guards[i], d))
      && ApplyPatches(staged, patches, d).Some?
      && ApplyGuards(ApplyPatches(staged, patches, d).value, guards, d).Some?
      && (forall i | 0 <= i < |guards| ::
        Verified(ApplyGuards(ApplyPatches(staged, patches, d).value, guards, d).value, guards[i], d))
      && FilesReadable(ApplyGuards(ApplyPatches(staged, patches, d).value, guards, d).value, d)
    ensures published.Some? ==> published == ApplyGuards(ApplyPatches(staged, patches, d).value, guards, d)
    ensures published.Some? ==> forall f | f in published.value ::
      forall m | m in Subtrees(published.value[f]) :: !AmbiguousKeys(m, d)
    ensures published.Some? ==> forall i, j | 0 <= i < |guards| && 0 <= j < |guards|
      && guards[i].file == guards[j].file && guards[i].path == guards[j].path ::
      d.identify(guards[i].value.tag, guards[i].value.value) == d.identify(guards[j].value.tag, guards[j].value.value)
  {
    hide Present, Verified, ApplyPatches, ApplyGuards, FilesReadable;
    for index := 0 to |guards|
      invariant forall i | 0 <= i < index && !guards[i].allowCreate :: Present(staged, guards[i], d)
    {
      if !guards[index].allowCreate && !Present(staged, guards[index], d) { return None; }
    }
    var files := PatchAll(staged, patches, d);
    if files.None? { return None; }
    PatchesKeepDocuments(staged, patches, d);
    files := GuardAll(files.value, guards, d);
    if files.None? { return None; }
    for index := 0 to |guards|
      invariant forall i | 0 <= i < index :: Verified(files.value, guards[i], d)
    {
      if !Verified(files.value, guards[index], d) { return None; }
    }
    if !FilesReadable(files.value, d) { return None; }
    published := files;
    FilesUnambiguous(published.value, d);
    NoConflict(published.value, guards, d);
  }

  lemma FilesUnambiguous(fs: Files, d: Decoder)
    ensures FilesReadable(fs, d) <==> forall f | f in fs :: forall m | m in Subtrees(fs[f]) :: !AmbiguousKeys(m, d)
  {
    hide Subtrees, AmbiguousKeys, KeysFine, UnguardedKeys;
    forall f | f in fs ensures KeysFine(fs[f], false, d) <==> forall m | m in Subtrees(fs[f]) :: !AmbiguousKeys(m, d) {
      KeysFineExact(fs[f], false, d);
    }
  }

  lemma NoConflict(fs: Files, gs: seq<Guard>, d: Decoder)
    requires GuardsFit(gs, d) && forall i | 0 <= i < |gs| :: Verified(fs, gs[i], d)
    ensures forall i, j | 0 <= i < |gs| && 0 <= j < |gs| && gs[i].file == gs[j].file && gs[i].path == gs[j].path ::
      d.identify(gs[i].value.tag, gs[i].value.value) == d.identify(gs[j].value.tag, gs[j].value.value)
  {
    hide Verified, GuardValue;
    forall i, j | 0 <= i < |gs| && 0 <= j < |gs| && gs[i].file == gs[j].file && gs[i].path == gs[j].path
      ensures d.identify(gs[i].value.tag, gs[i].value.value) == d.identify(gs[j].value.tag, gs[j].value.value)
    {
      if d.identify(gs[i].value.tag, gs[i].value.value) != d.identify(gs[j].value.tag, gs[j].value.value) {
        ConflictNotVerified(fs, gs[i], gs[j], d);
      }
    }
  }

  method PatchAll(staged: Files, patches: seq<Patch>, d: Decoder) returns (result: Option<Files>)
    requires PatchesFit(patches) && Documents(staged)
    ensures result == ApplyPatches(staged, patches, d)
  {
    var files := staged;
    for index := 0 to |patches|
      invariant ApplyPatches(staged, patches[..index], d) == Some(files) && Documents(files)
    {
      var p := patches[index];
      assert patches[..index + 1][..index] == patches[..index];
      if PatchFile(files, p, d).None? { PrefixPatches(staged, patches, d, index + 1); }
      if p.file !in files { return None; }
      if p.ifPresent && !GuardReadable(files[p.file], d) { return None; }
      if p.ifPresent && Read(files[p.file], p.path).Blocked? { return None; }
      if !p.ifPresent || !Read(files[p.file], p.path).Missing? {
        if !Readable(files[p.file], d) { return None; }
        var edited := EditDocument(files[p.file], p.path, p.value, Patching);
        if edited.None? { return None; }
        PatchKeepsDocuments(files, p, d);
        files := files[p.file := edited.value];
      }
    }
    assert patches[..|patches|] == patches;
    result := Some(files);
  }

  lemma {:induction false} PrefixPatches(fs: Files, ps: seq<Patch>, d: Decoder, i: nat)
    requires PatchesFit(ps) && i <= |ps| && ApplyPatches(fs, ps[..i], d).None?
    ensures ApplyPatches(fs, ps, d).None?
  {
    if i == |ps| { assert ps[..i] == ps; } else {
      assert ps[..|ps| - 1][..i] == ps[..i];
      PrefixPatches(fs, ps[..|ps| - 1], d, i);
    }
  }

  lemma {:induction false} PrefixGuards(fs: Files, gs: seq<Guard>, d: Decoder, i: nat)
    requires GuardsFit(gs, d) && i <= |gs| && ApplyGuards(fs, gs[..i], d).None?
    ensures ApplyGuards(fs, gs, d).None?
  {
    if i == |gs| { assert gs[..i] == gs; } else {
      assert gs[..|gs| - 1][..i] == gs[..i];
      PrefixGuards(fs, gs[..|gs| - 1], d, i);
    }
  }

  method GuardAll(staged: Files, guards: seq<Guard>, d: Decoder) returns (result: Option<Files>)
    requires GuardsFit(guards, d) && Documents(staged)
    ensures result == ApplyGuards(staged, guards, d)
  {
    var files := staged;
    for index := 0 to |guards|
      invariant ApplyGuards(staged, guards[..index], d) == Some(files) && Documents(files)
    {
      var g := guards[index];
      assert guards[..index + 1][..index] == guards[..index];
      if GuardFile(files, g, d).None? { PrefixGuards(staged, guards, d, index + 1); }
      if g.file !in files || !GuardReadable(files[g.file], d) { return None; }
      var edited := EditDocument(files[g.file], g.path, g.value, Guarding(g.allowCreate));
      if edited.None? { return None; }
      GuardKeepsDocuments(files, g, d);
      files := files[g.file := edited.value];
    }
    assert guards[..|guards|] == guards;
    result := Some(files);
  }
}
