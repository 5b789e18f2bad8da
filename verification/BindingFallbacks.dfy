/** Completing a remote document with bindings that only the repository defines. */
module BindingFallbacks {
  import opened Options
  import opened YamlNodes
  import opened YamlPaths
  import opened RpcRoutes

  datatype Fallback = Fallback(binding: string, endpointKey: string, keyUnknown: bool)

  datatype Origin = Preserved(binding: string) | FromRepository(binding: string)

  /** Documents as `bindingDocument` yields them: a mapping, alias-free, with guarded keys. */
  ghost predicate BindingDocument(t: Tree, d: Decoder) {
    t.kind == MappingKind && Paired(t) && KeysFine(t, true, d)
  }

  function Extended(t: Tree, binding: string, v: Tree): Tree {
    t.(children := t.children + [Key(binding), v])
  }

  /** What the repository offers for a fallback, if anything. */
  function Offer(repository: Option<Tree>, f: Fallback): Option<Tree> {
    ValueIn(repository, f.binding)
  }

  function VerdictOf(v: Tree, f: Fallback, c: Checks): Verdict {
    Validate(Some(v), f.endpointKey, f.keyUnknown, c)
  }

  /** One fallback: keep a valid key, add an active offer, refuse an invalid one. */
  function MergeOne(t: Tree, repository: Option<Tree>, f: Fallback, c: Checks): Option<Tree> {
    var here := MappingValue(t, f.binding);
    var offer := Offer(repository, f);
    if f.binding == "" then None
    else if here.Some? then if VerdictOf(here.value, f, c) == Invalid then None else Some(t)
    else if offer.None? then Some(t)
    else match VerdictOf(offer.value, f, c)
      case Invalid => None
      case Inactive => Some(t)
      case Active => Some(Extended(t, f.binding, offer.value))
  }

  function Merged(t: Tree, repository: Option<Tree>, fs: seq<Fallback>, c: Checks): Option<Tree> {
    if fs == [] then Some(t)
    else
      var init := Merged(t, repository, fs[..|fs| - 1], c);
      if init.None? then None else MergeOne(init.value, repository, fs[|fs| - 1], c)
  }

  function OriginsOf(t: Tree, repository: Option<Tree>, fs: seq<Fallback>, c: Checks): seq<Origin> {
    if fs == [] then []
    else
      var init, f := fs[..|fs| - 1], fs[|fs| - 1];
      var before := Merged(t, repository, init, c);
      OriginsOf(t, repository, init, c) + (
        if before.None? then []
        else if MappingValue(before.value, f.binding).Some? then [Preserved(f.binding)]
        else if Offer(repository, f).Some? && VerdictOf(Offer(repository, f).value, f, c) == Active
          then [FromRepository(f.binding)]
        else [])
  }

  /** Appends to the root mapping of the remote document, fallback by fallback. */
  method MergeBindingFallbacks(apollo: Tree, repository: Option<Tree>, fallbacks: seq<Fallback>, c: Checks)
    returns (merged: Option<Tree>, origins: seq<Origin>)
    requires apollo.kind == MappingKind
    ensures merged == Merged(apollo, repository, fallbacks, c)
    ensures merged.Some? ==> origins == OriginsOf(apollo, repository, fallbacks, c)
  {
    var content := apollo.children;
    origins := [];
    for index := 0 to |fallbacks|
      invariant Merged(apollo, repository, fallbacks[..index], c) == Some(apollo.(children := content))
      invariant origins == OriginsOf(apollo, repository, fallbacks[..index], c)
    {
      var f := fallbacks[index];
      assert fallbacks[..index + 1][..index] == fallbacks[..index];
      if MergeOne(apollo.(children := content), repository, f, c).None? {
        PrefixMerged(apollo, repository, fallbacks, c, index + 1);
      }
      if f.binding == "" { return None, origins; }
      var position := Position(content, f.binding, 0);
      if position >= 0 {
        if VerdictOf(content[position + 1], f, c) == Invalid { return None, origins; }
        origins := origins + [Preserved(f.binding)];
      } else {
        var offer := Offer(repository, f);
        if offer.Some? {
          var verdict := VerdictOf(offer.value, f, c);
          if verdict == Invalid { return None, origins; }
          if verdict == Active {
            content := content + [Key(f.binding), offer.value];
            origins := origins + [FromRepository(f.binding)];
          }
        }
      }
    }
    assert fallbacks[..|fallbacks|] == fallbacks;
    merged := Some(apollo.(children := content));
  }

  lemma {:induction false} PrefixMerged(t: Tree, repository: Option<Tree>, fs: seq<Fallback>, c: Checks, i: nat)
    requires i <= |fs| && Merged(t, repository, fs[..i], c).None?
    ensures Merged(t, repository, fs, c).None?
  {
    if i == |fs| { assert fs[..i] == fs; } else {
      assert fs[..|fs| - 1][..i] == fs[..i];
      PrefixMerged(t, repository, fs[..|fs| - 1], c, i);
    }
  }

  lemma ValueAfterExtending(t: Tree, binding: string, v: Tree, key: string)
    requires t.kind == MappingKind && |t.children| % 2 == 0
    ensures MappingValue(Extended(t, binding, v), key) ==
      if MappingValue(t, key).Some? then MappingValue(t, key) else if key == binding then Some(v) else None
  {
    PositionAppended(t.children, key, 0, Key(binding), v);
  }

  /** Some request for `key` found the repository's value active. */
  ghost predicate Requested(key: string, repository: Option<Tree>, fs: seq<Fallback>, c: Checks) {
    exists i | 0 <= i < |fs| :: Asks(key, repository, fs[i], c)
  }

  /** This request is for `key`, and finds the repository's value active. */
  predicate Asks(key: string, repository: Option<Tree>, f: Fallback, c: Checks) {
    f.binding == key && Offer(repository, f).Some? && VerdictOf(Offer(repository, f).value, f, c) == Active
  }

  /**
   Merging is a conservative extension: every entry of the remote document keeps its place and value,
   and a key that was absent is present afterwards, with the repository's value, just when it was
   requested and active there.
   */
  lemma {:induction false} MergeConservative(t: Tree, repository: Option<Tree>, fs: seq<Fallback>, c: Checks,
    key: string)
    requires t.kind == MappingKind && |t.children| % 2 == 0 && Merged(t, repository, fs, c).Some?
    ensures var u := Merged(t, repository, fs, c).value;
      && t.children <= u.children && |u.children| % 2 == 0 && u == t.(children := u.children)
      && MappingValue(u, key) ==
        if MappingValue(t, key).Some? then MappingValue(t, key)
        else if Requested(key, repository, fs, c) then ValueIn(repository, key)
        else None
  {
    hide VerdictOf, Requested, MappingValue, MergeOne;
    if fs != [] {
      var n := |fs| - 1;
      var init, f := fs[..n], fs[n];
      MergeConservative(t, repository, init, c, key);
      MergeConservative(t, repository, init, c, f.binding);
      var u := Merged(t, repository, init, c).value;
      MergeOneStep(u, repository, f, c, key);
      RequestedStep(key, repository, fs, c);
    } else {
      NothingRequested(key, repository, fs, c);
    }
  }

  lemma MergeOneStep(t: Tree, repository: Option<Tree>, f: Fallback, c: Checks, key: string)
    requires t.kind == MappingKind && |t.children| % 2 == 0 && MergeOne(t, repository, f, c).Some?
    ensures var u := MergeOne(t, repository, f, c).value;
      && t.children <= u.children && |u.children| % 2 == 0 && u == t.(children := u.children)
      && MappingValue(u, key) ==
        if MappingValue(t, key).Some? then MappingValue(t, key)
        else if f.binding == key && Offer(repository, f).Some? && VerdictOf(Offer(repository, f).value, f, c) == Active
          then Offer(repository, f)
        else None
  {
    hide VerdictOf;
    if Adds(t, repository, f, c) { ValueAfterExtending(t, f.binding, Offer(repository, f).value, key); }
  }

  lemma NothingRequested(key: string, repository: Option<Tree>, fs: seq<Fallback>, c: Checks)
    requires fs == []
    ensures !Requested(key, repository, fs, c)
  {
  }

  lemma RequestedStep(key: string, repository: Option<Tree>, fs: seq<Fallback>, c: Checks)
    requires fs != []
    ensures var f := fs[|fs| - 1];
      Requested(key, repository, fs, c) <==> (
        || Requested(key, repository, fs[..|fs| - 1], c)
        || (f.binding == key && Offer(repository, f).Some? && VerdictOf(Offer(repository, f).value, f, c) == Active))
  {
    hide VerdictOf, Offer;
    var n := |fs| - 1;
    var init := fs[..n];
    assert forall i | 0 <= i < n :: init[i] == fs[i];
    if Requested(key, repository, init, c) {
      var i :| 0 <= i < n && Asks(key, repository, init[i], c);
      assert Asks(key, repository, fs[i], c);
    }
    if Requested(key, repository, fs, c) {
      var i :| 0 <= i < |fs| && Asks(key, repository, fs[i], c);
      if i < n { assert Asks(key, repository, init[i], c); }
    }
  }

  /** Every request for a key that is present in the end was checked, and found valid. */
  lemma {:induction false} MergeChecks(t: Tree, repository: Option<Tree>, fs: seq<Fallback>, c: Checks, i: nat)
    requires t.kind == MappingKind && |t.children| % 2 == 0 && Merged(t, repository, fs, c).Some? && i < |fs|
    ensures var v := MappingValue(Merged(t, repository, fs, c).value, fs[i].binding);
      fs[i].binding != "" && (v.Some? ==> VerdictOf(v.value, fs[i], c) != Invalid)
      && (v.None? && Offer(repository, fs[i]).Some? ==> VerdictOf(Offer(repository, fs[i]).value, fs[i], c) == Inactive)
  {
    hide Validate, MappingValue, Requested;
    var n := |fs| - 1;
    MergeConservative(t, repository, fs[..n], c, fs[n].binding);
    MergeConservative(t, repository, fs[..n], c, fs[i].binding);
    MergeConservative(t, repository, fs, c, fs[i].binding);
    RequestedStep(fs[i].binding, repository, fs, c);
    if i < n {
      assert fs[..n][i] == fs[i];
      MergeChecks(t, repository, fs[..n], c, i);
    }
  }

  /** Merging succeeds just when every request names a binding and finds it valid, there or in the repository. */
  lemma {:induction false} MergeSucceeds(t: Tree, repository: Option<Tree>, fs: seq<Fallback>, c: Checks)
    requires t.kind == MappingKind && |t.children| % 2 == 0
    ensures Merged(t, repository, fs, c).Some? <==>
      forall i | 0 <= i < |fs| ::
        && fs[i].binding != ""
        && var here := MappingValue(t, fs[i].binding);
        var v := if here.Some? then here else ValueIn(repository, fs[i].binding);
        v.Some? ==> VerdictOf(v.value, fs[i], c) != Invalid
  {
    hide Validate, MappingValue, Requested;
    if fs != [] {
      var n := |fs| - 1;
      var init := fs[..n];
      MergeSucceeds(t, repository, init, c);
      assert forall i | 0 <= i < n :: init[i] == fs[i];
      if Merged(t, repository, init, c).Some? { MergeConservative(t, repository, init, c, fs[n].binding); }
    }
  }

  /** The first route such a mapping configures is complete, whatever the later ones hold. */
  ghost predicate FirstRouteComplete(s: Setting, f: Fallback, c: Checks) {
    if s.discovType == "consul" then ConsulUsable(s, c)
    else
      && s.discovType in {"", "etcd"}
      && (f.keyUnknown ==> s.endpoints == [] && s.endpints == [])
      && if !f.keyUnknown && Direct(s, f.endpointKey) != [] then
           forall a | a in Direct(s, f.endpointKey) :: c.address(a)
         else if s.target != "" then c.address(s.target)
         else EtcdUsable(s, c)
  }

  lemma CompleteIsActive(v: Tree, s: Setting, f: Fallback, c: Checks)
    requires WellTyped(v, s, c) && v.tag != NULL_TAG && f.endpointKey in {"endpoints", "endpints"}
    requires FirstRouteComplete(s, f, c)
    ensures VerdictOf(v, f, c) == Active
  {
    hide WellTyped, ConsulUsable, EtcdUsable, Validate;
    if s.discovType == "consul" { ConsulDecides(v, s, f.endpointKey, f.keyUnknown, c); }
    else if !f.keyUnknown && Direct(s, f.endpointKey) != [] { EndpointsDecide(v, s, f.endpointKey, f.keyUnknown, c); }
    else if s.target != "" { TargetDecides(v, s, f.endpointKey, f.keyUnknown, c); }
    else {
      assert s.etcd.Some? && s.etcd.value.hosts != [] by { UsableHasHosts(s, c); }
      EtcdDecides(v, s, f.endpointKey, f.keyUnknown, c);
    }
  }

  lemma UsableHasHosts(s: Setting, c: Checks)
    requires EtcdUsable(s, c)
    ensures s.etcd.Some? && s.etcd.value.hosts != []
  {
  }

  /** A requested binding that is absent and whose first route is complete in the repository comes in as it is there. */
  lemma CompleteRouteAdded(t: Tree, repository: Option<Tree>, fs: seq<Fallback>, c: Checks, i: nat, v: Tree, s: Setting)
    requires t.kind == MappingKind && |t.children| % 2 == 0 && Merged(t, repository, fs, c).Some?
    requires i < |fs| && fs[i].endpointKey in {"endpoints", "endpints"} && MappingValue(t, fs[i].binding).None?
    requires ValueIn(repository, fs[i].binding) == Some(v) && v.tag != "!!null"
    requires WellTyped(v, s, c) && FirstRouteComplete(s, fs[i], c)
    ensures MappingValue(Merged(t, repository, fs, c).value, fs[i].binding) == Some(v)
    ensures FromRepository(fs[i].binding) in OriginsOf(t, repository, fs, c)
  {
    hide WellTyped, FirstRouteComplete, Validate, MappingValue;
    CompleteIsActive(v, s, fs[i], c);
    assert Requested(fs[i].binding, repository, fs, c);
    MergeConservative(t, repository, fs, c, fs[i].binding);
    OriginsExact(t, repository, fs, c, fs[i].binding);
  }

  /** The first `n` requests have brought this binding in, or it was there. */
  ghost predicate Present(t: Tree, repository: Option<Tree>, fs: seq<Fallback>, c: Checks, n: nat, key: string)
    requires n <= |fs|
  {
    MappingValue(t, key).Some? || Requested(key, repository, fs[..n], c)
  }

  /**
   The report says where each binding comes from: the repository's are those that were absent and
   requested while active, each told once, the preserved ones those requested while already present.
   */
  lemma {:induction false} OriginsExact(t: Tree, repository: Option<Tree>, fs: seq<Fallback>, c: Checks, key: string)
    requires t.kind == MappingKind && |t.children| % 2 == 0 && Merged(t, repository, fs, c).Some?
    ensures multiset(OriginsOf(t, repository, fs, c))[FromRepository(key)] ==
      if MappingValue(t, key).None? && Requested(key, repository, fs, c) then 1 else 0
    ensures Preserved(key) in OriginsOf(t, repository, fs, c) <==>
      exists n | 0 <= n < |fs| :: fs[n].binding == key && Present(t, repository, fs, c, n, key)
  {
    hide VerdictOf, MappingValue, Requested, OriginsOf, MergeOne, Present, Offer;
    if fs == [] {
      NothingRequested(key, repository, fs, c);
      assert OriginsOf(t, repository, fs, c) == [] by { NoOrigins(t, repository, fs, c); }
    } else {
      var n := |fs| - 1;
      var init := fs[..n];
      var u := Merged(t, repository, init, c).value;
      OriginsExact(t, repository, init, c, key);
      OriginsStep(t, repository, fs, c, key);
      MergeConservative(t, repository, init, c, key);
      RequestedStep(key, repository, fs, c);
      PresentOrder(t, repository, fs, c, key);
      PresentNow(t, repository, init, c, key);
    }
  }

  lemma NoOrigins(t: Tree, repository: Option<Tree>, fs: seq<Fallback>, c: Checks)
    requires fs == []
    ensures OriginsOf(t, repository, fs, c) == []
  {
  }

  lemma OriginsStep(t: Tree, repository: Option<Tree>, fs: seq<Fallback>, c: Checks, key: string)
    requires fs != [] && Merged(t, repository, fs[..|fs| - 1], c).Some?
    ensures var init, f := fs[..|fs| - 1], fs[|fs| - 1];
      var u := Merged(t, repository, init, c).value;
      var before, after := OriginsOf(t, repository, init, c), OriginsOf(t, repository, fs, c);
      && (Preserved(key) in after <==>
            Preserved(key) in before || (f.binding == key && MappingValue(u, key).Some?))
      && multiset(after)[FromRepository(key)] == multiset(before)[FromRepository(key)] +
        if f.binding == key && MappingValue(u, key).None? && Offer(repository, f).Some?
          && VerdictOf(Offer(repository, f).value, f, c) == Active then 1 else 0
  {
    hide VerdictOf, MappingValue, Offer, Merged, MergeOne;
    var before, after := OriginsOf(t, repository, fs[..|fs| - 1], c), OriginsOf(t, repository, fs, c);
    assert after == before || (|after| == |before| + 1 && after == before + [after[|before|]]);
  }

  lemma PresentNow(t: Tree, repository: Option<Tree>, init: seq<Fallback>, c: Checks, key: string)
    requires t.kind == MappingKind && |t.children| % 2 == 0 && Merged(t, repository, init, c).Some?
    ensures MappingValue(Merged(t, repository, init, c).value, key).Some? <==>
      MappingValue(t, key).Some? || Requested(key, repository, init, c)
  {
    hide VerdictOf, MappingValue, Merged;
    MergeConservative(t, repository, init, c, key);
    if Requested(key, repository, init, c) {
      var i :| 0 <= i < |init| && init[i].binding == key && Offer(repository, init[i]).Some?;
    }
  }

  lemma PresentOrder(t: Tree, repository: Option<Tree>, fs: seq<Fallback>, c: Checks, key: string)
    requires fs != []
    ensures var n := |fs| - 1;
      (exists k | 0 <= k < |fs| :: fs[k].binding == key && Present(t, repository, fs, c, k, key)) <==>
        || (exists k | 0 <= k < n :: fs[..n][k].binding == key && Present(t, repository, fs[..n], c, k, key))
        || (fs[n].binding == key && (MappingValue(t, key).Some? || Requested(key, repository, fs[..n], c)))
  {
    hide Requested, MappingValue, Present;
    var n := |fs| - 1;
    forall k | 0 <= k < n
      ensures fs[..n][k].binding == fs[k].binding
      ensures Present(t, repository, fs[..n], c, k, key) <==> Present(t, repository, fs, c, k, key)
    {
      assert fs[..n][k] == fs[k] && fs[..n][..k] == fs[..k];
      assert Present(t, repository, fs[..n], c, k, key) <==> Present(t, repository, fs, c, k, key) by {
        SamePresent(t, repository, fs, c, n, k, key);
      }
    }
    SamePresent(t, repository, fs, c, n, n, key);
  }

  lemma SamePresent(t: Tree, repository: Option<Tree>, fs: seq<Fallback>, c: Checks, n: nat, k: nat, key: string)
    requires k <= n <= |fs|
    ensures Present(t, repository, fs[..n], c, k, key) <==> Present(t, repository, fs, c, k, key)
    ensures Present(t, repository, fs, c, n, key) <==>
      MappingValue(t, key).Some? || Requested(key, repository, fs[..n], c)
  {
    assert fs[..n][..k] == fs[..k];
  }

  /** The entries that come in, in the order they are reported. */
  function AddedBy(origins: seq<Origin>, repository: Option<Tree>): seq<Tree> {
    if origins == [] then []
    else
      var init, last := origins[..|origins| - 1], origins[|origins| - 1];
      AddedBy(init, repository) +
        if last.FromRepository? && ValueIn(repository, last.binding).Some?
          then [Key(last.binding), ValueIn(repository, last.binding).value] else []
  }

  /** Nothing but the reported entries is appended, and nothing before them moves. */
  lemma {:induction false} MergeAppends(t: Tree, repository: Option<Tree>, fs: seq<Fallback>, c: Checks)
    requires t.kind == MappingKind && |t.children| % 2 == 0 && Merged(t, repository, fs, c).Some?
    ensures Merged(t, repository, fs, c).value ==
      t.(children := t.children + AddedBy(OriginsOf(t, repository, fs, c), repository))
  {
    hide VerdictOf, MappingValue;
    if fs != [] {
      var init := fs[..|fs| - 1];
      MergeAppends(t, repository, init, c);
      var before, after := OriginsOf(t, repository, init, c), OriginsOf(t, repository, fs, c);
      if after != before { assert after[..|before|] == before && |after| == |before| + 1; }
    }
  }

  /** Merging again adds nothing. */
  lemma {:induction false} MergeIdempotent(t: Tree, repository: Option<Tree>, fs: seq<Fallback>, c: Checks, n: nat)
    requires t.kind == MappingKind && |t.children| % 2 == 0 && Merged(t, repository, fs, c).Some? && n <= |fs|
    ensures var u := Merged(t, repository, fs, c).value; Merged(u, repository, fs[..n], c) == Some(u)
  {
    if n > 0 {
      MergeIdempotent(t, repository, fs, c, n - 1);
      MergeChecks(t, repository, fs, c, n - 1);
      assert fs[..n][..n - 1] == fs[..n - 1] && fs[..n][n - 1] == fs[n - 1];
    }
  }

  predicate Adds(t: Tree, repository: Option<Tree>, f: Fallback, c: Checks) {
    f.binding != "" && MappingValue(t, f.binding).None? && Offer(repository, f).Some?
      && VerdictOf(Offer(repository, f).value, f, c) == Active
  }

  /** A fallback brings a binding that the document as it came could not take as a guarded key. */
  ghost predicate Unfit(t: Tree, repository: Option<Tree>, f: Fallback, c: Checks, d: Decoder) {
    Adds(t, repository, f, c) && Clashes(t, [f.binding], d)
  }

  ghost predicate SomeUnfit(t: Tree, repository: Option<Tree>, fs: seq<Fallback>, c: Checks, d: Decoder) {
    exists i | 0 <= i < |fs| :: Unfit(t, repository, fs[i], c, d)
  }

  lemma {:induction false} MergePaired(t: Tree, repository: Option<Tree>, fs: seq<Fallback>, c: Checks)
    requires t.kind == MappingKind && Paired(t) && Merged(t, repository, fs, c).Some?
    requires repository.Some? ==> Paired(repository.value)
    ensures Paired(Merged(t, repository, fs, c).value) && Merged(t, repository, fs, c).value.kind == MappingKind
  {
    hide VerdictOf;
    if fs != [] {
      MergePaired(t, repository, fs[..|fs| - 1], c);
    }
  }

  /**
   Keys stay unique, also when a binding is requested twice: the merged document is a binding document
   again just when no requested, active and absent binding is a merge key or reads like a key that
   the remote document came with.
   */
  lemma {:induction false} MergeKeepsDocument(t: Tree, repository: Option<Tree>, fs: seq<Fallback>, c: Checks,
    d: Decoder)
    requires Sane(d) && BindingDocument(t, d) && Merged(t, repository, fs, c).Some?
    requires repository.Some? ==> BindingDocument(repository.value, d)
    ensures BindingDocument(Merged(t, repository, fs, c).value, d) <==>
      !exists i | 0 <= i < |fs| ::
        && Adds(t, repository, fs[i], c)
        && (fs[i].binding == "<<" || HasText(t.children, fs[i].binding, d))
  {
    DocumentUnlessUnfit(t, repository, fs, c, d);
    forall i | 0 <= i < |fs| && Adds(t, repository, fs[i], c)
      ensures Unfit(t, repository, fs[i], c, d) <==> fs[i].binding == "<<" || HasText(t.children, fs[i].binding, d)
    {
      ClashesHere(t, fs[i].binding, d);
    }
  }

  lemma {:induction false} DocumentUnlessUnfit(t: Tree, repository: Option<Tree>, fs: seq<Fallback>, c: Checks,
    d: Decoder)
    requires Sane(d) && BindingDocument(t, d) && Merged(t, repository, fs, c).Some?
    requires repository.Some? ==> BindingDocument(repository.value, d)
    ensures BindingDocument(Merged(t, repository, fs, c).value, d) <==> !SomeUnfit(t, repository, fs, c, d)
  {
    hide VerdictOf, Clashes, KeysFine, Sane, Paired, SomeUnfit, Unfit, MappingValue;
    if fs != [] {
      var n := |fs| - 1;
      var f, u := fs[n], Merged(t, repository, fs[..n], c).value;
      MergePaired(t, repository, fs[..n], c);
      DocumentUnlessUnfit(t, repository, fs[..n], c, d);
      SomeUnfitStep(t, repository, fs, c, d);
      UnfitThen(t, repository, fs[..n], f, c, d);
      if Adds(u, repository, f, c) {
        OfferFine(repository.value, f.binding, d);
        ExtendingKeepsDocument(u, f.binding, Offer(repository, f).value, d);
      }
    } else {
      assert !SomeUnfit(t, repository, fs, c, d) by { NoneUnfit(t, repository, fs, c, d); }
    }
  }

  lemma NoneUnfit(t: Tree, repository: Option<Tree>, fs: seq<Fallback>, c: Checks, d: Decoder)
    requires fs == []
    ensures !SomeUnfit(t, repository, fs, c, d)
  {
  }

  lemma SomeUnfitStep(t: Tree, repository: Option<Tree>, fs: seq<Fallback>, c: Checks, d: Decoder)
    requires fs != []
    ensures SomeUnfit(t, repository, fs, c, d) <==>
      SomeUnfit(t, repository, fs[..|fs| - 1], c, d) || Unfit(t, repository, fs[|fs| - 1], c, d)
  {
    hide Unfit;
    var init := fs[..|fs| - 1];
    assert forall i | 0 <= i < |init| :: init[i] == fs[i];
  }

  /** After some merging a fallback clashes just when it would have at once, unless its binding has come in already. */
  lemma UnfitThen(t: Tree, repository: Option<Tree>, init: seq<Fallback>, f: Fallback, c: Checks, d: Decoder)
    requires Sane(d) && t.kind == MappingKind && Paired(t) && Merged(t, repository, init, c).Some?
    ensures var u := Merged(t, repository, init, c).value;
      if Adds(u, repository, f, c) then Clashes(u, [f.binding], d) <==> Unfit(t, repository, f, c, d)
      else Unfit(t, repository, f, c, d) ==> SomeUnfit(t, repository, init, c, d)
  {
    hide VerdictOf, Clashes, Sane, MappingValue, HasText;
    var u := Merged(t, repository, init, c).value;
    MergeConservative(t, repository, init, c, f.binding);
    if Adds(u, repository, f, c) {
      ClashesHere(t, f.binding, d);
      ClashesHere(u, f.binding, d);
      TextsKept(t, repository, init, c, f.binding, d);
    } else if Unfit(t, repository, f, c, d) {
      var i :| 0 <= i < |init| && init[i].binding == f.binding && Offer(repository, init[i]).Some?
        && VerdictOf(Offer(repository, init[i]).value, init[i], c) == Active;
      assert Unfit(t, repository, init[i], c, d);
    }
  }

  /** Merging brings no key that reads like an absent one. */
  lemma {:induction false} TextsKept(t: Tree, repository: Option<Tree>, fs: seq<Fallback>, c: Checks, key: string,
    d: Decoder)
    requires Sane(d) && t.kind == MappingKind && |t.children| % 2 == 0 && Merged(t, repository, fs, c).Some?
    requires MappingValue(Merged(t, repository, fs, c).value, key).None?
    ensures HasText(Merged(t, repository, fs, c).value.children, key, d) <==> HasText(t.children, key, d)
  {
    hide VerdictOf, Sane, MappingValue, HasText;
    if fs != [] {
      var n := |fs| - 1;
      var f, u := fs[n], Merged(t, repository, fs[..n], c).value;
      MergeConservative(t, repository, fs[..n], c, key);
      MergeOneStep(u, repository, f, c, key);
      TextsKept(t, repository, fs[..n], c, key, d);
      if Adds(u, repository, f, c) {
        HasTextOfAppended(u.children, f.binding, Offer(repository, f).value, key, d);
      }
    }
  }

  lemma OfferFine(t: Tree, key: string, d: Decoder)
    requires BindingDocument(t, d) && MappingValue(t, key).Some?
    ensures Paired(MappingValue(t, key).value) && KeysFine(MappingValue(t, key).value, true, d)
  {
    var i := Position(t.children, key, 0);
    assert KeysFine(t.children[i + 1], true, d);
  }

  lemma ExtendingKeepsDocument(t: Tree, binding: string, v: Tree, d: Decoder)
    requires Sane(d) && t.kind == MappingKind && Paired(t) && MappingValue(t, binding).None?
    requires Paired(v) && KeysFine(v, true, d)
    ensures Paired(Extended(t, binding, v))
    ensures BindingDocument(Extended(t, binding, v), d) <==> BindingDocument(t, d) && !Clashes(t, [binding], d)
  {
    hide Sane, Clashes, GuardKeys, StrictKeys;
    var u := Extended(t, binding, v);
    KeysOfAppended(t.children, binding, v, d);
    ClashesHere(t, binding, d);
    KeyIsFine(binding, d);
    assert u.children[|t.children|] == Key(binding) && u.children[|t.children| + 1] == v;
    if KeysFine(u, true, d) {
      forall i | 0 <= i < |t.children|
        ensures KeysFine(t.children[i], true, d)
      {
        assert u.children[i] == t.children[i];
      }
    }
  }

  lemma ClashesHere(t: Tree, binding: string, d: Decoder)
    requires MappingValue(t, binding).None? && t.kind == MappingKind
    ensures Position(t.children, binding, 0) < 0
    ensures Clashes(t, [binding], d) <==> binding == "<<" || HasText(t.children, binding, d)
  {
  }

  lemma KeyIsFine(key: string, d: Decoder)
    ensures KeysFine(Key(key), true, d)
  {
  }
}
