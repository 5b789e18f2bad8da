/**
 What the inspection of an application reports, told place by place: a place is a node together with the
 path it was reached by, and the report lists the Consul clients declared at the places of the document.
 */
module ExternalPlaces {
  import opened Collections
  import opened Options
  import opened YamlNodes
  import opened YamlPaths
  import opened ExternalDependencies

  // ---- What a mapping declares ----

  predicate IsKey(n: Node, key: string)
    reads n
  {
    n.kind == ScalarKind && n.tag == "!!str" && n.value == key
  }

  function Followed(n: Node): Node?
    reads n
  {
    if n.kind == AliasKind then n.alias else n
  }

  /** The mapping's first entry under the string key has this value; without an entry or a mapping there is none. */
  ghost predicate Under(m: Node?, key: string, v: Node?, g: set<Node>)
    requires Closed(g) && (m != null ==> m in g)
    reads g
  {
    if m == null || m.kind != MappingKind then v == null
    else
      || (v == null && forall i | 0 <= i < |m.content| / 2 :: !IsKey(m.content[2 * i], key))
      || exists i | 0 <= i < |m.content| / 2 ::
        && IsKey(m.content[2 * i], key) && v == Followed(m.content[2 * i + 1])
        && forall j | 0 <= j < i :: !IsKey(m.content[2 * j], key)
  }

  ghost predicate Text(n: Node?, g: set<Node>)
    requires n != null ==> n in g
    reads g
  {
    n != null && n.kind == ScalarKind && n.tag == "!!str"
  }

  /** The mapping asks for discovery by Consul. */
  ghost predicate ConsulClient(n: Node, g: set<Node>)
    requires Closed(g) && n in g
    reads g
  {
    exists d: Node | d in g :: Under(n, "discovType", d, g) && Text(d, g) && d.value == "consul"
  }

  /** It is such a client, in a place where one may be, and complete. */
  ghost predicate Declares(n: Node, path: string, site: Site, g: set<Node>, dependency: Dependency)
    requires Closed(g) && n in g
    reads g
  {
    && ConsulClient(n, g) && path !in site.localRoutes && (path == "" ==> site.kind != "rpc" && site.kind != "http")
    && dependency.owner == site.owner && dependency.path == path
    && exists c: Node | c in g :: Under(n, "consul", c, g) && c.kind == MappingKind && Names(c, site, g, dependency)
  }

  ghost predicate Names(c: Node, site: Site, g: set<Node>, dependency: Dependency)
    requires Closed(g) && c in g
    reads g
  {
    exists h: Node, p: Node, k: Node | h in g && p in g && k in g ::
      && Under(c, "host", h, g) && Text(h, g) && dependency.host == site.trim(h.value) != ""
      && Under(c, "port", p, g) && p.kind == ScalarKind && site.port(p.tag, p.value) == Some(dependency.port)
      && 1 <= dependency.port < 65536
      && Under(c, "key", k, g) && Text(k, g) && dependency.key == site.trim(k.value) != ""
  }

  lemma {:induction false} FirstValue(m: Node, key: string, i: nat)
    requires i <= |m.content| / 2
    ensures var v := MappingValueFrom(m, key, i);
      || (v == null && forall j | i <= j < |m.content| / 2 :: !IsKey(m.content[2 * j], key))
      || exists k | i <= k < |m.content| / 2 ::
        && IsKey(m.content[2 * k], key) && v == Followed(m.content[2 * k + 1])
        && forall j | i <= j < k :: !IsKey(m.content[2 * j], key)
    decreases |m.content| - i
  {
    if i < |m.content| / 2 && !IsKey(m.content[2 * i], key) { FirstValue(m, key, i + 1); }
  }

  lemma UnderIs(m: Node?, key: string, v: Node?, g: set<Node>)
    requires Closed(g) && (m != null ==> m in g)
    ensures Under(m, key, v, g) <==> v == ValueUnder(m, key, g)
  {
    if m != null && m.kind == MappingKind { FirstValue(m, key, 0); }
  }

  lemma ClientIs(n: Node, g: set<Node>)
    requires Closed(g) && n in g
    ensures ConsulClient(n, g) <==> StringValue(ValueUnder(n, "discovType", g)) == "consul"
  {
    var v := ValueUnder(n, "discovType", g);
    hide Under;
    UnderIs(n, "discovType", v, g);
    forall d: Node | d in g ensures Under(n, "discovType", d, g) <==> d == v { UnderIs(n, "discovType", d, g); }
  }

  /** Trimming nothing leaves nothing. */
  predicate Trims(site: Site) {
    site.trim("") == ""
  }

  lemma TextIs(v: Node?, site: Site, text: string, g: set<Node>)
    requires Trims(site) && (v != null ==> v in g)
    ensures text == site.trim(StringValue(v)) != "" <==> text != "" && Text(v, g) && text == site.trim(v.value)
  {
  }

  lemma NamesIs(c: Node, site: Site, g: set<Node>, dependency: Dependency)
    requires Closed(g) && c in g && Trims(site)
    ensures Names(c, site, g, dependency) <==>
      && dependency.host == site.trim(StringValue(ValueUnder(c, "host", g))) != ""
      && PortOf(ValueUnder(c, "port", g), site) == Some(dependency.port)
      && dependency.key == site.trim(StringValue(ValueUnder(c, "key", g))) != ""
  {
    var h, p, k := ValueUnder(c, "host", g), ValueUnder(c, "port", g), ValueUnder(c, "key", g);
    hide Under, ValueUnder, StringValue, Text;
    UnderIs(c, "host", h, g);
    UnderIs(c, "port", p, g);
    UnderIs(c, "key", k, g);
    TextIs(h, site, dependency.host, g);
    TextIs(k, site, dependency.key, g);
    if Names(c, site, g, dependency) { NamedValues(c, site, g, dependency); }
  }

  lemma NamedValues(c: Node, site: Site, g: set<Node>, dependency: Dependency)
    requires Closed(g) && c in g && Names(c, site, g, dependency)
    ensures var h, p, k := ValueUnder(c, "host", g), ValueUnder(c, "port", g), ValueUnder(c, "key", g);
      && Text(h, g) && dependency.host == site.trim(h.value) != ""
      && PortOf(p, site) == Some(dependency.port)
      && Text(k, g) && dependency.key == site.trim(k.value) != ""
  {
    hide Under, ValueUnder, Text;
    var x: Node, y: Node, z: Node :| x in g && y in g && z in g
      && Under(c, "host", x, g) && Text(x, g) && dependency.host == site.trim(x.value) != ""
      && Under(c, "port", y, g) && y.kind == ScalarKind && site.port(y.tag, y.value) == Some(dependency.port)
      && 1 <= dependency.port < 65536
      && Under(c, "key", z, g) && Text(z, g) && dependency.key == site.trim(z.value) != "";
    UnderIs(c, "host", x, g);
    UnderIs(c, "port", y, g);
    UnderIs(c, "key", z, g);
  }

  /** The entry of a mapping is what it declares; a client that declares nothing is an error. */
  lemma EntryExact(n: Node, path: string, site: Site, g: set<Node>)
    requires Closed(g) && n in g && n.kind == MappingKind && Trims(site)
    ensures !ConsulClient(n, g) ==> OwnEntry(n, path, site, g) == Some([])
    ensures ConsulClient(n, g) ==>
      || OwnEntry(n, path, site, g).None?
      || (|OwnEntry(n, path, site, g).value| == 1 && Declares(n, path, site, g, OwnEntry(n, path, site, g).value[0]))
    ensures forall x | Declares(n, path, site, g, x) :: OwnEntry(n, path, site, g) == Some([x])
  {
    hide ConsulClient, Declares, OwnEntry;
    ClientIs(n, g);
    EntryIs(n, path, site, g);
    forall x | Declares(n, path, site, g, x) ensures OwnEntry(n, path, site, g) == Some([x]) {
      DeclaringClient(n, path, site, g, x);
      DeclaredIs(n, path, site, g, x);
    }
    if ConsulClient(n, g) && OwnEntry(n, path, site, g).Some? {
      assert OwnEntry(n, path, site, g).value == [OwnEntry(n, path, site, g).value[0]];
      DeclaredIs(n, path, site, g, OwnEntry(n, path, site, g).value[0]);
    }
  }

  lemma EntryIs(n: Node, path: string, site: Site, g: set<Node>)
    requires Closed(g) && n in g && n.kind == MappingKind
    ensures StringValue(ValueUnder(n, "discovType", g)) != "consul" ==> OwnEntry(n, path, site, g) == Some([])
    ensures StringValue(ValueUnder(n, "discovType", g)) == "consul" ==>
      OwnEntry(n, path, site, g).None? || |OwnEntry(n, path, site, g).value| == 1
  {
    hide ValueUnder, StringValue, PortOf;
  }

  lemma DeclaringClient(n: Node, path: string, site: Site, g: set<Node>, x: Dependency)
    requires Closed(g) && n in g && Declares(n, path, site, g, x)
    ensures ConsulClient(n, g)
  {
  }

  lemma EntryValue(n: Node, path: string, site: Site, g: set<Node>, x: Dependency)
    requires Closed(g) && n in g && StringValue(ValueUnder(n, "discovType", g)) == "consul"
    ensures OwnEntry(n, path, site, g) == Some([x]) <==>
      && path !in site.localRoutes && (path == "" ==> site.kind != "rpc" && site.kind != "http")
      && x.owner == site.owner && x.path == path
      && var c := ValueUnder(n, "consul", g);
      && c != null && c.kind == MappingKind
      && x.host == site.trim(StringValue(ValueUnder(c, "host", g))) != ""
      && PortOf(ValueUnder(c, "port", g), site) == Some(x.port)
      && x.key == site.trim(StringValue(ValueUnder(c, "key", g))) != ""
  {
    hide ValueUnder, StringValue, PortOf;
  }

  lemma DeclaredIs(n: Node, path: string, site: Site, g: set<Node>, x: Dependency)
    requires Closed(g) && n in g && n.kind == MappingKind && Trims(site) && ConsulClient(n, g)
    ensures Declares(n, path, site, g, x) <==> OwnEntry(n, path, site, g) == Some([x])
  {
    hide Under, ConsulClient, Names, ValueUnder, StringValue, PortOf, OwnEntry;
    var c := ValueUnder(n, "consul", g);
    ClientIs(n, g);
    UnderIs(n, "consul", c, g);
    EntryValue(n, path, site, g, x);
    if c != null { NamesIs(c, site, g, x); }
    if Declares(n, path, site, g, x) {
      var d: Node :| d in g && Under(n, "consul", d, g) && d.kind == MappingKind && Names(d, site, g, x);
      UnderIs(n, "consul", d, g);
    }
  }

  // ---- Places ----

  /** One step of the walk, and the path it leads to. */
  ghost predicate Leads(n: Node, path: string, m: Node, q: string, site: Site, g: set<Node>)
    requires Closed(g) && n in g
    reads g
  {
    || (n.kind == AliasKind && n.alias == m && q == path)
    || (n.kind == MappingKind && exists i | 0 <= i < |n.content| / 2 ::
          m == n.content[2 * i + 1]
          && q == (if path == "" then n.content[2 * i].value else path + "." + n.content[2 * i].value))
    || (n.kind == SequenceKind && exists i | 0 <= i < |n.content| ::
          m == n.content[i] && q == path + "[" + site.ordinal(i) + "]")
  }

  ghost predicate IsRoute(r: seq<(Node, string)>, site: Site, g: set<Node>)
    requires Closed(g)
    reads g
  {
    && |r| > 0 && (forall i | 0 <= i < |r| :: r[i].0 in g)
    && forall i | 0 <= i < |r| - 1 :: Leads(r[i].0, r[i].1, r[i + 1].0, r[i + 1].1, site, g)
  }

  ghost predicate From(r: seq<(Node, string)>, n: Node, path: string, site: Site, g: set<Node>)
    requires Closed(g)
    reads g
  {
    IsRoute(r, site, g) && r[0] == (n, path)
  }

  lemma RouteMore(r: seq<(Node, string)>, n: Node, path: string, site: Site, g: set<Node>)
    requires Closed(g) && n in g && IsRoute(r, site, g) && Leads(n, path, r[0].0, r[0].1, site, g)
    ensures From([(n, path)] + r, n, path, site, g)
  {
    hide Leads;
    var more := [(n, path)] + r;
    forall i | 0 <= i < |more| - 1 ensures Leads(more[i].0, more[i].1, more[i + 1].0, more[i + 1].1, site, g) {
      if i > 0 { assert more[i] == r[i - 1] && more[i + 1] == r[i]; }
    }
  }

  lemma RouteRest(r: seq<(Node, string)>, site: Site, g: set<Node>)
    requires Closed(g) && IsRoute(r, site, g) && |r| > 1
    ensures IsRoute(r[1..], site, g) && Leads(r[0].0, r[0].1, r[1].0, r[1].1, site, g)
  {
    hide Leads;
    forall i | 0 <= i < |r[1..]| - 1
      ensures Leads(r[1..][i].0, r[1..][i].1, r[1..][i + 1].0, r[1..][i + 1].1, site, g)
    {
      assert r[1..][i] == r[i + 1] && r[1..][i + 1] == r[i + 2];
    }
  }

  lemma ChildLeads(n: Node, path: string, i: nat, site: Site, g: set<Node>)
    requires Closed(g) && n in g && (n.kind == MappingKind || n.kind == SequenceKind) && i < Width(n)
    ensures Child(n, i) in g && Leads(n, path, Child(n, i), PathOf(n, i, path, site), site, g)
  {
  }

  lemma LeadsToChild(n: Node, path: string, m: Node, q: string, site: Site, g: set<Node>) returns (i: nat)
    requires Closed(g) && n in g && n.kind != AliasKind && Leads(n, path, m, q, site, g)
    ensures (n.kind == MappingKind || n.kind == SequenceKind) && i < Width(n)
    ensures m == Child(n, i) && q == PathOf(n, i, path, site)
  {
    if n.kind == MappingKind {
      i :| 0 <= i < |n.content| / 2 && m == n.content[2 * i + 1]
        && q == (if path == "" then n.content[2 * i].value else path + "." + n.content[2 * i].value);
    } else {
      i :| 0 <= i < |n.content| && m == n.content[i] && q == path + "[" + site.ordinal(i) + "]";
    }
  }

  // ---- The list, place by place ----

  ghost predicate DeclaredAtEnd(r: seq<(Node, string)>, site: Site, g: set<Node>, x: Dependency)
    requires Closed(g) && IsRoute(r, site, g)
    reads g
  {
    var (n, path) := r[|r| - 1];
    n.kind == MappingKind && Declares(n, path, site, g, x)
  }

  lemma DeclaredLater(n: Node, path: string, r: seq<(Node, string)>, site: Site, g: set<Node>, x: Dependency)
    requires Closed(g) && n in g && IsRoute(r, site, g) && Leads(n, path, r[0].0, r[0].1, site, g)
    requires DeclaredAtEnd(r, site, g, x)
    ensures From([(n, path)] + r, n, path, site, g) && DeclaredAtEnd([(n, path)] + r, site, g, x)
  {
    hide Leads, Declares;
    RouteMore(r, n, path, site, g);
    assert ([(n, path)] + r)[|r|] == r[|r| - 1];
  }

  lemma {:induction false} ListedIsDeclared(n: Node, path: string, k: nat, site: Site, g: set<Node>, x: Dependency)
    returns (r: seq<(Node, string)>)
    requires Closed(g) && n in g && Trims(site)
    requires Unfolded(n, path, k, site, g).Some? && x in Unfolded(n, path, k, site, g).value
    ensures From(r, n, path, site, g) && DeclaredAtEnd(r, site, g, x)
    decreases k, 1, 0
  {
    hide OwnEntry, Leads, KeysAllowed, TagAllowed, Declares, ConsulClient;
    if n.kind == AliasKind {
      r := ListedIsDeclared(n.alias, path, k - 1, site, g, x);
      AliasLeads(n, path, site, g);
      DeclaredLater(n, path, r, site, g, x);
      r := [(n, path)] + r;
    } else if n.kind == MappingKind && x in OwnEntry(n, path, site, g).value {
      EntryExact(n, path, site, g);
      r := [(n, path)];
    } else {
      r := BelowIsDeclared(n, 0, path, k, site, g, x);
    }
  }

  lemma AliasLeads(n: Node, path: string, site: Site, g: set<Node>)
    requires Closed(g) && n in g && n.kind == AliasKind
    ensures n.alias != null ==> Leads(n, path, n.alias, path, site, g)
  {
  }

  lemma {:induction false} BelowIsDeclared(n: Node, i: nat, path: string, k: nat, site: Site, g: set<Node>,
    x: Dependency)
    returns (r: seq<(Node, string)>)
    requires Closed(g) && n in g && (n.kind == MappingKind || n.kind == SequenceKind) && i <= Width(n) && k > 0
    requires Trims(site)
    requires UnfoldedBelow(n, i, path, k, site, g).Some? && x in UnfoldedBelow(n, i, path, k, site, g).value
    ensures From(r, n, path, site, g) && DeclaredAtEnd(r, site, g, x)
    decreases k, 0, |n.content| - i
  {
    hide Leads, Unfolded, PathOf, Child, Declares;
    ChildLeads(n, path, i, site, g);
    var m, q := Child(n, i), PathOf(n, i, path, site);
    if x in Unfolded(m, q, k - 1, site, g).value {
      r := ListedIsDeclared(m, q, k - 1, site, g, x);
      DeclaredLater(n, path, r, site, g, x);
      r := [(n, path)] + r;
    } else {
      r := BelowIsDeclared(n, i + 1, path, k, site, g, x);
    }
  }

  /** The list below a step is part of the list. */
  lemma StepListed(n: Node, path: string, k: nat, m: Node, q: string, site: Site, g: set<Node>)
    requires Closed(g) && n in g && m in g && Unfolded(n, path, k, site, g).Some? && Leads(n, path, m, q, site, g)
    ensures k > 0 && Unfolded(m, q, k - 1, site, g).Some?
    ensures forall x | x in Unfolded(m, q, k - 1, site, g).value :: x in Unfolded(n, path, k, site, g).value
  {
    hide OwnEntry, KeysAllowed, TagAllowed;
    if n.kind != AliasKind {
      var i := LeadsToChild(n, path, m, q, site, g);
      ChildListed(n, 0, i, path, k, site, g);
    }
  }

  lemma {:induction false} ChildListed(n: Node, i: nat, j: nat, path: string, k: nat, site: Site, g: set<Node>)
    requires Closed(g) && n in g && i <= j < Width(n) && k > 0 && UnfoldedBelow(n, i, path, k, site, g).Some?
    ensures Unfolded(Child(n, j), PathOf(n, j, path, site), k - 1, site, g).Some?
    ensures forall x | x in Unfolded(Child(n, j), PathOf(n, j, path, site), k - 1, site, g).value ::
      x in UnfoldedBelow(n, i, path, k, site, g).value
    decreases j - i
  {
    hide Unfolded, PathOf, Child;
    if i < j { ChildListed(n, i + 1, j, path, k, site, g); }
  }

  lemma {:induction false} RouteIsListed(r: seq<(Node, string)>, k: nat, site: Site, g: set<Node>) returns (l: nat)
    requires Closed(g) && IsRoute(r, site, g) && Trims(site) && Unfolded(r[0].0, r[0].1, k, site, g).Some?
    ensures !Faulty(r[|r| - 1].0, r[|r| - 1].1, site, g) && Unfolded(r[|r| - 1].0, r[|r| - 1].1, l, site, g).Some?
    ensures forall x | DeclaredAtEnd(r, site, g, x) :: x in Unfolded(r[0].0, r[0].1, k, site, g).value
    decreases |r|
  {
    hide OwnEntry, Declares, Leads, KeysAllowed, TagAllowed;
    if |r| == 1 {
      var (n, path) := r[0];
      l := k;
      NotFaulty(n, path, k, site, g);
      if n.kind == MappingKind {
        EntryExact(n, path, site, g);
      }
    } else {
      RouteRest(r, site, g);
      StepListed(r[0].0, r[0].1, k, r[1].0, r[1].1, site, g);
      l := RouteIsListed(r[1..], k - 1, site, g);
      assert r[1..][|r[1..]| - 1] == r[|r| - 1];
    }
  }

  /** The report lists exactly what the places of the document declare. */
  lemma ListExact(n: Node, path: string, k: nat, site: Site, g: set<Node>, x: Dependency)
    requires Closed(g) && n in g && Trims(site) && Unfolded(n, path, k, site, g).Some?
    ensures x in Unfolded(n, path, k, site, g).value <==>
      exists r | From(r, n, path, site, g) :: DeclaredAtEnd(r, site, g, x)
  {
    hide Unfolded, Declares, Leads;
    if x in Unfolded(n, path, k, site, g).value { var r := ListedIsDeclared(n, path, k, site, g, x); }
    if exists r | From(r, n, path, site, g) :: DeclaredAtEnd(r, site, g, x) {
      var r :| From(r, n, path, site, g) && DeclaredAtEnd(r, site, g, x);
      var l := RouteIsListed(r, k, site, g);
    }
  }

  // ---- When there is no report ----

  /** A node of an unsupported kind or tag, a mapping with bad keys, or a client that declares nothing. */
  ghost predicate Faulty(n: Node, path: string, site: Site, g: set<Node>)
    requires Closed(g) && n in g
    reads g
  {
    && n.kind != AliasKind
    && (|| !((n.kind == MappingKind && n.tag == "!!map") || (n.kind == SequenceKind && n.tag == "!!seq")
             || (n.kind == ScalarKind
                 && (n.tag == "!!str" || n.tag == "!!int" || n.tag == "!!bool" || n.tag == "!!float"
                   || n.tag == "!!null"
                     || n.tag == "!!timestamp")))
        || (n.kind == MappingKind && (BadKeys(n, site.decoder, g)
              || (ConsulClient(n, g) && !exists x :: Declares(n, path, site, g, x)))))
  }

  ghost predicate BadKeys(n: Node, d: Decoder, g: set<Node>)
    requires Closed(g) && n in g
    reads g
  {
    || (exists i | 0 <= i < |n.content| / 2 :: Unusable(n.content[2 * i], d))
    || exists i, j | 0 <= i < j < |n.content| / 2 :: SameKey(n.content[2 * i], n.content[2 * j], d)
  }

  /** No string or integer, the merge key, or nothing that can be decoded. */
  predicate Unusable(key: Node, d: Decoder)
    reads key
  {
    || key.kind != ScalarKind || (key.tag != "!!str" && key.tag != "!!int") || key.value == "<<"
    || d.identify(key.tag, key.value).None? || d.text(key.tag, key.value).None?
  }

  predicate SameKey(a: Node, b: Node, d: Decoder)
    reads a, b
  {
    d.identify(a.tag, a.value) == d.identify(b.tag, b.value) || d.text(a.tag, a.value) == d.text(b.tag, b.value)
  }

  lemma KeysExact(n: Node, d: Decoder, g: set<Node>)
    requires Closed(g) && n in g
    ensures BadKeys(n, d, g) <==> !KeysAllowed(n, |n.content| / 2, d, g)
  {
    var upTo := |n.content| / 2;
    forall i | 0 <= i < upTo ensures Unusable(n.content[2 * i], d) <==> !KeyAllowed(n.content[2 * i], d) {}
    if !KeysAllowed(n, upTo, d, g) && forall i | 0 <= i < upTo :: KeyAllowed(n.content[2 * i], d) {
      var i, j :| 0 <= i < j < upTo
        && !(d.identify(n.content[2 * i].tag, n.content[2 * i].value) !=
               d.identify(n.content[2 * j].tag, n.content[2 * j].value)
             && d.text(n.content[2 * i].tag, n.content[2 * i].value) !=
               d.text(n.content[2 * j].tag, n.content[2 * j].value));
      assert SameKey(n.content[2 * i], n.content[2 * j], d);
    }
  }

  lemma FaultyExact(n: Node, path: string, site: Site, g: set<Node>)
    requires Closed(g) && n in g && Trims(site) && n.kind != AliasKind
    ensures Faulty(n, path, site, g) <==>
      || !TagAllowed(n)
      || (n.kind == MappingKind
        && (!KeysAllowed(n, |n.content| / 2, site.decoder, g) || OwnEntry(n, path, site, g).None?))
  {
    hide KeysAllowed, OwnEntry, Declares, ConsulClient, BadKeys;
    if n.kind == MappingKind {
      KeysExact(n, site.decoder, g);
      EntryExact(n, path, site, g);
    }
  }

  lemma NotFaulty(n: Node, path: string, k: nat, site: Site, g: set<Node>)
    requires Closed(g) && n in g && Trims(site) && Unfolded(n, path, k, site, g).Some?
    ensures !Faulty(n, path, site, g)
  {
    hide KeysAllowed, OwnEntry, TagAllowed, Faulty;
    if n.kind != AliasKind { FaultyExact(n, path, site, g); } else { AliasNotFaulty(n, path, site, g); }
  }

  lemma AliasNotFaulty(n: Node, path: string, site: Site, g: set<Node>)
    requires Closed(g) && n in g && n.kind == AliasKind
    ensures !Faulty(n, path, site, g)
  {
  }

  /** Without a list of this depth some place is faulty, or some route is as long as the depth. */
  lemma {:induction false} WhyNoList(n: Node, path: string, k: nat, site: Site, g: set<Node>)
    returns (r: seq<(Node, string)>)
    requires Closed(g) && n in g && Trims(site) && Unfolded(n, path, k, site, g).None?
    ensures From(r, n, path, site, g) && (Faulty(r[|r| - 1].0, r[|r| - 1].1, site, g) || |r| == k + 1)
    decreases k, 1, 0
  {
    hide OwnEntry, KeysAllowed, TagAllowed, Faulty, Leads;
    r := [(n, path)];
    if k == 0 { return; }
    if n.kind == AliasKind {
      AliasLeads(n, path, site, g);
      var rest := WhyNoList(n.alias, path, k - 1, site, g);
      RouteMore(rest, n, path, site, g);
      r := [(n, path)] + rest;
    } else {
      FaultyExact(n, path, site, g);
      if !Faulty(n, path, site, g) { r := WhyNoListBelow(n, 0, path, k, site, g); }
    }
  }

  lemma {:induction false} WhyNoListBelow(n: Node, i: nat, path: string, k: nat, site: Site, g: set<Node>)
    returns (r: seq<(Node, string)>)
    requires Closed(g) && n in g && (n.kind == MappingKind || n.kind == SequenceKind) && i <= Width(n) && k > 0
    requires Trims(site) && UnfoldedBelow(n, i, path, k, site, g).None?
    ensures From(r, n, path, site, g) && (Faulty(r[|r| - 1].0, r[|r| - 1].1, site, g) || |r| == k + 1)
    decreases k, 0, |n.content| - i
  {
    hide Unfolded, Faulty, Leads, PathOf, Child;
    ChildLeads(n, path, i, site, g);
    var m, q := Child(n, i), PathOf(n, i, path, site);
    if Unfolded(m, q, k - 1, site, g).None? {
      var rest := WhyNoList(m, q, k - 1, site, g);
      RouteMore(rest, n, path, site, g);
      r := [(n, path)] + rest;
    } else {
      r := WhyNoListBelow(n, i + 1, path, k, site, g);
    }
  }

  ghost predicate Returns(r: seq<(Node, string)>) {
    exists i, j :: 0 <= i < j < |r| && r[i].0 == r[j].0
  }

  /** A route longer than there are nodes returns to one. */
  lemma {:induction false} LongRoutesReturn(r: seq<(Node, string)>, g: set<Node>)
    requires |r| > |g| && forall i | 0 <= i < |r| :: r[i].0 in g
    ensures Returns(r)
    decreases |r|
  {
    var n := |r| - 1;
    var last := r[n].0;
    if i :| 0 <= i < n && r[i].0 == last {
    } else {
      var init := r[..n];
      SmallerSet(g - {last}, g, last);
      LongRoutesReturn(init, g - {last});
      var i, j :| 0 <= i < j < |init| && init[i].0 == init[j].0;
      assert r[i] == init[i] && r[j] == init[j];
    }
  }

  /** A node on the way to itself has no list. */
  lemma ReturningHasNoList(r: seq<(Node, string)>, k: nat, site: Site, g: set<Node>)
    requires Closed(g) && IsRoute(r, site, g) && Returns(r) && Trims(site)
    ensures Unfolded(r[0].0, r[0].1, k, site, g).None?
  {
    hide Unfolded, Leads, Faulty;
    if Unfolded(r[0].0, r[0].1, k, site, g).Some? {
      var i, j :| 0 <= i < j < |r| && r[i].0 == r[j].0;
      PrefixRoute(r, i, site, g);
      var l := RouteIsListed(r[..i + 1], k, site, g);
      assert r[..i + 1][|r[..i + 1]| - 1] == r[i];
      var c := Nodes(r[i..j + 1]);
      CycleTrail(r, i, j, site, g);
      CyclesHaveNoList(c, r[i].1, l, site, g);
    }
  }

  function Nodes(r: seq<(Node, string)>): seq<Node> {
    seq(|r|, i requires 0 <= i < |r| => r[i].0)
  }

  lemma PrefixRoute(r: seq<(Node, string)>, i: nat, site: Site, g: set<Node>)
    requires Closed(g) && IsRoute(r, site, g) && i < |r|
    ensures IsRoute(r[..i + 1], site, g) && r[..i + 1][0] == r[0]
  {
    hide Leads;
  }

  lemma CycleTrail(r: seq<(Node, string)>, i: nat, j: nat, site: Site, g: set<Node>)
    requires Closed(g) && IsRoute(r, site, g) && i < j < |r| && r[i].0 == r[j].0
    ensures var c := Nodes(r[i..j + 1]); |c| > 1 && IsTrail(c) && c[0] == r[i].0 && c[|c| - 1] == c[0]
  {
    var c := Nodes(r[i..j + 1]);
    forall x | 0 <= x < |c| - 1 ensures StepsTo(c[x], c[x + 1]) {
      var n, m := r[i + x], r[i + x + 1];
      assert Leads(n.0, n.1, m.0, m.1, site, g);
      if n.0.kind != AliasKind {
        var y := LeadsToChild(n.0, n.1, m.0, m.1, site, g);
      }
    }
  }

  /** Without a list as deep as there are nodes, some route leads to a faulty place, or back to a node on it. */
  lemma WhyNone(n: Node, path: string, site: Site, g: set<Node>) returns (r: seq<(Node, string)>)
    requires Closed(g) && n in g && Trims(site) && Unfolded(n, path, |g|, site, g).None?
    ensures From(r, n, path, site, g) && (Returns(r) || Faulty(r[|r| - 1].0, r[|r| - 1].1, site, g))
  {
    hide Unfolded, Faulty, Leads;
    r := WhyNoList(n, path, |g|, site, g);
    if !Faulty(r[|r| - 1].0, r[|r| - 1].1, site, g) { LongRoutesReturn(r, g); }
  }

  /** And such a route leaves its start without a list, however deep. */
  lemma NoneAt(r: seq<(Node, string)>, k: nat, site: Site, g: set<Node>)
    requires Closed(g) && IsRoute(r, site, g) && Trims(site)
    requires Returns(r) || Faulty(r[|r| - 1].0, r[|r| - 1].1, site, g)
    ensures Unfolded(r[0].0, r[0].1, k, site, g).None?
  {
    hide Unfolded, Faulty, Leads;
    if Returns(r) {
      ReturningHasNoList(r, k, site, g);
    } else if Unfolded(r[0].0, r[0].1, k, site, g).Some? {
      var l := RouteIsListed(r, k, site, g);
    }
  }
}
