/** The descendants of an elevated launcher: how deep each one is, and the order in which they are killed. */
module ProcessTree {
  import opened Collections

  type Pid = int

  datatype Entry = Entry(pid: Pid, parent: Pid)

  predicate UniquePids(entries: seq<Entry>) {
    forall i, j | 0 <= i < j < |entries| :: entries[i].pid != entries[j].pid
  }

  /** From `pid`, the parents lead to the root in `n` steps. */
  ghost predicate Climbs(entries: seq<Entry>, root: Pid, pid: Pid, n: nat)
    decreases n
  {
    if n == 0 then pid == root
    else pid != root && exists q :: Entry(pid, q) in entries && Climbs(entries, root, q, n - 1)
  }

  ghost predicate Descends(entries: seq<Entry>, root: Pid, pid: Pid) {
    exists n: nat :: Climbs(entries, root, pid, n)
  }

  lemma OneParent(entries: seq<Entry>, pid: Pid, p: Pid, q: Pid)
    requires UniquePids(entries) && Entry(pid, p) in entries && Entry(pid, q) in entries
    ensures p == q
  {
  }

  lemma {:induction false} ClimbIsUnique(entries: seq<Entry>, root: Pid, pid: Pid, n: nat, m: nat)
    requires UniquePids(entries) && Climbs(entries, root, pid, n) && Climbs(entries, root, pid, m)
    ensures n == m
    decreases n
  {
    if n > 0 && m > 0 {
      var p :| Entry(pid, p) in entries && Climbs(entries, root, p, n - 1);
      var q :| Entry(pid, q) in entries && Climbs(entries, root, q, m - 1);
      OneParent(entries, pid, p, q);
      ClimbIsUnique(entries, root, p, n - 1, m - 1);
    }
  }

  /** Each recorded depth is the length of a climb through recorded processes. */
  ghost predicate Sound(entries: seq<Entry>, root: Pid, depths: map<Pid, nat>) {
    && root in depths && depths[root] == 0
    && forall pid | pid in depths && pid != root :: Linked(entries, depths, pid)
  }

  ghost predicate Linked(entries: seq<Entry>, depths: map<Pid, nat>, pid: Pid)
    requires pid in depths
  {
    exists q :: Entry(pid, q) in entries && q in depths && depths[pid] == depths[q] + 1
  }

  /** No entry whose parent is recorded is missing. */
  predicate Saturated(entries: seq<Entry>, depths: map<Pid, nat>) {
    forall i | 0 <= i < |entries| && entries[i].parent in depths :: entries[i].pid in depths
  }

  lemma {:induction false} SoundClimbs(entries: seq<Entry>, root: Pid, depths: map<Pid, nat>, pid: Pid)
    requires Sound(entries, root, depths) && pid in depths
    ensures Climbs(entries, root, pid, depths[pid])
    decreases depths[pid]
  {
    if pid != root {
      assert Linked(entries, depths, pid);
      var q :| Entry(pid, q) in entries && q in depths && depths[pid] == depths[q] + 1;
      SoundClimbs(entries, root, depths, q);
    }
  }

  lemma {:induction false} SaturatedReaches(entries: seq<Entry>, root: Pid, depths: map<Pid, nat>, pid: Pid, n: nat)
    requires Saturated(entries, depths) && root in depths && Climbs(entries, root, pid, n)
    ensures pid in depths
    decreases n
  {
    if n > 0 {
      var q :| Entry(pid, q) in entries && Climbs(entries, root, q, n - 1);
      SaturatedReaches(entries, root, depths, q, n - 1);
      var i :| 0 <= i < |entries| && entries[i] == Entry(pid, q);
    }
  }

  /** Below a recorded process every smaller depth occurs, so that the map is larger than any depth in it. */
  lemma {:induction false} DepthBelowSize(entries: seq<Entry>, root: Pid, depths: map<Pid, nat>, pid: Pid)
    requires Sound(entries, root, depths) && pid in depths
    ensures depths[pid] < |depths|
  {
    var line := LineOf(entries, root, depths, pid);
    assert |line| == depths[pid] + 1;
    SubsetSize(line, depths.Keys);
    assert |depths.Keys| == |depths|;
  }

  /** The process and its recorded ancestors, one for each depth. */
  lemma {:induction false} LineOf(entries: seq<Entry>, root: Pid, depths: map<Pid, nat>, pid: Pid)
    returns (line: set<Pid>)
    requires Sound(entries, root, depths) && pid in depths
    ensures line <= depths.Keys && |line| == depths[pid] + 1
    ensures forall q | q in line :: depths[q] <= depths[pid]
    decreases depths[pid]
  {
    if pid == root {
      line := {root};
    } else {
      assert Linked(entries, depths, pid);
      var q :| Entry(pid, q) in entries && q in depths && depths[pid] == depths[q] + 1;
      var above := LineOf(entries, root, depths, q);
      assert pid !in above;
      line := above + {pid};
    }
  }

  /** What a sweep that came to rest has found: exactly the descendants, at the lengths of their climbs. */
  ghost predicate Exact(entries: seq<Entry>, root: Pid, depths: map<Pid, nat>) {
    && (forall pid :: pid in depths <==> Descends(entries, root, pid))
    && (forall pid | pid in depths :: Climbs(entries, root, pid, depths[pid]) && depths[pid] < |depths|)
    && (UniquePids(entries) ==> forall pid, n: nat | Climbs(entries, root, pid, n) :: pid in depths && depths[pid] == n)
  }

  /** Sweeps over the entries until nothing is added: every process below the root, with its depth. */
  method DescendantDepths(entries: seq<Entry>, root: Pid) returns (depths: map<Pid, nat>)
    ensures Exact(entries, root, depths)
    ensures Sound(entries, root, depths) && Saturated(entries, depths)
  {
    hide Climbs, Exact, Linked;
    depths := map[root := 0];
    ghost var all := AllPids(entries) + {root};
    var changed := true;
    while changed
      invariant Sound(entries, root, depths) && depths.Keys <= all
      invariant changed || Saturated(entries, depths)
      decreases |all - depths.Keys|, if changed then 1 else 0
    {
      ghost var before := depths;
      depths, changed := Sweep(entries, root, depths, all);
    }
    DepthsExact(entries, root, depths);
  }

  /** One sweep over the entries. */
  method Sweep(entries: seq<Entry>, root: Pid, before: map<Pid, nat>, ghost all: set<Pid>)
    returns (depths: map<Pid, nat>, changed: bool)
    requires Sound(entries, root, before) && before.Keys <= all && AllPids(entries) <= all
    ensures Sound(entries, root, depths) && depths.Keys <= all
    ensures changed ==> |all - depths.Keys| < |all - before.Keys|
    ensures !changed ==> depths == before && Saturated(entries, depths)
  {
    hide Climbs, Linked;
    depths, changed := before, false;
    for index := 0 to |entries|
      invariant Sound(entries, root, depths) && depths.Keys <= all
      invariant changed ==> |all - depths.Keys| < |all - before.Keys|
      invariant !changed ==> depths == before
      invariant !changed ==> forall i | 0 <= i < index && entries[i].parent in depths :: entries[i].pid in depths
    {
      var entry := entries[index];
      if entry.pid !in depths && entry.parent in depths {
        assert entry.pid in AllPids(entries);
        ghost var missing := all - depths.Keys;
        Extends(entries, root, depths, index);
        depths := depths[entry.pid := depths[entry.parent] + 1];
        SmallerSet(all - depths.Keys, missing, entry.pid);
        changed := true;
      }
    }
  }

  lemma DepthsExact(entries: seq<Entry>, root: Pid, depths: map<Pid, nat>)
    requires Sound(entries, root, depths) && Saturated(entries, depths)
    ensures Exact(entries, root, depths)
  {
    hide Climbs;
    forall pid ensures pid in depths <==> Descends(entries, root, pid) {
      if pid in depths { SoundClimbs(entries, root, depths, pid); }
      if Descends(entries, root, pid) {
        var n: nat :| Climbs(entries, root, pid, n);
        SaturatedReaches(entries, root, depths, pid, n);
      }
    }
    forall pid | pid in depths ensures Climbs(entries, root, pid, depths[pid]) && depths[pid] < |depths| {
      SoundClimbs(entries, root, depths, pid);
      DepthBelowSize(entries, root, depths, pid);
    }
    if UniquePids(entries) {
      forall pid, n: nat | Climbs(entries, root, pid, n) ensures pid in depths && depths[pid] == n {
        SaturatedReaches(entries, root, depths, pid, n);
        SoundClimbs(entries, root, depths, pid);
        ClimbIsUnique(entries, root, pid, n, depths[pid]);
      }
    }
  }

  ghost function AllPids(entries: seq<Entry>): set<Pid> {
    set i | 0 <= i < |entries| :: entries[i].pid
  }

  lemma Extends(entries: seq<Entry>, root: Pid, depths: map<Pid, nat>, index: nat)
    requires Sound(entries, root, depths) && index < |entries| && entries[index].pid !in depths
    requires entries[index].parent in depths
    ensures Sound(entries, root, depths[entries[index].pid := depths[entries[index].parent] + 1])
  {
    var entry := entries[index];
    var more := depths[entry.pid := depths[entry.parent] + 1];
    forall pid | pid in more && pid != root ensures Linked(entries, more, pid) {
      if pid == entry.pid {
        assert entry == Entry(pid, entry.parent) && entry in entries;
      } else {
        assert Linked(entries, depths, pid);
        var q :| Entry(pid, q) in entries && q in depths && depths[pid] == depths[q] + 1;
        assert q in more && more[q] == depths[q];
      }
    }
  }

  // ---- Killing them ----

  predicate NoRepeats(kills: seq<Pid>) {
    forall i, j | 0 <= i < j < |kills| :: kills[i] != kills[j]
  }

  /**
   Kills the descendants, the deepest first. Unless a kill fails, every descendant is signalled
   exactly once, and before its parent; a failure stops the sweep.
   */
  method KillElevatedDescendants(entries: seq<Entry>, root: Pid) returns (ok: bool, kills: seq<Pid>)
    requires UniquePids(entries)
    ensures NoRepeats(kills)
    ensures forall pid | pid in kills :: pid != root && Descends(entries, root, pid)
    ensures ok ==> forall pid | pid != root && Descends(entries, root, pid) :: pid in kills
    ensures forall i, j | 0 <= i < |kills| && 0 <= j < |kills| && Entry(kills[i], kills[j]) in entries :: i < j
  {
    hide Climbs, Sound, Descends;
    var depths := DescendantDepths(entries, root);
    kills := [];
    var depth := |depths|;
    while depth > 0
      invariant 0 <= depth <= |depths| && KilledBelow(depths, root, kills, depth, {})
    {
      var pending := depths.Keys;
      while pending != {}
        invariant pending <= depths.Keys && KilledBelow(depths, root, kills, depth, depths.Keys - pending)
      {
        var pid := AnyOf(pending);
        if pid != root && depths[pid] == depth {
          var failed: bool := *;
          KillsSoFar(entries, root, depths, kills, depth, depths.Keys - pending);
          kills := kills + [pid];
          if failed {
            KillsSoFar(entries, root, depths, kills, depth, depths.Keys - pending + {pid});
            return false, kills;
          }
        }
        pending := pending - {pid};
      }
      depth := depth - 1;
      assert KilledBelow(depths, root, kills, depth, {});
    }
    KillsSoFar(entries, root, depths, kills, 0, {});
    forall pid | pid != root && Descends(entries, root, pid) ensures pid in kills {
      assert pid in depths;
      NotAtRoot(entries, root, depths, pid);
    }
    ok := true;
  }

  /** Deeper processes are done, and those at this depth that were visited; in order of depth, none twice. */
  ghost predicate KilledBelow(depths: map<Pid, nat>, root: Pid, kills: seq<Pid>, depth: nat, visited: set<Pid>) {
    && NoRepeats(kills)
    && (forall pid | pid in kills :: pid in depths && pid != root)
    && (forall i, j | 0 <= i < j < |kills| :: depths[kills[i]] >= depths[kills[j]])
    && (forall pid | pid in depths :: pid in kills <==>
      pid != root && (depths[pid] > depth || (depths[pid] == depth && pid in visited)))
  }

  lemma NotAtRoot(entries: seq<Entry>, root: Pid, depths: map<Pid, nat>, pid: Pid)
    requires Sound(entries, root, depths) && pid in depths && pid != root
    ensures depths[pid] > 0
  {
    assert Linked(entries, depths, pid);
  }

  lemma KillsSoFar(entries: seq<Entry>, root: Pid, depths: map<Pid, nat>, kills: seq<Pid>, depth: nat,
    visited: set<Pid>)
    requires UniquePids(entries) && KilledBelow(depths, root, kills, depth, visited) && Sound(entries, root, depths)
    ensures forall i, j | 0 <= i < |kills| && 0 <= j < |kills| && Entry(kills[i], kills[j]) in entries :: i < j
  {
    forall i, j | 0 <= i < |kills| && 0 <= j < |kills| && Entry(kills[i], kills[j]) in entries ensures i < j {
      assert kills[i] in kills && kills[j] in kills;
      ChildIsDeeper(entries, root, depths, kills[i], kills[j]);
    }
  }

  lemma ChildIsDeeper(entries: seq<Entry>, root: Pid, depths: map<Pid, nat>, pid: Pid, parent: Pid)
    requires UniquePids(entries) && Sound(entries, root, depths) && Entry(pid, parent) in entries
    requires pid in depths && parent in depths && pid != root
    ensures depths[pid] == depths[parent] + 1
  {
    assert Linked(entries, depths, pid);
    var q :| Entry(pid, q) in entries && q in depths && depths[pid] == depths[q] + 1;
    OneParent(entries, pid, parent, q);
  }
}
