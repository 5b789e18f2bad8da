/**
 The shared-connection registry as a transition system: what is on disk, which processes
 live, what was signalled, and what every step of any workspace guarantees to the others.
 */
module LeaseProtocol {
  import opened Options

  type Fingerprint = string
  type Lease = string  // the state root of the workspace that holds it
  type Pid = nat
  type Time = int

  const GRACE: Time := 300
  const KTCTL := "ktctl"

  /** The leader of a connection; `identity` is the start token that tells incarnations of a pid apart. */
  datatype Leader = Leader(pid: Pid, pgid: Pid, identity: nat)

  datatype Process = Process(driver: string, fingerprint: Fingerprint, leader: Leader, owned: bool, managed: bool)

  datatype Record = Record(process: Process, leases: map<Lease, Time>)

  /** An entry of the process table. */
  datatype Live = Live(pgid: Pid, identity: nat, zombie: bool)

  /** The clock, the workspaces' own files and the endpoints that answer, as one step sees them. */
  datatype Outside = Outside(now: Time, locked: set<Lease>, irregular: set<Lease>, serving: set<(Lease, Fingerprint)>,
    answering: set<Fingerprint>)

  /**
   A signal sent to a process group, with the leases its record held on disk at that moment,
   and the other records whose connection ran in the same group.
   */
  datatype Signal = Signal(fingerprint: Fingerprint, leader: Leader, force: bool, verified: bool,
    leases: map<Lease, Time>, bystanders: set<Fingerprint>, caller: Lease, outside: Outside)

  datatype Snapshot = Snapshot(
    records: map<Fingerprint, Record>,
    live: map<Pid, Live>,
    born: set<nat>,
    started: set<Leader>,
    signals: seq<Signal>,
    returned: set<(Fingerprint, Leader)>)

  // ---- Leases ----

  /** Whether the workspace behind a lease is at work; its own lock does not count for itself. */
  predicate LeaseActive(o: Outside, lease: Lease, fp: Fingerprint, ignoreLock: bool) {
    (!ignoreLock && lease in o.locked) || lease in o.irregular || (lease, fp) in o.serving
  }

  predicate Effective(o: Outside, lease: Lease, created: Time, fp: Fingerprint, caller: Lease) {
    o.now - created < GRACE || LeaseActive(o, lease, fp, lease == caller)
  }

  function Pruned(o: Outside, leases: map<Lease, Time>, fp: Fingerprint, caller: Lease): map<Lease, Time> {
    map l | l in leases && Effective(o, l, leases[l], fp, caller) :: leases[l]
  }

  /** The leases other workspaces may rely on. */
  ghost predicate HeldByOther(o: Outside, r: Record, fp: Fingerprint, lease: Lease, caller: Lease) {
    lease != caller && lease in r.leases && Effective(o, lease, r.leases[lease], fp, caller)
  }

  // ---- Processes ----

  predicate Running(live: map<Pid, Live>, p: Leader) {
    p.pid in live && live[p.pid].identity == p.identity && live[p.pid].pgid == p.pgid
  }

  predicate GroupAlive(live: map<Pid, Live>, pgid: Pid) {
    pgid > 0 && exists pid :: pid in live && live[pid].pgid == pgid
  }

  /**
   Processes may exit, and pids may be reused, but only by processes that never existed before; a process
   that has become a zombie stays one.
   */
  predicate Elapsed(s: Snapshot, t: Snapshot) {
    && s.born <= t.born
    && (forall pid | pid in t.live :: t.live[pid].identity in t.born)
    && (forall pid | pid in t.live && t.live[pid].identity in s.born ::
          pid in s.live && s.live[pid].identity == t.live[pid].identity && s.live[pid].pgid == t.live[pid].pgid
          && (s.live[pid].zombie ==> t.live[pid].zombie))
  }

  /** Every process of the group that existed in `s` has exited by `t`. */
  predicate GroupGone(s: Snapshot, t: Snapshot, pgid: Pid) {
    forall pid | pid in t.live && t.live[pid].identity in s.born :: t.live[pid].pgid != pgid
  }

  lemma GoneForGood(s: Snapshot, t: Snapshot, p: Leader)
    requires Elapsed(s, t) && p.identity in s.born && !Running(s.live, p)
    ensures !Running(t.live, p)
  {
  }

  // ---- Invariants of the registry ----

  ghost predicate AtMostOneTunnel(s: Snapshot) {
    forall f, g | f in s.records && g in s.records && s.records[f].process.driver == KTCTL
      && s.records[g].process.driver == KTCTL :: f == g
  }

  predicate WellRecorded(s: Snapshot, f: Fingerprint)
    requires f in s.records
  {
    var p := s.records[f].process;
    p.owned && p.managed && p.fingerprint == f && p.leader in s.started && "" !in s.records[f].leases
  }

  ghost predicate WellFormed(s: Snapshot) {
    && (forall f | f in s.records :: WellRecorded(s, f))
    && (forall x | x in s.returned :: x.1 in s.started)
    && (forall p | p in s.started :: p.pgid > 0 && p.identity in s.born)
    && (forall pid | pid in s.live :: s.live[pid].identity in s.born)
  }

  /** Connections that run at the same time lead different process groups. */
  ghost predicate GroupsApart(s: Snapshot) {
    forall p, q | p in s.started && q in s.started && Running(s.live, p) && Running(s.live, q) && p.pgid == q.pgid ::
      p == q
  }

  /** Every record has its own connection. */
  ghost predicate RecordsApart(s: Snapshot) {
    forall f, g | f in s.records && g in s.records && s.records[f].process.leader == s.records[g].process.leader ::
      f == g
  }

  /** Every live connection an ensure step handed out as managed still has its record. */
  ghost predicate NoOrphan(s: Snapshot) {
    forall x | x in s.returned && Running(s.live, x.1) :: x.0 in s.records && s.records[x.0].process.leader == x.1
  }

  /**
   No record's group was signalled while another workspace relied on it. Unless forced, the
   leader had been verified; and then no other record's connection ran in the group.
   */
  ghost predicate SafeSignal(x: Signal) {
    && (forall l | l in x.leases && l != x.caller :: !Effective(x.outside, l, x.leases[l], x.fingerprint, x.caller))
    && (x.force || x.verified)
    && (x.verified ==> x.bystanders == {})
  }

  ghost predicate SignalsSafe(s: Snapshot) {
    forall x | x in s.signals :: SafeSignal(x)
  }

  ghost predicate Inv(s: Snapshot) {
    WellFormed(s) && GroupsApart(s) && RecordsApart(s) && AtMostOneTunnel(s) && NoOrphan(s) && SignalsSafe(s)
  }

  // ---- What a step of one workspace may do ----

  /** A lease others hold stays where it is, with its time, unless the whole group is gone. */
  ghost predicate KeepsLeases(o: Outside, s: Snapshot, t: Snapshot, caller: Lease) {
    forall f, l | f in s.records && HeldByOther(o, s.records[f], f, l, caller) ::
      Keeps(s.records[f], t, f, l) || GroupGone(s, t, s.records[f].process.leader.pgid)
  }

  predicate Keeps(r: Record, t: Snapshot, f: Fingerprint, l: Lease)
    requires l in r.leases
  {
    f in t.records && t.records[f].process == r.process && l in t.records[f].leases
      && t.records[f].leases[l] == r.leases[l]
  }

  /** A record goes away, or is taken over by a new process, only when its group is gone. */
  ghost predicate KeepsRecords(s: Snapshot, t: Snapshot) {
    forall f | f in s.records ::
      (f in t.records && t.records[f].process == s.records[f].process)
        || GroupGone(s, t, s.records[f].process.leader.pgid)
  }

  /** A connection is recorded by the step that started it, or never. */
  ghost predicate RecordsFresh(s: Snapshot, t: Snapshot) {
    forall f | f in t.records ::
      (f in s.records && t.records[f].process == s.records[f].process) || t.records[f].process.leader !in s.started
  }

  /** Leases are added for the caller only, and stamped with the time of the step. */
  ghost predicate AddsOwnLease(o: Outside, s: Snapshot, t: Snapshot, caller: Lease) {
    forall f, l | f in t.records && l in t.records[f].leases
      && !(f in s.records && l in s.records[f].leases && s.records[f].leases[l] == t.records[f].leases[l]) ::
      l == caller && t.records[f].leases[l] == o.now
  }

  /** A connection another workspace relies on is not signalled, unless its whole group is already gone. */
  ghost predicate SparesHeld(o: Outside, s: Snapshot, t: Snapshot, caller: Lease) {
    forall i, f, l | |s.signals| <= i < |t.signals| && f in s.records && HeldByOther(o, s.records[f], f, l, caller)
        && t.signals[i].leader == s.records[f].process.leader ::
      GroupGone(s, t, t.signals[i].leader.pgid)
  }

  ghost predicate Step(o: Outside, s: Snapshot, t: Snapshot, caller: Lease) {
    && Elapsed(s, t) && KeepsLeases(o, s, t, caller) && KeepsRecords(s, t) && RecordsFresh(s, t)
    && AddsOwnLease(o, s, t, caller)
    && s.signals <= t.signals && SparesHeld(o, s, t, caller)
    && s.returned <= t.returned && s.started <= t.started
  }

  lemma StepRefl(o: Outside, s: Snapshot, caller: Lease)
    requires WellFormed(s)
    ensures Step(o, s, s, caller)
  {
  }

  lemma StepElapses(o: Outside, s: Snapshot, t: Snapshot, caller: Lease)
    requires Step(o, s, t, caller)
    ensures Elapsed(s, t)
  {
  }

  lemma ElapsedTrans(s: Snapshot, t: Snapshot, u: Snapshot)
    requires Elapsed(s, t) && Elapsed(t, u)
    ensures Elapsed(s, u)
  {
  }

  lemma GroupGoneTrans(s: Snapshot, t: Snapshot, u: Snapshot, pgid: Pid)
    requires Elapsed(s, t) && Elapsed(t, u) && (GroupGone(s, t, pgid) || GroupGone(t, u, pgid))
    ensures GroupGone(s, u, pgid)
  {
  }

  /** Steps of one workspace under one lock compose. */
  lemma StepTrans(o: Outside, s: Snapshot, t: Snapshot, u: Snapshot, caller: Lease)
    requires Step(o, s, t, caller) && Step(o, t, u, caller)
    ensures Step(o, s, u, caller)
  {
    ElapsedTrans(s, t, u);
    KeepsRecordsTrans(o, s, t, u, caller);
    KeepsLeasesTrans(o, s, t, u, caller);
    SparesHeldTrans(o, s, t, u, caller);
    assert AddsOwnLease(o, s, u, caller);
  }

  lemma KeepsRecordsTrans(o: Outside, s: Snapshot, t: Snapshot, u: Snapshot, caller: Lease)
    requires Step(o, s, t, caller) && Step(o, t, u, caller)
    ensures KeepsRecords(s, u) && RecordsFresh(s, u)
  {
    forall f | f in s.records && !(f in u.records && u.records[f].process == s.records[f].process)
      ensures GroupGone(s, u, s.records[f].process.leader.pgid)
    {
      GroupGoneTrans(s, t, u, s.records[f].process.leader.pgid);
    }
  }

  lemma KeepsLeasesTrans(o: Outside, s: Snapshot, t: Snapshot, u: Snapshot, caller: Lease)
    requires Step(o, s, t, caller) && Step(o, t, u, caller)
    ensures KeepsLeases(o, s, u, caller)
  {
    forall f, l | f in s.records && HeldByOther(o, s.records[f], f, l, caller) && !Keeps(s.records[f], u, f, l)
      ensures GroupGone(s, u, s.records[f].process.leader.pgid)
    {
      var pgid := s.records[f].process.leader.pgid;
      if Keeps(s.records[f], t, f, l) {
        assert HeldByOther(o, t.records[f], f, l, caller);
      }
      GroupGoneTrans(s, t, u, pgid);
    }
  }

  lemma SparesHeldTrans(o: Outside, s: Snapshot, t: Snapshot, u: Snapshot, caller: Lease)
    requires Step(o, s, t, caller) && Step(o, t, u, caller)
    ensures SparesHeld(o, s, u, caller)
  {
    forall i, f, l | |s.signals| <= i < |u.signals| && f in s.records && HeldByOther(o, s.records[f], f, l, caller)
        && u.signals[i].leader == s.records[f].process.leader
      ensures GroupGone(s, u, u.signals[i].leader.pgid)
    {
      var pgid := u.signals[i].leader.pgid;
      if i < |t.signals| {
        assert u.signals[i] == t.signals[i];
      } else if Keeps(s.records[f], t, f, l) {
        assert HeldByOther(o, t.records[f], f, l, caller);
      }
      GroupGoneTrans(s, t, u, pgid);
    }
  }

  // ---- The moves a step is made of ----

  /** Time passes: processes exit, pids are reused. */
  lemma ElapseMove(o: Outside, s: Snapshot, t: Snapshot, caller: Lease)
    requires Inv(s) && Elapsed(s, t) && t == s.(live := t.live, born := t.born)
    ensures Inv(t) && Step(o, s, t, caller)
  {
    forall p | p in s.started && Running(t.live, p) ensures Running(s.live, p) {
      if !Running(s.live, p) { GoneForGood(s, t, p); }
    }
  }

  function WithLeases(s: Snapshot, f: Fingerprint, leases: map<Lease, Time>): Snapshot
    requires f in s.records
  {
    s.(records := s.records[f := s.records[f].(leases := leases)])
  }

  lemma LeasesKeepInv(s: Snapshot, f: Fingerprint, leases: map<Lease, Time>)
    requires Inv(s) && f in s.records && "" !in leases
    ensures Inv(WithLeases(s, f, leases))
  {
    var t := WithLeases(s, f, leases);
    assert forall g | g in t.records :: g in s.records && t.records[g].process == s.records[g].process;
  }

  /** A record is written with other leases: those held by others kept, the caller's possibly renewed. */
  lemma LeaseMove(o: Outside, s: Snapshot, f: Fingerprint, leases: map<Lease, Time>, caller: Lease)
    requires Inv(s) && f in s.records && "" !in leases
    requires forall l | HeldByOther(o, s.records[f], f, l, caller) :: l in leases && leases[l] == s.records[f].leases[l]
    requires forall l | l in leases && !(l in s.records[f].leases && leases[l] == s.records[f].leases[l]) ::
      l == caller && leases[l] == o.now
    ensures Inv(WithLeases(s, f, leases)) && Step(o, s, WithLeases(s, f, leases), caller)
  {
    hide Inv, Elapsed, GroupGone, WellFormed, Effective, SafeSignal;
    LeasesKeepInv(s, f, leases);
    InvWellFormed(s);
    StepRefl(o, s, caller);
    LeasesKept(o, s, f, leases, caller);
    var t := WithLeases(s, f, leases);
    assert Elapsed(s, t) by { LeasesElapse(s, f, leases); }
    assert KeepsRecords(s, t) && RecordsFresh(s, t) by { hide HeldByOther; }
  }

  lemma LeasesElapse(s: Snapshot, f: Fingerprint, leases: map<Lease, Time>)
    requires WellFormed(s) && f in s.records
    ensures Elapsed(s, WithLeases(s, f, leases))
  {
  }

  lemma LeasesKept(o: Outside, s: Snapshot, f: Fingerprint, leases: map<Lease, Time>, caller: Lease)
    requires f in s.records
    requires forall l | HeldByOther(o, s.records[f], f, l, caller) :: l in leases && leases[l] == s.records[f].leases[l]
    requires forall l | l in leases && !(l in s.records[f].leases && leases[l] == s.records[f].leases[l]) ::
      l == caller && leases[l] == o.now
    ensures KeepsLeases(o, s, WithLeases(s, f, leases), caller) && AddsOwnLease(o, s, WithLeases(s, f, leases), caller)
    ensures SparesHeld(o, s, WithLeases(s, f, leases), caller)
  {
    hide GroupGone, Effective;
    var t := WithLeases(s, f, leases);
    assert forall g | g in t.records :: g in s.records && t.records[g].process == s.records[g].process;
    assert forall g | g in t.records && g != f :: t.records[g] == s.records[g];
    assert AddsOwnLease(o, s, t, caller) by { hide HeldByOther; }
  }

  lemma InvWellFormed(s: Snapshot)
    requires Inv(s)
    ensures WellFormed(s)
  {
  }

  /** A record is removed because its connection is gone. */
  lemma RemoveMove(o: Outside, s: Snapshot, f: Fingerprint, caller: Lease)
    requires Inv(s) && (f in s.records ==> !GroupAlive(s.live, s.records[f].process.leader.pgid))
    ensures var t := s.(records := s.records - {f}); Inv(t) && Step(o, s, t, caller)
  {
  }

  function WithRecord(s: Snapshot, f: Fingerprint, r: Record): Snapshot {
    s.(records := s.records[f := r])
  }

  ghost predicate Recordable(s: Snapshot, f: Fingerprint, r: Record, lease: Lease, now: Time) {
    && f !in s.records && lease != "" && r.leases == map[lease := now]
    && r.process.owned && r.process.managed && r.process.fingerprint == f && r.process.leader in s.started
    && (forall g | g in s.records :: s.records[g].process.leader != r.process.leader)
    && (r.process.driver == KTCTL ==> forall g | g in s.records :: s.records[g].process.driver != KTCTL)
  }

  lemma SameSignals(s: Snapshot, t: Snapshot)
    requires SignalsSafe(s) && t.signals == s.signals
    ensures SignalsSafe(t)
  {
  }

  lemma RecordKeepsForm(s: Snapshot, f: Fingerprint, r: Record, caller: Lease, now: Time)
    requires WellFormed(s) && Recordable(s, f, r, caller, now)
    ensures WellFormed(WithRecord(s, f, r))
  {
    var t := WithRecord(s, f, r);
    forall g | g in t.records ensures WellRecorded(t, g) {
      if g != f { assert WellRecorded(s, g) && t.records[g] == s.records[g]; }
    }
  }

  lemma RecordStaysApart(s: Snapshot, f: Fingerprint, r: Record, caller: Lease, now: Time)
    requires RecordsApart(s) && AtMostOneTunnel(s) && Recordable(s, f, r, caller, now)
    ensures RecordsApart(WithRecord(s, f, r)) && AtMostOneTunnel(WithRecord(s, f, r))
  {
    var t := WithRecord(s, f, r);
    assert forall g | g in t.records && g != f :: g in s.records && t.records[g] == s.records[g];
  }

  lemma RecordOrphansNone(s: Snapshot, f: Fingerprint, r: Record)
    requires NoOrphan(s) && f !in s.records
    ensures NoOrphan(WithRecord(s, f, r))
  {
    hide Running;
  }

  lemma RecordKeepsInv(s: Snapshot, f: Fingerprint, r: Record, caller: Lease, now: Time)
    requires Inv(s) && Recordable(s, f, r, caller, now)
    ensures Inv(WithRecord(s, f, r))
  {
    hide WellFormed, RecordsApart, AtMostOneTunnel, NoOrphan, SafeSignal, Running;
    RecordKeepsForm(s, f, r, caller, now);
    RecordStaysApart(s, f, r, caller, now);
    RecordOrphansNone(s, f, r);
    SameSignals(s, WithRecord(s, f, r));
  }

  /** A connection started by this very step is recorded where there is no record, for the caller alone. */
  lemma RecordMove(o: Outside, s0: Snapshot, s: Snapshot, f: Fingerprint, r: Record, caller: Lease)
    requires Inv(s) && Step(o, s0, s, caller) && Recordable(s, f, r, caller, o.now) && r.process.leader !in s0.started
    ensures Inv(WithRecord(s, f, r)) && Step(o, s0, WithRecord(s, f, r), caller)
  {
    hide Inv, Effective, KeepsRecords, KeepsLeases, RecordsFresh, AddsOwnLease;
    RecordKeepsInv(s, f, r, caller, o.now);
    RecordLosesNothing(o, s0, s, f, r, caller);
    RecordIsFresh(o, s0, s, f, r, caller);
  }

  lemma RecordLosesNothing(o: Outside, s0: Snapshot, s: Snapshot, f: Fingerprint, r: Record, caller: Lease)
    requires KeepsRecords(s0, s) && KeepsLeases(o, s0, s, caller) && f !in s.records
    ensures var t := WithRecord(s, f, r); KeepsRecords(s0, t) && KeepsLeases(o, s0, t, caller)
  {
    hide Effective, HeldByOther;
    var t := WithRecord(s, f, r);
    assert forall g | g in s.records :: g in t.records && t.records[g] == s.records[g];
    assert forall pgid | GroupGone(s0, s, pgid) :: GroupGone(s0, t, pgid);
    hide GroupGone;
  }

  lemma RecordIsFresh(o: Outside, s0: Snapshot, s: Snapshot, f: Fingerprint, r: Record, caller: Lease)
    requires RecordsFresh(s0, s) && AddsOwnLease(o, s0, s, caller)
    requires r.process.leader !in s0.started && r.leases == map[caller := o.now]
    ensures var t := WithRecord(s, f, r); RecordsFresh(s0, t) && AddsOwnLease(o, s0, t, caller)
  {
    var t := WithRecord(s, f, r);
    assert forall g | g in t.records && g != f :: g in s.records && t.records[g] == s.records[g];
  }

  /** A group is signalled. */
  lemma SignalMove(o: Outside, s: Snapshot, x: Signal, caller: Lease)
    requires Inv(s) && SafeSignal(x)
    requires forall f, l | f in s.records && s.records[f].process.leader == x.leader ::
      !HeldByOther(o, s.records[f], f, l, caller)
    ensures var t := s.(signals := s.signals + [x]); Inv(t) && Step(o, s, t, caller)
  {
  }

  /** A connection is handed out as managed. */
  lemma ReturnMove(o: Outside, s: Snapshot, f: Fingerprint, caller: Lease)
    requires Inv(s) && f in s.records
    ensures var t := s.(returned := s.returned + {(f, s.records[f].process.leader)}); Inv(t) && Step(o, s, t, caller)
  {
  }

  /** A connection is started as the leader of a group that did not exist. */
  lemma StartMove(o: Outside, s: Snapshot, t: Snapshot, p: Leader, caller: Lease)
    requires Inv(s) && Elapsed(s, t) && t == s.(live := t.live, born := t.born, started := s.started + {p})
    requires p.identity !in s.born && p.identity in t.born && p.pgid > 0 && !GroupAlive(s.live, p.pgid)
    ensures Inv(t) && Step(o, s, t, caller)
  {
    forall q | q in s.started && Running(t.live, q) ensures Running(s.live, q) {
      if !Running(s.live, q) { GoneForGood(s, t, q); }
    }
  }

  // ---- What a workspace may hold on to ----

  /** A process an ensure step may have handed out: nobody's record but its own, and none if unmanaged. */
  predicate HandedOut(s: Snapshot, p: Process) {
    (p.owned || p.managed) ==>
      && p.leader in s.started
      && (forall g | g in s.records && s.records[g].process.leader == p.leader :: p.managed && g == p.fingerprint)
  }

  lemma HandedOutStays(o: Outside, s: Snapshot, t: Snapshot, p: Process, caller: Lease)
    requires HandedOut(s, p) && Step(o, s, t, caller)
    ensures HandedOut(t, p)
  {
  }
}
