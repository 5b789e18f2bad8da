/** What holds over whole runs of the registry, whoever acts and in whatever order. */
module LeaseRuns {
  import opened Options
  import opened LeaseProtocol
  import opened ConnectionRegistry

  datatype Turn = Turn(caller: Lease, outside: Outside)

  datatype Trace = Trace(states: seq<Snapshot>, turns: seq<Turn>)

  const EMPTY := Snapshot(map[], map[], {}, {}, [], {})

  ghost predicate TurnTaken(r: Trace, i: nat)
    requires |r.states| == |r.turns| + 1 && i < |r.turns|
  {
    Step(r.turns[i].outside, r.states[i], r.states[i + 1], r.turns[i].caller)
  }

  ghost predicate IsRun(r: Trace) {
    && |r.states| == |r.turns| + 1
    && (forall i | 0 <= i < |r.states| :: Inv(r.states[i]))
    && (forall i | 0 <= i < |r.turns| :: TurnTaken(r, i))
  }

  /** The lease `l` of record `f` stays effective from state `i` to state `j`, and its owner does not act. */
  ghost predicate StaysHeld(r: Trace, i: nat, j: nat, f: Fingerprint, l: Lease)
    requires IsRun(r) && i <= j < |r.states|
  {
    && f in r.states[i].records && l in r.states[i].records[f].leases
    && (forall k | i <= k < j ::
          && l != r.turns[k].caller
          && Effective(r.turns[k].outside, l, r.states[i].records[f].leases[l], f, r.turns[k].caller))
  }

  /** No lost lease: a lease stays in its record, with its time, unless the whole process group went away. */
  lemma {:induction false} LeaseSurvives(r: Trace, i: nat, j: nat, f: Fingerprint, l: Lease)
    requires IsRun(r) && i <= j < |r.states| && StaysHeld(r, i, j, f, l)
    ensures Keeps(r.states[i].records[f], r.states[j], f, l)
      || GroupGone(r.states[i], r.states[j], r.states[i].records[f].process.leader.pgid)
    ensures Elapsed(r.states[i], r.states[j]) && r.states[i].signals <= r.states[j].signals
  {
    var s := r.states[i];
    if i == j {
      InvWellFormed(s);
    } else {
      LeaseSurvives(r, i, j - 1, f, l);
      var t, u, turn := r.states[j - 1], r.states[j], r.turns[j - 1];
      assert TurnTaken(r, j - 1);
      ElapsedTrans(s, t, u);
      if Keeps(s.records[f], t, f, l) {
        assert HeldByOther(turn.outside, t.records[f], f, l, turn.caller);
      }
      if GroupGone(s, t, s.records[f].process.leader.pgid) || GroupGone(t, u, s.records[f].process.leader.pgid) {
        GroupGoneTrans(s, t, u, s.records[f].process.leader.pgid);
      }
    }
  }

  /** Lease safety: while a lease stays held, its connection is not signalled unless its group is gone. */
  lemma {:induction false} HeldIsSpared(r: Trace, i: nat, j: nat, f: Fingerprint, l: Lease, x: nat)
    requires IsRun(r) && i <= j < |r.states| && StaysHeld(r, i, j, f, l)
    requires |r.states[i].signals| <= x < |r.states[j].signals|
    requires r.states[j].signals[x].leader == r.states[i].records[f].process.leader
    ensures GroupGone(r.states[i], r.states[j], r.states[i].records[f].process.leader.pgid)
  {
    hide Inv, GroupGone, Elapsed, Effective;
    if i < j {
      var s, t, u, turn := r.states[i], r.states[j - 1], r.states[j], r.turns[j - 1];
      var pgid := s.records[f].process.leader.pgid;
      assert TurnTaken(r, j - 1);
      LeaseSurvives(r, i, j - 1, f, l);
      if x < |t.signals| {
        HeldIsSpared(r, i, j - 1, f, l, x);
      } else if Keeps(s.records[f], t, f, l) {
        assert HeldByOther(turn.outside, t.records[f], f, l, turn.caller);
      }
      GroupGoneTrans(s, t, u, pgid);
    }
  }

  /** No orphan: a connection once handed out as managed is on record for as long as its leader lives. */
  lemma {:induction false} ManagedStaysRecorded(r: Trace, i: nat, j: nat, f: Fingerprint, p: Leader)
    requires IsRun(r) && i <= j < |r.states| && (f, p) in r.states[i].returned
    ensures (f, p) in r.states[j].returned
    ensures Running(r.states[j].live, p) ==> f in r.states[j].records && r.states[j].records[f].process.leader == p
  {
    assert Inv(r.states[j]);
    if i < j {
      ManagedStaysRecorded(r, i, j - 1, f, p);
      assert TurnTaken(r, j - 1);
    }
  }

  /** Whatever an ensure step handed out, a workspace may release at any later time. */
  lemma {:induction false} HandedOutForever(r: Trace, i: nat, j: nat, p: Process)
    requires IsRun(r) && i <= j < |r.states| && HandedOut(r.states[i], p)
    ensures HandedOut(r.states[j], p)
  {
    if i < j {
      HandedOutForever(r, i, j - 1, p);
      assert TurnTaken(r, j - 1);
      HandedOutStays(r.turns[j - 1].outside, r.states[j - 1], r.states[j], p, r.turns[j - 1].caller);
    }
  }

  // ---- Any sequence of requests is a run ----

  datatype Request = Ensure(config: Config) | Release(process: Process, force: bool) | Recover
    | Renew(process: Process, config: Config) | Wait

  datatype Appeal = Appeal(request: Request, turn: Turn)

  /** What serving one request does. */
  ghost predicate Served(s: Snapshot, t: Snapshot, appeal: Appeal) {
    var o, caller := appeal.turn.outside, appeal.turn.caller;
    match appeal.request
    case Ensure(config) => exists result :: EnsureOutcome(o, s, t, config, result, caller)
    case Release(process, force) =>
      if HandedOut(s, process) then exists ok :: ReleaseOutcome(o, s, t, process, caller, force, ok) else t == s
    case Recover => exists ok :: RecoverOutcome(o, s, t, caller, ok)
    case Renew(process, config) => exists ok, renewed :: RenewOutcome(o, s, t, process, config, caller, ok, renewed)
    case Wait => t == s.(live := t.live, born := t.born)
  }

  /** A run in which every turn serves a request. */
  ghost predicate IsServed(r: Trace, appeals: seq<Appeal>) {
    && IsRun(r) && |r.turns| == |appeals|
    && (forall i | 0 <= i < |appeals| :: r.turns[i] == appeals[i].turn)
    && (forall i | 0 <= i < |appeals| :: Served(r.states[i], r.states[i + 1], appeals[i]))
  }

  lemma RunGrows(r: Trace, turn: Turn, t: Snapshot)
    requires IsRun(r) && Inv(t) && Step(turn.outside, r.states[|r.turns|], t, turn.caller)
    ensures IsRun(Trace(r.states + [t], r.turns + [turn]))
  {
    hide Inv, Step;
    var q := Trace(r.states + [t], r.turns + [turn]);
    forall i | 0 <= i < |q.turns| ensures TurnTaken(q, i) {
      if i < |r.turns| { assert TurnTaken(r, i); }
    }
  }

  lemma InvTells(s: Snapshot)
    requires Inv(s)
    ensures AtMostOneTunnel(s) && OnlyForced(s)
  {
    hide OnlyForced;
    SignalsOnlyForced(s);
  }

  /** Serves requests of any workspaces in any order, while time passes between and during them. */
  method Serve(registry: Registry, appeals: seq<Appeal>) returns (trace: Trace)
    requires Inv(registry.s)
    modifies registry
    ensures IsServed(trace, appeals)
    ensures trace.states[0] == old(registry.s) && trace.states[|appeals|] == registry.s
    ensures forall i | 0 <= i <= |appeals| :: AtMostOneTunnel(trace.states[i]) && OnlyForced(trace.states[i])
  {
    hide Inv, Step, EnsureOutcome, ReleaseOutcome, RecoverOutcome, RenewOutcome, HandedOut, AtMostOneTunnel, OnlyForced;
    trace := Trace([registry.s], []);
    var i := 0;
    while i < |appeals|
      invariant 0 <= i <= |appeals| && |trace.turns| == i && IsRun(trace)
      invariant trace.states[0] == old(registry.s) && trace.states[i] == registry.s && Inv(registry.s)
      invariant forall k | 0 <= k < i :: trace.turns[k] == appeals[k].turn
      invariant forall k | 0 <= k < i :: Served(trace.states[k], trace.states[k + 1], appeals[k])
    {
      var turn := appeals[i].turn;
      registry.outside := turn.outside;
      ghost var before := registry.s;
      match appeals[i].request {
        case Ensure(config) =>
          var result := registry.EnsureConnection(config, turn.caller);
          assert EnsureOutcome(turn.outside, before, registry.s, config, result, turn.caller);
        case Release(process, force) =>
          InvWellFormed(before);
          StepRefl(turn.outside, before, turn.caller);
          if HandedOut(registry.s, process) {
            var ok := registry.ReleaseConnection(process, turn.caller, force);
            assert ReleaseOutcome(turn.outside, before, registry.s, process, turn.caller, force, ok);
          }
        case Recover =>
          var ok, recovered := registry.RecoverUnleased(turn.caller);
          assert RecoverOutcome(turn.outside, before, registry.s, turn.caller, ok);
        case Renew(process, config) =>
          var ok, renewed := registry.RenewRetained(process, config, turn.caller);
          assert RenewOutcome(turn.outside, before, registry.s, process, config, turn.caller, ok, renewed);
        case Wait =>
          registry.Elapse(turn.caller);
      }
      assert Served(before, registry.s, appeals[i]);
      RunGrows(trace, turn, registry.s);
      trace := Trace(trace.states + [registry.s], trace.turns + [turn]);
      i := i + 1;
    }
    forall k | 0 <= k <= |appeals| ensures AtMostOneTunnel(trace.states[k]) && OnlyForced(trace.states[k]) {
      InvTells(trace.states[k]);
    }
  }

  // ---- No lost lease ----

  /** Only by releasing this connection, or by recovering, does a workspace give its own lease of it up. */
  predicate KeepsOwn(request: Request, f: Fingerprint) {
    match request
    case Release(process, _) => process.fingerprint != f
    case Recover => false
    case _ => true
  }

  /** The record is still that of the process, with the lease in it. */
  predicate Holds(process: Process, t: Snapshot, f: Fingerprint, l: Lease) {
    f in t.records && t.records[f].process == process && l in t.records[f].leases
  }

  /** A turn that finds the lease effective, and does not give it up for its owner. */
  ghost predicate Respects(s: Snapshot, appeal: Appeal, f: Fingerprint, l: Lease) {
    var o, caller := appeal.turn.outside, appeal.turn.caller;
    f in s.records && l in s.records[f].leases ==>
      Effective(o, l, s.records[f].leases[l], f, caller) && (caller == l ==> KeepsOwn(appeal.request, f))
  }

  /** The owner's own turn leaves the lease, at the same time or stamped with the time of the turn. */
  lemma OwnTurn(s: Snapshot, t: Snapshot, appeal: Appeal, f: Fingerprint, l: Lease)
    requires Inv(s) && Step(appeal.turn.outside, s, t, appeal.turn.caller) && Served(s, t, appeal)
    requires appeal.turn.caller == l && f in s.records && l in s.records[f].leases && Respects(s, appeal, f, l)
    ensures GroupGone(s, t, s.records[f].process.leader.pgid)
      || (Holds(s.records[f].process, t, f, l)
          && (t.records[f].leases[l] == s.records[f].leases[l] || t.records[f].leases[l] == appeal.turn.outside.now))
  {
    var o := appeal.turn.outside;
    if !(f in t.records && t.records[f].process == s.records[f].process) {
      assert KeepsRecords(s, t);
      return;
    }
    match appeal.request
    case Ensure(config) =>
      var result :| EnsureOutcome(o, s, t, config, result, l);
      OwnEnsure(o, s, t, config, result, f, l);
    case Release(process, force) =>
      if HandedOut(s, process) {
        var ok :| ReleaseOutcome(o, s, t, process, l, force, ok);
        OwnRelease(o, s, t, process, force, ok, f, l);
      }
    case Renew(process, config) =>
      var ok, renewed :| RenewOutcome(o, s, t, process, config, l, ok, renewed);
    case Wait =>
  }

  lemma OwnEnsure(o: Outside, s: Snapshot, t: Snapshot, config: Config, result: Ensured, f: Fingerprint, l: Lease)
    requires Inv(s) && EnsureOutcome(o, s, t, config, result, l) && f in s.records && l in s.records[f].leases
    requires Effective(o, l, s.records[f].leases[l], f, l)
    requires f in t.records && t.records[f].process == s.records[f].process
    ensures l in t.records[f].leases
    ensures t.records[f].leases[l] == s.records[f].leases[l] || t.records[f].leases[l] == o.now
  {
    hide Effective, Accepted;
    assert WellRecorded(s, f) by { InvWellFormed(s); }
    hide Inv;
    if result.Managed? && f == result.process.fingerprint {
      assert Shared(o, s, t, config, result.process, l);
    } else {
      assert SameOrPruned(o, s.records[f], t.records[f], f, l);
    }
  }

  lemma OwnRelease(o: Outside, s: Snapshot, t: Snapshot, process: Process, force: bool, ok: bool, f: Fingerprint,
    l: Lease)
    requires ReleaseOutcome(o, s, t, process, l, force, ok) && f in s.records && process.fingerprint != f
    ensures f in t.records && t.records[f] == s.records[f]
  {
    hide Pruned;
  }

  /** The time of a lease at state `j`: the one it had at state `i`, or that of a turn its owner took since. */
  predicate TimeFrom(r: Trace, i: nat, j: nat, f: Fingerprint, l: Lease)
    requires |r.states| == |r.turns| + 1 && i <= j < |r.states|
    requires f in r.states[i].records && l in r.states[i].records[f].leases
    requires f in r.states[j].records && l in r.states[j].records[f].leases
  {
    var time := r.states[j].records[f].leases[l];
    time == r.states[i].records[f].leases[l]
    || exists k | i <= k < j :: r.turns[k].caller == l && r.turns[k].outside.now == time
  }

  /**
   No lost lease, whoever acts and whatever the owner does but release this connection or recover: as
   long as the lease is effective at every turn, it stays in the record of its process, unless the whole
   process group went away. Only its owner's turns may give it a new time.
   */
  lemma {:induction false} LeaseLasts(r: Trace, appeals: seq<Appeal>, i: nat, j: nat, f: Fingerprint, l: Lease)
    requires IsServed(r, appeals) && i <= j < |r.states|
    requires f in r.states[i].records && l in r.states[i].records[f].leases
    requires forall k | i <= k < j :: Respects(r.states[k], appeals[k], f, l)
    ensures Elapsed(r.states[i], r.states[j])
    ensures GroupGone(r.states[i], r.states[j], r.states[i].records[f].process.leader.pgid)
      || (Holds(r.states[i].records[f].process, r.states[j], f, l) && TimeFrom(r, i, j, f, l))
  {
    hide Inv, GroupGone, Elapsed, Effective, Served, WellFormed;
    var s := r.states[i];
    if i == j {
      InvWellFormed(s);
      StepRefl(CALM, s, "");
    } else {
      var t, u, appeal := r.states[j - 1], r.states[j], appeals[j - 1];
      var pgid := s.records[f].process.leader.pgid;
      LeaseLasts(r, appeals, i, j - 1, f, l);
      assert TurnTaken(r, j - 1) && r.turns[j - 1] == appeal.turn;
      ElapsedTrans(s, t, u);
      if GroupGone(s, t, pgid) {
        GroupGoneTrans(s, t, u, pgid);
      } else {
        TurnKeeps(t, u, appeal, f, l);
        if GroupGone(t, u, pgid) { GroupGoneTrans(s, t, u, pgid); }
      }
    }
  }

  /** One turn of anybody. */
  lemma TurnKeeps(s: Snapshot, t: Snapshot, appeal: Appeal, f: Fingerprint, l: Lease)
    requires Inv(s) && Step(appeal.turn.outside, s, t, appeal.turn.caller) && Served(s, t, appeal)
    requires f in s.records && l in s.records[f].leases && Respects(s, appeal, f, l)
    ensures GroupGone(s, t, s.records[f].process.leader.pgid)
      || (Holds(s.records[f].process, t, f, l)
          && (t.records[f].leases[l] == s.records[f].leases[l]
              || (appeal.turn.caller == l && t.records[f].leases[l] == appeal.turn.outside.now)))
  {
    if appeal.turn.caller == l {
      hide Inv, GroupGone, Elapsed, Effective, Served;
      OwnTurn(s, t, appeal, f, l);
    } else {
      hide Inv, GroupGone, Elapsed, Effective, Served;
      assert HeldByOther(appeal.turn.outside, s.records[f], f, l, appeal.turn.caller);
      assert KeepsLeases(appeal.turn.outside, s, t, appeal.turn.caller);
    }
  }

  // ---- Other connections in a signalled group ----

  /** Unless an unverified group is stopped by force, no signal reaches another record's connection. */
  predicate OnlyForced(s: Snapshot) {
    forall i | 0 <= i < |s.signals| && s.signals[i].bystanders != {} :: s.signals[i].force && !s.signals[i].verified
  }

  lemma SignalsOnlyForced(s: Snapshot)
    requires SignalsSafe(s)
    ensures OnlyForced(s)
  {
    forall i | 0 <= i < |s.signals| ensures SafeSignal(s.signals[i]) {
      assert s.signals[i] in s.signals;
    }
  }

  /** The one way to reach another record's connection without force in the request: recovering a dead record. */
  ghost predicate DeadRecord(s: Snapshot, x: Signal, turn: Turn) {
    var f := x.fingerprint;
    && f in s.records && x.leader == s.records[f].process.leader && !Running(s.live, x.leader)
    && Left(turn.outside, s.records[f], f, turn.caller, turn.caller) == map[]
    && x.bystanders <= Bystanders(s, s.records[f].process)
  }

  /**
   In any served run a signal reaches another record's connection only in a forced release, or in the
   recovery of a record without a lease that counts, whose leader no longer ran when the recovery
   began, and whose group those connections ran in by then.
   */
  lemma BystandersHit(r: Trace, appeals: seq<Appeal>, k: nat, i: nat)
    requires IsServed(r, appeals) && k < |appeals|
    requires |r.states[k].signals| <= i < |r.states[k + 1].signals| && r.states[k + 1].signals[i].bystanders != {}
    ensures match appeals[k].request
      case Release(_, force) => force
      case Recover => DeadRecord(r.states[k], r.states[k + 1].signals[i], r.turns[k])
      case _ => false
  {
    hide Inv, GroupGone, Elapsed, Effective, Served, Recoverable;
    var s, t, appeal := r.states[k], r.states[k + 1], appeals[k];
    assert r.turns[k] == appeal.turn && Served(s, t, appeal);
    InvTells(t);
    if Unforceful(appeal.request) {
      ServedGently(s, t, appeal);
    } else if appeal.request.Recover? {
      RecoveredDead(s, t, appeal, i);
    }
  }

  /** Requests that may not force anything. */
  predicate Unforceful(request: Request) {
    !request.Recover? && (request.Release? ==> !request.force)
  }

  /** Ensuring, renewing, waiting and unforced releases force no signal. */
  lemma ServedGently(s: Snapshot, t: Snapshot, appeal: Appeal)
    requires Served(s, t, appeal) && Unforceful(appeal.request)
    ensures Gentle(s, t)
  {
    hide Inv, Effective, Accepted, Shared, RecordsPruned, RecordReleased;
    var o, caller := appeal.turn.outside, appeal.turn.caller;
    match appeal.request
    case Ensure(config) => var result :| EnsureOutcome(o, s, t, config, result, caller);
    case Release(process, force) =>
      if HandedOut(s, process) { var ok :| ReleaseOutcome(o, s, t, process, caller, force, ok); }
    case Renew(process, config) =>
      var ok, renewed :| RenewOutcome(o, s, t, process, config, caller, ok, renewed);
    case Wait =>
  }

  lemma RecoveredDead(s: Snapshot, t: Snapshot, appeal: Appeal, i: nat)
    requires Inv(s) && Served(s, t, appeal) && appeal.request.Recover?
    requires |s.signals| <= i < |t.signals| && t.signals[i].bystanders != {}
    ensures DeadRecord(s, t.signals[i], appeal.turn)
  {
    hide RecordsRecovered;
    var ok :| RecoverOutcome(appeal.turn.outside, s, t, appeal.turn.caller, ok);
    var x := t.signals[i];
    assert Recoverable(appeal.turn.outside, s, x, appeal.turn.caller);
    var p := s.records[x.fingerprint].process;
    InvStoppable(s, x.fingerprint);
    if Running(s.live, p.leader) { VerifiedAlone(s, p); }
  }

  const CALM := Outside(1000, {}, {}, {}, {})
  const FIRST := Leader(10, 10, 1)
  const SECOND := Leader(10, 10, 2)

  function Tunnel(f: Fingerprint, p: Leader, lease: Lease, created: Time): Record {
    Record(Process("ssh", f, p, true, true), map[lease := created])
  }

  function FirstRecorded(): Snapshot {
    Snapshot(map["a" := Tunnel("a", FIRST, "w1", 0)], map[10 := Live(10, 1, false)], {1}, {FIRST}, [], {("a", FIRST)})
  }

  function SecondRecorded(): Snapshot {
    Snapshot(map["a" := Tunnel("a", FIRST, "w1", 0), "b" := Tunnel("b", SECOND, "w2", 1000)],
             map[10 := Live(10, 2, false)], {1, 2}, {FIRST, SECOND}, [], {("a", FIRST), ("b", SECOND)})
  }

  function Recovery(): Signal {
    Signal("a", FIRST, true, false, map["w1" := 0], {"b"}, "w3", CALM)
  }

  lemma FirstInv()
    ensures Inv(EMPTY) && Inv(FirstRecorded())
  {
  }

  lemma FirstTurn()
    ensures Inv(EMPTY) && Inv(FirstRecorded()) && Step(CALM.(now := 0), EMPTY, FirstRecorded(), "w1")
  {
    hide Inv, Effective;
    FirstInv();
  }

  lemma SecondTurn()
    ensures Inv(SecondRecorded()) && Step(CALM, FirstRecorded(), SecondRecorded(), "w2")
  {
    FirstTurn();
    hide Inv, Step;
    var s0 := FirstRecorded();
    var s1 := s0.(live := map[]);
    var s2 := s1.(live := map[10 := Live(10, 2, false)], born := {1, 2}, started := s1.started + {SECOND});
    var b := Tunnel("b", SECOND, "w2", 1000);
    var s3 := WithRecord(s2, "b", b);
    ElapseMove(CALM, s0, s1, "w2");
    StartMove(CALM, s1, s2, SECOND, "w2");
    StepTrans(CALM, s0, s1, s2, "w2");
    RecordMove(CALM, s0, s2, "b", b, "w2");
    ReturnMove(CALM, s3, "b", "w2");
    assert s3.(returned := s3.returned + {("b", SECOND)}) == SecondRecorded();
    StepTrans(CALM, s0, s3, SecondRecorded(), "w2");
  }

  lemma RecoveryTurn()
    ensures var s := SecondRecorded(); var t := s.(signals := [Recovery()]); Inv(t) && Step(CALM, s, t, "w3")
  {
    SecondTurn();
    assert SECOND != FIRST;
    assert !Effective(CALM, "w1", 0, "a", "w3");
    SignalMove(CALM, SecondRecorded(), Recovery(), "w3");
    assert SecondRecorded().signals + [Recovery()] == [Recovery()];
  }

  /**
   Forced recovery does hit a bystander when the process group of a stale record was reused:
   "a" has no lease left and its leader is gone, but "b" runs in group 10 with a lease of another
   workspace, and the recovery of "a" signals group 10.
   */
  lemma ForcedRecoveryHitsBystander() returns (r: Trace)
    ensures IsRun(r) && |r.states| == 4 && r.states[0] == EMPTY && r.states[2] == SecondRecorded()
    ensures Served(r.states[2], r.states[3], Appeal(Recover, r.turns[2])) && r.turns[2] == Turn("w3", CALM)
    ensures var s, t := SecondRecorded(), r.states[3];
      && Left(CALM, s.records["a"], "a", "w3", "w3") == map[]
      && !Running(s.live, FIRST) && GroupAlive(s.live, FIRST.pgid)
      && HeldByOther(CALM, s.records["b"], "b", "w2", "w3") && Running(s.live, s.records["b"].process.leader)
      && t == s.(signals := [Recovery()]) && Bystanders(s, s.records["a"].process) == {"b"}
  {
    var s1, s2 := FirstRecorded(), SecondRecorded();
    var s3 := s2.(signals := [Recovery()]);
    FirstTurn();
    SecondTurn();
    RecoveryTurn();
    hide Inv, Step;
    r := Trace([EMPTY, s1, s2, s3], [Turn("w1", CALM.(now := 0)), Turn("w2", CALM), Turn("w3", CALM)]);
    assert TurnTaken(r, 0) && TurnTaken(r, 1) && TurnTaken(r, 2);
    assert s2.live[10].pgid == 10;
    assert Left(CALM, s2.records["a"], "a", "w3", "w3") == map[];
    assert RecoverOutcome(CALM, s2, s3, "w3", false);
    assert Served(s2, s3, Appeal(Recover, Turn("w3", CALM)));
  }
}
