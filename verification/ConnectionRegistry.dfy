/** The operations workspaces perform on the shared-connection registry, each under the registry lock. */
module ConnectionRegistry {
  import opened Options
  import opened LeaseProtocol

  const MAX_ATTEMPTS := 2

  /** What EnsureConnection is asked for; `pinned` says that the arguments and the cluster target were valid. */
  datatype Config = Config(driver: string, fingerprint: Fingerprint, endpoints: nat, pinned: bool)

  datatype Ensured = NoConnection | Managed(process: Process) | External | Refused(leftover: Option<Process>)

  datatype Tidied = Absent | Kept | Blocked

  datatype Delivery = Delivered | NoSuchProcess | Denied

  predicate ManagedAlive(live: map<Pid, Live>, p: Leader) {
    if p.pgid > 0 then GroupAlive(live, p.pgid) else p.pid in live
  }

  /** The group is alive while its leader cannot be told to be at work: it is gone, another process, or a zombie. */
  predicate Adrift(live: map<Pid, Live>, p: Leader) {
    GroupAlive(live, p.pgid) && !(Running(live, p) && !live[p.pid].zombie)
  }

  predicate AdriftRecord(s: Snapshot, f: Fingerprint)
    requires f in s.records
  {
    Adrift(s.live, s.records[f].process.leader)
  }

  /** The recorded leader is gone, or another process, while its group is alive. */
  predicate Unverified(s: Snapshot, f: Fingerprint)
    requires f in s.records
  {
    !Running(s.live, s.records[f].process.leader) && GroupAlive(s.live, s.records[f].process.leader.pgid)
  }

  /** The leases the registry holds for a process. */
  function LeasesOf(s: Snapshot, p: Process): map<Lease, Time> {
    var f := p.fingerprint;
    if f in s.records && s.records[f].process.leader == p.leader then s.records[f].leases else map[]
  }

  /** The other records whose connection runs in the group of a process. */
  function Bystanders(s: Snapshot, p: Process): set<Fingerprint> {
    set g | g in s.records && g != p.fingerprint && s.records[g].process.leader.pgid == p.leader.pgid
      && Running(s.live, s.records[g].process.leader)
  }

  predicate Unforced(force: bool, verified: bool, s: Snapshot, p: Process) {
    (force || verified) && (verified ==> Bystanders(s, p) == {})
  }

  /** The signals sent since went to one connection, and reached no record that was not in its group before. */
  predicate Signalled(s: Snapshot, t: Snapshot, p: Process, force: bool) {
    s.signals <= t.signals && forall i | |s.signals| <= i < |t.signals| ::
      var x := t.signals[i];
      x.force == force && x.fingerprint == p.fingerprint && x.leader == p.leader && x.bystanders <= Bystanders(s, p)
  }

  /** No signal sent since was forced. */
  predicate Gentle(s: Snapshot, t: Snapshot) {
    s.signals <= t.signals && forall i | |s.signals| <= i < |t.signals| :: !t.signals[i].force
  }

  lemma GentleTrans(s: Snapshot, t: Snapshot, u: Snapshot)
    requires Gentle(s, t) && Gentle(t, u)
    ensures Gentle(s, u)
  {
  }

  /** While nothing is started, bystanders only become fewer. */
  lemma BystandersShrink(s: Snapshot, t: Snapshot, p: Process)
    requires WellFormed(s) && Elapsed(s, t)
    requires forall g | g in t.records :: g in s.records && t.records[g].process == s.records[g].process
    ensures Bystanders(t, p) <= Bystanders(s, p)
  {
    forall g | g in Bystanders(t, p) ensures g in Bystanders(s, p) {
      assert WellRecorded(s, g);
      if !Running(s.live, s.records[g].process.leader) { GoneForGood(s, t, s.records[g].process.leader); }
    }
  }

  /** One more signal to the same connection. */
  lemma SignalledMore(s: Snapshot, t: Snapshot, u: Snapshot, p: Process, force: bool)
    requires Signalled(s, t, p, force) && Signalled(t, u, p, force)
    requires WellFormed(s) && Elapsed(s, t) && OnlyMachine(s, t)
    ensures Signalled(s, u, p, force)
  {
    BystandersShrink(s, t, p);
    hide Bystanders;
  }

  predicate SameOrPruned(o: Outside, before: Record, after: Record, f: Fingerprint, caller: Lease) {
    after.process == before.process
    && (after.leases == before.leases || after.leases == Pruned(o, before.leases, f, caller))
  }

  predicate Matches(r: Record, driver: string) {
    driver == "" || r.process.driver == driver
  }

  predicate NoRecordNames(s: Snapshot, p: Leader) {
    forall g | g in s.records :: s.records[g].process.leader != p
  }

  /** Every record but those in `but` was there before, with the same leases or the pruned ones. */
  predicate RecordsPruned(o: Outside, s: Snapshot, t: Snapshot, but: set<Fingerprint>, caller: Lease) {
    forall g | g in t.records && g !in but :: g in s.records && SameOrPruned(o, s.records[g], t.records[g], g, caller)
  }

  /** What tidying one record does: nothing to the others, and this one is pruned and kept only while leased. */
  ghost predicate RecordTidied(o: Outside, s: Snapshot, t: Snapshot, f: Fingerprint, outcome: Tidied, caller: Lease)
    requires f in s.records
  {
    && (forall g | g != f :: (g in t.records <==> g in s.records) && (g in t.records ==> t.records[g] == s.records[g]))
    && (f in t.records ==> SameOrPruned(o, s.records[f], t.records[f], f, caller))
    && Gentle(s, t)
    && (outcome == Absent ==> f !in t.records)
    && (outcome == Kept ==>
      f in t.records && Running(t.live, t.records[f].process.leader)
      && t.records[f].leases == Pruned(o, s.records[f].leases, f, caller) != map[])
  }

  lemma TidiedCases(o: Outside, s: Snapshot, t: Snapshot, f: Fingerprint, outcome: Tidied, caller: Lease)
    requires f in s.records
    requires || t.records == s.records
             || t.records == s.records - {f}
             || t.records == s.records[f := s.records[f].(leases := Pruned(o, s.records[f].leases, f, caller))]
    requires Gentle(s, t)
    requires outcome == Absent ==> f !in t.records
    requires outcome == Kept ==>
      && f in t.records && Running(t.live, t.records[f].process.leader)
      && t.records[f].leases == Pruned(o, s.records[f].leases, f, caller) != map[]
    ensures RecordTidied(o, s, t, f, outcome, caller)
  {
  }

  /** How far a sweep over the records of a driver has come. */
  predicate Swept(o: Outside, s: Snapshot, t: Snapshot, pending: set<Fingerprint>, active: set<Fingerprint>,
    driver: string, caller: Lease) {
    && RecordsPruned(o, s, t, {}, caller) && Gentle(s, t)
    && (forall g | g in s.records && (g in pending || !Matches(s.records[g], driver)) ::
      g in t.records && t.records[g] == s.records[g])
    && pending <= s.records.Keys && pending !! active
    && (forall g | g in active ::
      g in t.records && t.records[g].leases == Pruned(o, s.records[g].leases, g, caller) != map[])
    && (forall g | g in t.records && g !in pending :: g in active <==> Matches(t.records[g], driver))
  }

  lemma SweepBegins(o: Outside, s: Snapshot, driver: string, caller: Lease)
    ensures Swept(o, s, s, s.records.Keys, {}, driver, caller)
  {
  }

  lemma SweepSoFar(o: Outside, s: Snapshot, t: Snapshot, pending: set<Fingerprint>, active: set<Fingerprint>,
    driver: string, caller: Lease)
    requires Swept(o, s, t, pending, active, driver, caller)
    ensures RecordsPruned(o, s, t, {}, caller) && Gentle(s, t)
    ensures forall g | g in s.records && !Matches(s.records[g], driver) ::
      g in t.records && t.records[g] == s.records[g]
    ensures forall g | g in pending :: g in s.records && g in t.records && t.records[g] == s.records[g]
  {
  }

  lemma SweepEnds(o: Outside, s: Snapshot, t: Snapshot, active: set<Fingerprint>, driver: string, caller: Lease)
    requires Swept(o, s, t, {}, active, driver, caller)
    ensures active == set g | g in t.records && Matches(t.records[g], driver)
    ensures forall g | g in active :: t.records[g].leases == Pruned(o, s.records[g].leases, g, caller) != map[]
  {
  }

  lemma SweepBlocked(o: Outside, s: Snapshot, t: Snapshot, driver: string, caller: Lease, f: Fingerprint,
    outcome: Tidied)
    requires f in s.records && RecordTidied(o, s, t, f, outcome, caller) && Matches(s.records[f], driver)
    requires f in t.records && Adrift(t.live, s.records[f].process.leader)
    ensures exists g | g in t.records :: Matches(t.records[g], driver) && AdriftRecord(t, g)
  {
    assert Matches(t.records[f], driver) && AdriftRecord(t, f);
  }

  lemma SweepSkips(o: Outside, s: Snapshot, t: Snapshot, pending: set<Fingerprint>, active: set<Fingerprint>,
    driver: string, caller: Lease, f: Fingerprint)
    requires Swept(o, s, t, pending, active, driver, caller) && f in pending && !Matches(s.records[f], driver)
    ensures Swept(o, s, t, pending - {f}, active, driver, caller)
  {
  }

  lemma SweepTidies(o: Outside, s: Snapshot, t: Snapshot, u: Snapshot, pending: set<Fingerprint>,
    active: set<Fingerprint>, driver: string, caller: Lease, f: Fingerprint, outcome: Tidied)
    requires Swept(o, s, t, pending, active, driver, caller) && f in pending && f in t.records
    requires Matches(s.records[f], driver)
    requires RecordTidied(o, t, u, f, outcome, caller)
    ensures RecordsPruned(o, s, u, {}, caller) && Gentle(s, u)
    ensures forall g | g in s.records && !Matches(s.records[g], driver) ::
      g in u.records && u.records[g] == s.records[g]
    ensures outcome != Blocked ==>
      Swept(o, s, u, pending - {f}, if outcome == Kept then active + {f} else active, driver, caller)
  {
    hide Matches, Pruned, Running, SameOrPruned;
    GentleTrans(s, t, u);
    assert t.records[f] == s.records[f];
    assert f in u.records ==> Matches(u.records[f], driver) by {
      SameDriver(o, s.records[f], if f in u.records then u.records[f] else s.records[f], f, driver, caller);
    }
  }

  lemma SameDriver(o: Outside, r: Record, q: Record, f: Fingerprint, driver: string, caller: Lease)
    requires Matches(r, driver) && (q == r || SameOrPruned(o, r, q, f, caller))
    ensures Matches(q, driver)
  {
  }

  lemma TidiedPrunes(o: Outside, s: Snapshot, t: Snapshot, f: Fingerprint, outcome: Tidied, config: Config,
    caller: Lease)
    requires f in s.records && RecordTidied(o, s, t, f, outcome, caller) && f == config.fingerprint
    requires t.started == s.started && t.returned == s.returned
    ensures OnlyTidied(o, s, t, config, caller)
    ensures forall g | g in t.records && g != f :: g in s.records && t.records[g] == s.records[g]
    ensures outcome == Kept ==>
      && f in t.records && t.records[f].leases == Pruned(o, s.records[f].leases, f, caller)
      && t.records[f].process == s.records[f].process
    ensures outcome == Absent ==> f !in t.records
  {
  }

  lemma OnlyTidiedElapses(o: Outside, s: Snapshot, t: Snapshot, u: Snapshot, config: Config, caller: Lease)
    requires OnlyTidied(o, s, t, config, caller) && u == t.(live := u.live, born := u.born)
    ensures OnlyTidied(o, s, u, config, caller)
  {
  }

  lemma EnsureSkips(o: Outside, s: Snapshot, config: Config, caller: Lease)
    requires config.driver == "" || config.driver == "none"
    ensures EnsureOutcome(o, s, s, config, NoConnection, caller)
  {
  }

  lemma RecordsPrunedTrans(o: Outside, s: Snapshot, t: Snapshot, u: Snapshot, caller: Lease)
    requires RecordsPruned(o, s, t, {}, caller) && RecordsPruned(o, t, u, {}, caller)
    ensures RecordsPruned(o, s, u, {}, caller)
  {
    forall g | g in u.records ensures g in s.records && SameOrPruned(o, s.records[g], u.records[g], g, caller) {
      PrunedTwice(o, s.records[g].leases, g, caller);
    }
  }

  /** What starting afresh does to the registry: tidy the tunnels, and record at most the new connection. */
  predicate StartOutcome(o: Outside, s: Snapshot, t: Snapshot, config: Config, result: Ensured, caller: Lease) {
    && (result.Managed? || result.Refused?) && Gentle(s, t)
    && RecordsPruned(o, s, t, if result.Managed? then {config.fingerprint} else {}, caller)
    && (config.driver != KTCTL ==>
      forall g | g in s.records && g != config.fingerprint :: g in t.records && t.records[g] == s.records[g])
    && t.returned == s.returned
      + (if result.Managed? then {(result.process.fingerprint, result.process.leader)} else {})
    && (result.Managed? ==>
      && result.process == Process(config.driver, config.fingerprint, result.process.leader, true, true)
      && result.process.leader !in s.started
      && config.fingerprint in t.records
      && t.records[config.fingerprint] == Record(result.process, map[caller := o.now]))
    && (result.Refused? && result.leftover.Some? ==> HandedOut(t, result.leftover.value) && result.leftover.value.owned)
  }

  /**
   What a workspace gets from an ensure step. A managed connection is recorded with the caller's
   lease on top of the leases that survived pruning, every other record is at most pruned, and
   nothing is signalled by force.
   */
  predicate EnsureOutcome(o: Outside, s: Snapshot, t: Snapshot, config: Config, result: Ensured, caller: Lease) {
    && (result.NoConnection? <==> config.driver == "" || config.driver == "none")
    && (result.NoConnection? ==> t == s) && Gentle(s, t)
    && (result.External? ==> config.driver != KTCTL && config.fingerprint !in t.records && t.started == s.started)
    && (result.Refused? && result.leftover.Some? ==> HandedOut(t, result.leftover.value) && result.leftover.value.owned)
    && t.returned == s.returned
      + (if result.Managed? then {(result.process.fingerprint, result.process.leader)} else {})
    && RecordsPruned(o, s, t, if result.Managed? then {result.process.fingerprint} else {}, caller)
    && (config.driver != KTCTL ==>
      forall g | g in s.records && g != config.fingerprint :: g in t.records && t.records[g] == s.records[g])
    && (result.Managed? ==> Shared(o, s, t, config, result.process, caller))
  }

  /** The record behind a connection that was handed out as managed. */
  predicate Shared(o: Outside, s: Snapshot, t: Snapshot, config: Config, p: Process, caller: Lease) {
    var f := p.fingerprint;
    && p.managed && caller != "" && config.endpoints > 0
    && (config.driver == KTCTL ==> config.pinned)
    && (f != config.fingerprint ==> config.driver == KTCTL && p.driver == KTCTL)
    && f in t.records && t.records[f].process == p.(owned := true)
    && (p.owned ==> p.leader !in s.started && p.driver == config.driver && t.records[f].leases == map[caller := o.now])
    && (!p.owned ==>
      && f in s.records && s.records[f].process == t.records[f].process
      && t.records[f].leases == Pruned(o, s.records[f].leases, f, caller)[caller := o.now])
  }

  predicate ShareOutcome(o: Outside, s: Snapshot, t: Snapshot, f: Fingerprint, result: Ensured, caller: Lease)
    requires f in s.records
  {
    && t.started == s.started && t.signals == s.signals
    && (result.Managed? || (result == Refused(None) && t == s))
    && (result.Managed? ==>
      && result.process == s.records[f].process.(owned := false)
      && t.records == s.records[f := s.records[f].(leases := s.records[f].leases[caller := o.now])]
      && t.returned == s.returned + {(f, result.process.leader)})
  }

  /** The registry as tidying leaves it: pruned, nothing handed out, and only tunnels swept for a tunnel. */
  predicate OnlyTidied(o: Outside, s: Snapshot, t: Snapshot, config: Config, caller: Lease) {
    && RecordsPruned(o, s, t, {}, caller) && t.returned == s.returned && s.started <= t.started && Gentle(s, t)
    && (config.driver != KTCTL ==>
      forall g | g in s.records && g != config.fingerprint :: g in t.records && t.records[g] == s.records[g])
  }

  lemma NothingTidied(o: Outside, s: Snapshot, config: Config, caller: Lease)
    ensures OnlyTidied(o, s, s, config, caller)
  {
  }

  predicate Accepted(config: Config, caller: Lease) {
    config.driver != "" && config.driver != "none" && caller != "" && config.endpoints > 0
      && (config.driver == KTCTL ==> config.pinned)
  }

  /** The connection is recorded, verified, and leased by others who count, or by the caller itself. */
  predicate Leased(o: Outside, s: Snapshot, f: Fingerprint, caller: Lease) {
    && f in s.records && Running(s.live, s.records[f].process.leader)
    && Pruned(o, s.records[f].leases, f, caller) != map[]
  }

  /** Why a valid request is refused although no outside call failed. */
  predicate RefusalExplained(o: Outside, s: Snapshot, t: Snapshot, config: Config, caller: Lease) {
    var f := config.fingerprint;
    || (exists g | g in t.records ::
          AdriftRecord(t, g) && (g == f || (config.driver == KTCTL && t.records[g].process.driver == KTCTL)))
    || (f !in o.answering && Leased(o, s, f, caller) && f in t.records)
    || (f !in o.answering && config.driver == KTCTL && exists g | g in t.records ::
          g != f && t.records[g].process.driver == KTCTL && t.records[g].leases != map[])
  }

  /** What a valid request comes to when no outside call fails. */
  predicate EnsureSettled(o: Outside, s: Snapshot, t: Snapshot, config: Config, result: Ensured, caller: Lease) {
    var f := config.fingerprint;
    && (result.Refused? ==> result.leftover.None? && RefusalExplained(o, s, t, config, caller))
    && (Leased(o, s, f, caller) && f in o.answering ==> result == Managed(s.records[f].process.(owned := false)))
    && (config.driver != KTCTL && !result.Refused? && !Leased(o, s, f, caller) ==>
          if f in o.answering then result.External? else result.Managed? && result.process.owned)
    && (f in s.records && Unverified(s, f) ==> result.Refused?)
  }

  lemma SettlesRefused(o: Outside, s: Snapshot, t: Snapshot, config: Config, caller: Lease)
    requires RefusalExplained(o, s, t, config, caller)
    requires Leased(o, s, config.fingerprint, caller) ==> config.fingerprint !in o.answering
    ensures EnsureSettled(o, s, t, config, Refused(None), caller)
  {
    hide RefusalExplained, Leased;
  }

  lemma SettlesShared(o: Outside, s: Snapshot, t: Snapshot, config: Config, caller: Lease)
    requires Leased(o, s, config.fingerprint, caller) && config.fingerprint in o.answering
    ensures EnsureSettled(o, s, t, config, Managed(s.records[config.fingerprint].process.(owned := false)), caller)
  {
  }

  lemma SettlesOtherwise(o: Outside, s: Snapshot, t: Snapshot, config: Config, result: Ensured, caller: Lease)
    requires !Leased(o, s, config.fingerprint, caller) && !result.Refused?
    requires config.fingerprint in s.records ==> !Unverified(s, config.fingerprint)
    requires config.driver != KTCTL ==>
      if config.fingerprint in o.answering then result.External? else result.Managed? && result.process.owned
    ensures EnsureSettled(o, s, t, config, result, caller)
  {
    hide RefusalExplained, Leased, Unverified;
  }

  /** No ktctl record is left for a later sweep to find. */
  lemma NoTunnelLeft(o: Outside, s: Snapshot, t: Snapshot, caller: Lease, but: set<Fingerprint>)
    requires RecordsPruned(o, s, t, but, caller) && but == {}
    requires forall g | g in s.records :: s.records[g].process.driver != KTCTL
    ensures forall g | g in t.records :: t.records[g].process.driver != KTCTL
  {
    hide Pruned;
  }

  lemma BlockedExplains(o: Outside, s: Snapshot, t: Snapshot, config: Config, outcome: Tidied, caller: Lease)
    requires config.fingerprint in s.records && RecordTidied(o, s, t, config.fingerprint, outcome, caller)
    requires config.fingerprint in t.records && Adrift(t.live, s.records[config.fingerprint].process.leader)
    ensures RefusalExplained(o, s, t, config, caller)
  {
    assert AdriftRecord(t, config.fingerprint);
  }

  lemma UnstableExplains(o: Outside, s: Snapshot, t: Snapshot, config: Config, caller: Lease)
    requires Leased(o, s, config.fingerprint, caller) && config.fingerprint in t.records
    requires config.fingerprint !in o.answering
    ensures RefusalExplained(o, s, t, config, caller)
  {
  }

  lemma AdriftExplains(o: Outside, s: Snapshot, t: Snapshot, config: Config, caller: Lease)
    requires config.driver == KTCTL
    requires exists g | g in t.records :: Matches(t.records[g], KTCTL) && AdriftRecord(t, g)
    ensures RefusalExplained(o, s, t, config, caller)
  {
  }

  lemma FreshExplains(o: Outside, s: Snapshot, t: Snapshot, config: Config, caller: Lease)
    requires config.driver == KTCTL && config.fingerprint !in t.records
    requires exists g | g in t.records ::
      t.records[g].process.driver == KTCTL && (AdriftRecord(t, g) || t.records[g].leases != map[])
    requires config.fingerprint in o.answering ==> forall g | g in t.records :: t.records[g].process.driver != KTCTL
    ensures RefusalExplained(o, s, t, config, caller)
  {
  }

  lemma NotLeased(o: Outside, s: Snapshot, f: Fingerprint, caller: Lease)
    requires f !in s.records
    ensures !Leased(o, s, f, caller)
  {
  }

  lemma TidiedLeased(o: Outside, s: Snapshot, t: Snapshot, f: Fingerprint, outcome: Tidied, caller: Lease)
    requires f in s.records
    requires outcome == Kept <==>
      Running(s.live, s.records[f].process.leader) && Pruned(o, s.records[f].leases, f, caller) != map[]
    ensures outcome == Kept <==> Leased(o, s, f, caller)
  {
  }

  lemma SharesOwn(o: Outside, s: Snapshot, t: Snapshot, u: Snapshot, f: Fingerprint, result: Ensured, caller: Lease)
    requires f in s.records && f in t.records && t.records[f].process == s.records[f].process
    requires ShareOutcome(o, t, u, f, result, caller) && result.Managed?
    ensures result == Managed(s.records[f].process.(owned := false))
  {
  }

  lemma StartSettles(o: Outside, s: Snapshot, t: Snapshot, u: Snapshot, config: Config, result: Ensured, caller: Lease)
    requires config.fingerprint !in t.records && StartOutcome(o, t, u, config, result, caller)
    requires !Leased(o, s, config.fingerprint, caller)
    requires config.fingerprint in s.records ==> !Unverified(s, config.fingerprint)
    requires config.driver != KTCTL ==> config.fingerprint !in o.answering
    requires config.fingerprint in o.answering ==> forall g | g in t.records :: t.records[g].process.driver != KTCTL
    requires result.Refused? ==>
      && config.driver == KTCTL && result.leftover.None?
      && exists g | g in u.records ::
        u.records[g].process.driver == KTCTL && (AdriftRecord(u, g) || u.records[g].leases != map[])
    ensures EnsureSettled(o, s, u, config, result, caller)
  {
    hide EnsureSettled, RefusalExplained, Leased, Unverified, AdriftRecord, Pruned, SameOrPruned;
    if result.Refused? {
      if config.fingerprint in o.answering { NoTunnelLeft(o, t, u, caller, {}); }
      FreshExplains(o, s, u, config, caller);
      SettlesRefused(o, s, u, config, caller);
    } else {
      SettlesOtherwise(o, s, u, config, result, caller);
    }
  }

  lemma EnsureStops(o: Outside, s: Snapshot, t: Snapshot, config: Config, result: Ensured, caller: Lease)
    requires OnlyTidied(o, s, t, config, caller) && config.driver != "" && config.driver != "none"
    requires result == Refused(None)
      || (result == External && config.driver != KTCTL && config.fingerprint !in t.records && t.started == s.started)
    ensures EnsureOutcome(o, s, t, config, result, caller)
  {
  }

  lemma EnsureShares(o: Outside, s: Snapshot, t: Snapshot, u: Snapshot, config: Config, f: Fingerprint,
    result: Ensured, caller: Lease)
    requires OnlyTidied(o, s, t, config, caller) && Accepted(config, caller)
    requires f in t.records && WellRecorded(t, f) && t.records[f].leases == Pruned(o, s.records[f].leases, f, caller)
    requires f == config.fingerprint || (config.driver == KTCTL && t.records[f].process.driver == KTCTL)
    requires ShareOutcome(o, t, u, f, result, caller)
    ensures EnsureOutcome(o, s, u, config, result, caller)
  {
    hide Pruned;
    if result.Managed? {
      assert t.records[f].process == s.records[f].process;
      assert result.process.fingerprint == f;
      assert Shared(o, s, u, config, result.process, caller);
      assert RecordsPruned(o, s, u, {f}, caller);
    }
  }

  lemma TunnelsTidied(o: Outside, s: Snapshot, t: Snapshot, u: Snapshot, config: Config, active: set<Fingerprint>,
    caller: Lease)
    requires OnlyTidied(o, s, t, config, caller) && config.driver == KTCTL && config.fingerprint !in t.records
    requires RecordsPruned(o, t, u, {}, caller) && t.returned == u.returned && t.started <= u.started && Gentle(t, u)
    requires active <= u.records.Keys && forall g | g in active ::
      u.records[g].leases == Pruned(o, t.records[g].leases, g, caller)
    requires forall g | g in t.records && g != config.fingerprint :: t.records[g] == s.records[g]
    ensures OnlyTidied(o, s, u, config, caller) && config.fingerprint !in u.records
    ensures forall g | g in active :: u.records[g].leases == Pruned(o, s.records[g].leases, g, caller)
  {
    RecordsPrunedTrans(o, s, t, u, caller);
    GentleTrans(s, t, u);
  }

  lemma StartStops(o: Outside, s: Snapshot, t: Snapshot, config: Config, caller: Lease)
    requires OnlyTidied(o, s, t, config, caller)
    ensures StartOutcome(o, s, t, config, Refused(None), caller)
  {
  }

  lemma FreshTidied(o: Outside, s: Snapshot, t: Snapshot, config: Config, caller: Lease)
    requires RecordsPruned(o, s, t, {}, caller) && t.returned == s.returned && s.started <= t.started && Gentle(s, t)
    requires config.driver == KTCTL
    ensures OnlyTidied(o, s, t, config, caller)
    ensures config.fingerprint !in s.records ==> config.fingerprint !in t.records
  {
  }

  /** A process that was started since is on no record, and may be stopped. */
  lemma NewlyStarted(o: Outside, s: Snapshot, t: Snapshot, p: Process, caller: Lease)
    requires WellFormed(s) && t.records == s.records && p.leader !in s.started && p.leader in t.started
    ensures NoRecordNames(t, p.leader) && Stoppable(t, p) && Unheld(o, t, p, caller) && HandedOut(t, p)
  {
    hide Effective;
    forall g | g in t.records ensures t.records[g].process.leader != p.leader {
      assert WellRecorded(s, g);
    }
  }

  predicate AttemptOutcome(o: Outside, s: Snapshot, t: Snapshot, config: Config, result: Ensured, caller: Lease) {
    && (result.Managed? || result.Refused?) && Gentle(s, t)
    && (result.Managed? ==>
      && result.process == Process(config.driver, config.fingerprint, result.process.leader, true, true)
      && result.process.leader !in s.started
      && t.records == s.records[config.fingerprint := Record(result.process, map[caller := o.now])]
      && t.returned == s.returned + {(config.fingerprint, result.process.leader)})
    && (result.Refused? ==> t.records == s.records && t.returned == s.returned)
    && (result.Refused? && result.leftover.Some? ==> HandedOut(t, result.leftover.value) && result.leftover.value.owned)
  }

  lemma StartAttempted(o: Outside, s: Snapshot, t: Snapshot, u: Snapshot, config: Config, result: Ensured,
    caller: Lease)
    requires OnlyTidied(o, s, t, config, caller) && AttemptOutcome(o, t, u, config, result, caller)
    ensures StartOutcome(o, s, u, config, result, caller)
  {
    hide Pruned, SameOrPruned;
    GentleTrans(s, t, u);
  }

  lemma StartedAfterTidying(o: Outside, s: Snapshot, t: Snapshot, u: Snapshot, config: Config, result: Ensured,
    caller: Lease)
    requires OnlyTidied(o, s, t, config, caller) && Accepted(config, caller)
    requires StartOutcome(o, t, u, config, result, caller)
    ensures EnsureOutcome(o, s, u, config, result, caller)
  {
    var but := if result.Managed? then {config.fingerprint} else {};
    GentleTrans(s, t, u);
    forall g | g in u.records && g !in but
      ensures g in s.records && SameOrPruned(o, s.records[g], u.records[g], g, caller)
    {
      PrunedTwice(o, s.records[g].leases, g, caller);
    }
  }

  /** What is left of a record's leases once the caller's is given back. */
  function Left(o: Outside, r: Record, f: Fingerprint, caller: Lease, current: Lease): map<Lease, Time> {
    Pruned(o, r.leases - {caller}, f, current)
  }

  /** Leases that are left may be written back, and nobody else relies on the others. */
  lemma LeftSaves(o: Outside, s: Snapshot, f: Fingerprint, caller: Lease, current: Lease)
    requires f in s.records && WellRecorded(s, f) && (current == "" || current == caller)
    ensures var r, left := s.records[f], Left(o, s.records[f], f, caller, current);
      && "" !in left
      && (forall l | HeldByOther(o, r, f, l, caller) :: l in left && left[l] == r.leases[l])
      && (forall l | l in left :: l in r.leases && left[l] == r.leases[l])
      && (left == map[] ==> Unheld(o, s, r.process, caller))
  {
    var r, left := s.records[f], Left(o, s.records[f], f, caller, current);
    forall l | HeldByOther(o, r, f, l, caller) ensures l in left && left[l] == r.leases[l] {
      assert l in r.leases - {caller} && l != current;
    }
    if left == map[] {
      forall l | l in r.leases && l != caller ensures !Effective(o, l, r.leases[l], f, caller) {
        assert HeldByOther(o, r, f, l, caller) <==> Effective(o, l, r.leases[l], f, caller);
      }
    }
  }

  /**
   Giving a lease back: while effective leases are left nothing is signalled and the record keeps
   exactly those; otherwise success means the record is gone.
   */
  predicate RecordReleased(o: Outside, s: Snapshot, t: Snapshot, f: Fingerprint, caller: Lease, force: bool, ok: bool)
    requires f in s.records
  {
    var left := Left(o, s.records[f], f, caller, "");
    && (t.records == s.records || t.records == s.records - {f}
      || t.records == s.records[f := s.records[f].(leases := left)])
    && t.started == s.started && t.returned == s.returned && (!force ==> Gentle(s, t))
    && (left != map[] ==> t == s || t == WithLeases(s, f, left))
    && (left != map[] && ok ==> f in t.records && t.records[f].leases == left)
    && (left == map[] && ok ==> f !in t.records)
  }

  predicate ReleaseOutcome(o: Outside, s: Snapshot, t: Snapshot, p: Process, caller: Lease, force: bool, ok: bool) {
    && t.started == s.started && t.returned == s.returned && (!force ==> Gentle(s, t))
    && (p.managed && p.fingerprint in s.records ==>
      RecordReleased(o, s, t, p.fingerprint, caller, force, ok) || (!ok && t == s))
    && (!(p.managed && p.fingerprint in s.records) ==> OnlyMachine(s, t))
    && (p.managed && p.fingerprint !in s.records && !force ==> t == s && (ok ==> !GroupAlive(s.live, p.leader.pgid)))
    && (p.fingerprint !in s.records && ok && (p.managed || p.owned) ==> !GroupAlive(t.live, p.leader.pgid))
    && (!p.managed && !p.owned ==> ok && t == s)
  }

  /** Why an unforced release fails although no outside call did. */
  predicate ReleaseExplained(o: Outside, s: Snapshot, t: Snapshot, p: Process, caller: Lease, force: bool) {
    !force &&
    if !p.managed then p.owned && Adrift(t.live, p.leader)
    else if p.fingerprint !in s.records then Running(s.live, p.leader) || GroupAlive(s.live, p.leader.pgid)
    else
      && Left(o, s.records[p.fingerprint], p.fingerprint, caller, "") == map[]
      && Adrift(t.live, s.records[p.fingerprint].process.leader)
  }

  /** One record after forced recovery: only the leases that are left, or gone. */
  predicate RecordRecovered(o: Outside, s: Snapshot, t: Snapshot, f: Fingerprint, caller: Lease, ok: bool)
    requires f in s.records
  {
    var left := Left(o, s.records[f], f, caller, caller);
    && (t.records == s.records || t.records == s.records - {f}
      || t.records == s.records[f := s.records[f].(leases := left)])
    && t.started == s.started && t.returned == s.returned && Signalled(s, t, s.records[f].process, true)
    && (left != map[] ==> f in t.records && t.signals == s.signals)
    && (left != map[] && ok ==> t.records[f].leases == left)
    && (left == map[] && ok ==> f !in t.records)
  }

  predicate RecordsRecovered(o: Outside, s: Snapshot, t: Snapshot, caller: Lease) {
    && (forall g | g in s.records && Left(o, s.records[g], g, caller, caller) != map[] :: g in t.records)
    && forall g | g in t.records ::
      && g in s.records && t.records[g].process == s.records[g].process
      && (t.records[g].leases == s.records[g].leases || t.records[g].leases == Left(o, s.records[g], g, caller, caller))
  }

  /** Whoever a recovery signals was recorded without a lease that counts, and reaches those in its group then. */
  predicate RecoverySignals(o: Outside, s: Snapshot, t: Snapshot, caller: Lease) {
    s.signals <= t.signals && forall i | |s.signals| <= i < |t.signals| :: Recoverable(o, s, t.signals[i], caller)
  }

  predicate Recoverable(o: Outside, s: Snapshot, x: Signal, caller: Lease) {
    var f := x.fingerprint;
    && x.force && f in s.records && Left(o, s.records[f], f, caller, caller) == map[]
    && x.leader == s.records[f].process.leader && x.bystanders <= Bystanders(s, s.records[f].process)
  }

  /** Forced recovery of everything; when it is complete, exactly what others hold is left. */
  predicate RecoverOutcome(o: Outside, s: Snapshot, t: Snapshot, caller: Lease, ok: bool) {
    && RecordsRecovered(o, s, t, caller) && t.started == s.started && t.returned == s.returned
    && RecoverySignals(o, s, t, caller)
    && (ok ==> forall g | g in s.records :: g in t.records <==> Left(o, s.records[g], g, caller, caller) != map[])
    && (ok ==> forall g | g in t.records :: t.records[g].leases == Left(o, s.records[g], g, caller, caller))
  }

  /** Renewal stamps the caller's lease of the process it names, or changes no record; it signals nothing. */
  predicate RenewOutcome(o: Outside, s: Snapshot, t: Snapshot, process: Process, config: Config, caller: Lease,
    ok: bool, renewed: bool) {
    && t.started == s.started && t.returned == s.returned && t.signals == s.signals
    && (!renewed ==> t.records == s.records)
    && (renewed ==>
      && ok && process.managed && process.driver == KTCTL && config.driver == KTCTL
      && process.fingerprint == config.fingerprint
      && var f := config.fingerprint;
      && f in s.records && caller in s.records[f].leases && s.records[f].process.leader == process.leader
      && t.records == s.records[f := s.records[f].(leases := s.records[f].leases[caller := o.now])])
  }

  /** What a renewal comes to when no outside call fails: a retained tunnel that answers is renewed. */
  predicate RenewSettled(o: Outside, s: Snapshot, process: Process, config: Config, caller: Lease, ok: bool,
    renewed: bool) {
    var f := config.fingerprint;
    if !process.managed || process.driver != KTCTL || config.driver != KTCTL then ok && !renewed
    else if !config.pinned then !ok && !renewed
    else if process.fingerprint != f then ok && !renewed
    else if f !in s.records || s.records[f].process.driver != KTCTL
      || s.records[f].process.leader != process.leader then !ok && !renewed
    else if !Running(s.live, process.leader) then !renewed && (ok <==> !GroupAlive(s.live, process.leader.pgid))
    else if caller !in s.records[f].leases then !ok && !renewed
    else ok && (renewed <==> f in o.answering)
  }

  lemma PendingRecorded(o: Outside, s: Snapshot, t: Snapshot, pending: set<Fingerprint>, caller: Lease)
    requires Recovering(o, s, t, pending, caller)
    ensures pending <= t.records.Keys
  {
  }

  predicate Recovering(o: Outside, s: Snapshot, t: Snapshot, pending: set<Fingerprint>, caller: Lease) {
    && RecordsRecovered(o, s, t, caller)
    && pending <= s.records.Keys
    && (forall g | g in pending :: g in t.records && t.records[g] == s.records[g])
    && (forall g | g in s.records && g !in pending :: g in t.records <==>
      Left(o, s.records[g], g, caller, caller) != map[])
    && (forall g | g in t.records && g !in pending :: t.records[g].leases == Left(o, s.records[g], g, caller, caller))
  }

  lemma RecoveryBegins(o: Outside, s: Snapshot, caller: Lease)
    ensures Recovering(o, s, s, s.records.Keys, caller) && RecoverySignals(o, s, s, caller)
  {
  }

  lemma RecoveryStops(o: Outside, s: Snapshot, t: Snapshot, pending: set<Fingerprint>, caller: Lease)
    requires Recovering(o, s, t, pending, caller) && t.started == s.started && t.returned == s.returned
    requires RecoverySignals(o, s, t, caller)
    ensures RecoverOutcome(o, s, t, caller, pending == {})
  {
  }

  /** A recovery that breaks off promises no more than what it has done to each record. */
  lemma RecoveryBreaksOff(o: Outside, s: Snapshot, t: Snapshot, caller: Lease)
    requires RecordsRecovered(o, s, t, caller) && t.started == s.started && t.returned == s.returned
    requires RecoverySignals(o, s, t, caller)
    ensures RecoverOutcome(o, s, t, caller, false)
  {
  }

  lemma RecoveryEnds(o: Outside, s: Snapshot, t: Snapshot, caller: Lease)
    requires RecoverOutcome(o, s, t, caller, false) || RecoverOutcome(o, s, t, caller, true)
    ensures RecoverOutcome(o, s, t, caller, false)
  {
  }

  /** What forced recovery of one record means, record by record. */
  lemma RecoveredPointwise(o: Outside, s: Snapshot, t: Snapshot, f: Fingerprint, caller: Lease, ok: bool)
    requires f in s.records && RecordRecovered(o, s, t, f, caller, ok)
    ensures forall g | g != f && g in s.records :: g in t.records && t.records[g] == s.records[g]
    ensures t.records.Keys <= s.records.Keys
    ensures f in t.records ==> t.records[f].process == s.records[f].process
    ensures var left := Left(o, s.records[f], f, caller, caller);
      && (left != map[] ==> f in t.records)
      && (f in t.records ==> t.records[f].leases == s.records[f].leases || t.records[f].leases == left)
      && (ok ==> (f in t.records <==> left != map[]) && (f in t.records ==> t.records[f].leases == left))
    ensures ok ==> |s.records| == |t.records| + if f in t.records then 0 else 1
    ensures t.started == s.started && t.returned == s.returned
  {
    hide Left;
    OneRecordLess(o, s, t, f, caller, ok);
  }

  lemma RecoveryGoesOn(o: Outside, s: Snapshot, t: Snapshot, u: Snapshot, pending: set<Fingerprint>, caller: Lease,
    f: Fingerprint, ok: bool)
    requires Recovering(o, s, t, pending, caller) && f in pending && RecordRecovered(o, t, u, f, caller, ok)
    ensures RecordsRecovered(o, s, u, caller)
    ensures u.started == t.started && u.returned == t.returned
    ensures ok ==> Recovering(o, s, u, pending - {f}, caller)
    ensures ok ==> |t.records| == |u.records| + if f in u.records then 0 else 1
  {
    hide Left, RecordRecovered;
    RecoveredPointwise(o, t, u, f, caller, ok);
    assert t.records[f] == s.records[f];
    RecoveredSoFar(o, s, t, u, pending, caller, f, ok);
  }

  /** The signals of one more recovered record. */
  lemma RecoverySignalsMore(o: Outside, s: Snapshot, t: Snapshot, u: Snapshot, pending: set<Fingerprint>,
    caller: Lease, f: Fingerprint, ok: bool)
    requires WellFormed(s) && Elapsed(s, t) && Recovering(o, s, t, pending, caller) && f in pending
    requires RecoverySignals(o, s, t, caller) && RecordRecovered(o, t, u, f, caller, ok)
    ensures RecoverySignals(o, s, u, caller)
  {
    var p := s.records[f].process;
    assert t.records[f] == s.records[f] && WellRecorded(s, f);
    BystandersShrink(s, t, p);
    hide Bystanders, Left;
    forall i | |s.signals| <= i < |u.signals| ensures Recoverable(o, s, u.signals[i], caller) {
      if i < |t.signals| { assert Recoverable(o, s, t.signals[i], caller); }
    }
  }

  lemma RecoveredSoFar(o: Outside, s: Snapshot, t: Snapshot, u: Snapshot, pending: set<Fingerprint>, caller: Lease,
    f: Fingerprint, ok: bool)
    requires Recovering(o, s, t, pending, caller) && f in pending && t.records[f] == s.records[f]
    requires forall g | g != f && g in t.records :: g in u.records && u.records[g] == t.records[g]
    requires u.records.Keys <= t.records.Keys && (f in u.records ==> u.records[f].process == t.records[f].process)
    requires var left := Left(o, t.records[f], f, caller, caller);
      && (left != map[] ==> f in u.records)
      && (f in u.records ==> u.records[f].leases == t.records[f].leases || u.records[f].leases == left)
      && (ok ==> (f in u.records <==> left != map[]) && (f in u.records ==> u.records[f].leases == left))
    ensures RecordsRecovered(o, s, u, caller)
    ensures ok ==> Recovering(o, s, u, pending - {f}, caller)
  {
    hide Left, RecordsRecovered;
    RecordsStillRecovered(o, s, t, u, pending, caller, f, ok);
  }

  lemma RecordsStillRecovered(o: Outside, s: Snapshot, t: Snapshot, u: Snapshot, pending: set<Fingerprint>,
    caller: Lease, f: Fingerprint, ok: bool)
    requires Recovering(o, s, t, pending, caller) && f in pending && t.records[f] == s.records[f]
    requires forall g | g != f && g in t.records :: g in u.records && u.records[g] == t.records[g]
    requires u.records.Keys <= t.records.Keys && (f in u.records ==> u.records[f].process == t.records[f].process)
    requires var left := Left(o, t.records[f], f, caller, caller);
      && (left != map[] ==> f in u.records)
      && (f in u.records ==> u.records[f].leases == t.records[f].leases || u.records[f].leases == left)
      && (ok ==> (f in u.records <==> left != map[]) && (f in u.records ==> u.records[f].leases == left))
    ensures RecordsRecovered(o, s, u, caller)
  {
    hide Left;
    assert forall g | g in t.records && g != f :: g in u.records && u.records[g] == t.records[g];
  }

  lemma OneRecordLess(o: Outside, s: Snapshot, t: Snapshot, f: Fingerprint, caller: Lease, ok: bool)
    requires f in s.records && RecordRecovered(o, s, t, f, caller, ok)
    ensures ok ==> |s.records| == |t.records| + if f in t.records then 0 else 1
  {
    hide Left;
    if f in t.records {
      assert s.records.Keys == t.records.Keys;
    } else {
      assert s.records.Keys == t.records.Keys + {f};
    }
    assert |s.records| == |s.records.Keys| && |t.records| == |t.records.Keys|;
  }

  lemma PrunedTwice(o: Outside, leases: map<Lease, Time>, f: Fingerprint, caller: Lease)
    ensures Pruned(o, Pruned(o, leases, f, caller), f, caller) == Pruned(o, leases, f, caller)
  {
  }

  /** Nobody but the caller relies on the leases held for this process. */
  ghost predicate Unheld(o: Outside, s: Snapshot, p: Process, caller: Lease) {
    forall l | l in LeasesOf(s, p) && l != caller :: !Effective(o, l, LeasesOf(s, p)[l], p.fingerprint, caller)
  }

  /** No record but its own may name the leader of a process that is about to be stopped. */
  predicate Stoppable(s: Snapshot, p: Process) {
    p.owned ==>
      && p.leader in s.started
      && (forall g | g in s.records && s.records[g].process.leader == p.leader :: g == p.fingerprint)
  }

  lemma NoneEffective(o: Outside, s: Snapshot, f: Fingerprint, caller: Lease)
    requires f in s.records && s.records[f].process.fingerprint == f
    requires Pruned(o, s.records[f].leases, f, caller) == map[]
    ensures Unheld(o, s, s.records[f].process, caller)
  {
    var leases := s.records[f].leases;
    forall l | l in leases ensures !Effective(o, l, leases[l], f, caller) {
      assert l !in Pruned(o, leases, f, caller);
    }
  }

  /** Pruned leases may be written back: nobody loses a lease others may rely on. */
  lemma PrunedSaves(o: Outside, r: Record, f: Fingerprint, caller: Lease)
    ensures var kept := Pruned(o, r.leases, f, caller);
      && (forall l | HeldByOther(o, r, f, l, caller) :: l in kept && kept[l] == r.leases[l])
      && (forall l | l in kept :: l in r.leases && kept[l] == r.leases[l])
  {
  }

  lemma InvStoppable(s: Snapshot, f: Fingerprint)
    requires Inv(s) && f in s.records
    ensures WellRecorded(s, f) && Stoppable(s, s.records[f].process) && s.records[f].process.leader.pgid > 0
  {
  }

  /** A verified leader shares its group with no other recorded connection. */
  lemma VerifiedAlone(s: Snapshot, p: Process)
    requires Inv(s) && Stoppable(s, p) && p.owned && Running(s.live, p.leader)
    ensures Bystanders(s, p) == {}
  {
    forall g | g in s.records && g != p.fingerprint && s.records[g].process.leader.pgid == p.leader.pgid
      ensures !Running(s.live, s.records[g].process.leader)
    {
      assert WellRecorded(s, g);
    }
  }

  /** Nothing on disk or in the books changes while processes exit and signals are sent. */
  predicate OnlyMachine(s: Snapshot, t: Snapshot) {
    t == s.(live := t.live, born := t.born, signals := t.signals)
  }

  lemma BystandersOnlyLeave(s: Snapshot, t: Snapshot, p: Process)
    requires Inv(s) && Elapsed(s, t) && OnlyMachine(s, t) && Bystanders(s, p) == {}
    ensures Bystanders(t, p) == {}
  {
    forall g | g in t.records && g != p.fingerprint && t.records[g].process.leader.pgid == p.leader.pgid
      ensures !Running(t.live, t.records[g].process.leader)
    {
      assert WellRecorded(s, g);
      assert g !in Bystanders(s, p);
      GoneForGood(s, t, t.records[g].process.leader);
    }
  }

  /** The registry directory, and the machine it describes, between and during steps. */
  class Registry {
    var s: Snapshot
    var outside: Outside

    /** How many outside calls have failed: reads and writes, probes, starts, signals and waits for readiness. */
    ghost var faults: nat

    /** A step so far: the invariants hold, and the guarantee to other workspaces was kept. */
    twostate predicate Guaranteed(caller: Lease)
      reads this
    {
      outside == old(outside) && Inv(s) && Step(outside, old(s), s, caller) && old(faults) <= faults
    }

    /** An outside call, which may fail. */
    method Attempt() returns (ok: bool)
      modifies this`faults
      ensures faults == old(faults) + if ok then 0 else 1
    {
      ok := *;
      if !ok { faults := faults + 1; }
    }

    /** Waiting: the process table changes, the registry does not. */
    method Elapse(caller: Lease)
      requires Inv(s)
      modifies this`s
      ensures Guaranteed(caller) && Elapsed(old(s), s) && s == old(s).(live := s.live, born := s.born)
    {
      StepRefl(outside, s, caller);
      var live: map<Pid, Live> := *;
      var born: set<nat> := *;
      var next := s.(live := live, born := born);
      if Elapsed(s, next) {
        ElapseMove(outside, s, next, caller);
        s := next;
      }
    }

    method WaitForExit(p: Leader, caller: Lease) returns (gone: bool)
      requires Inv(s)
      modifies this`s
      ensures Guaranteed(caller) && Elapsed(old(s), s) && s == old(s).(live := s.live, born := s.born)
      ensures gone <==> !ManagedAlive(s.live, p)
    {
      Elapse(caller);
      gone := !ManagedAlive(s.live, p);
    }

    /** Compares pid, group and start identity; the probe itself may fail. */
    method VerifyProcess(p: Leader) returns (ok: bool)
      modifies this`faults
      ensures p.pid !in s.live ==> ok
      ensures ok && p.pid in s.live ==> Running(s.live, p)
      ensures old(faults) <= faults && (faults == old(faults) && Running(s.live, p) ==> ok)
    {
      if p.pid !in s.live { return true; }
      var probed := Attempt();
      ok := probed && Running(s.live, p);
    }

    /** Whether a recorded connection is current, or cannot be told apart from a stranger's group. */
    method RecordState(p: Leader) returns (current: bool, unverified: bool)
      modifies this`faults
      ensures current ==> Running(s.live, p)
      ensures !current && !unverified ==> !GroupAlive(s.live, p.pgid)
      ensures unverified ==> !current && GroupAlive(s.live, p.pgid)
      ensures old(faults) <= faults && (faults == old(faults) ==> (current <==> Running(s.live, p)))
    {
      if p.pid !in s.live { return false, GroupAlive(s.live, p.pgid); }
      var ok := VerifyProcess(p);
      if !ok { return false, GroupAlive(s.live, p.pgid); }
      return true, false;
    }

    method SendSignal(p: Process, force: bool, verified: bool, caller: Lease) returns (delivery: Delivery)
      requires Inv(s) && p.owned && Stoppable(s, p) && Unheld(outside, s, p, caller) && Unforced(force, verified, s, p)
      modifies this`s, this`faults
      ensures Guaranteed(caller) && Elapsed(old(s), s) && OnlyMachine(old(s), s)
      ensures s.signals == old(s).signals
        + [Signal(p.fingerprint, p.leader, force, verified, LeasesOf(old(s), p), Bystanders(old(s), p), caller,
          outside)]
      ensures delivery == Denied ==> old(faults) < faults
    {
      var x := Signal(p.fingerprint, p.leader, force, verified, LeasesOf(s, p), Bystanders(s, p), caller, outside);
      ghost var s0 := s;
      SignalMove(outside, s, x, caller);
      s := s.(signals := s.signals + [x]);
      ghost var s1 := s;
      Elapse(caller);
      StepTrans(outside, s0, s1, s, caller);
      delivery := *;
      if delivery == Denied { faults := faults + 1; }
    }

    /** Interrupt, terminate, kill: up to three signals, each followed by a wait. */
    method ForceStopGroup(p: Process, force: bool, verified: bool, caller: Lease) returns (ok: bool)
      requires Inv(s) && p.owned && Stoppable(s, p) && Unheld(outside, s, p, caller) && Unforced(force, verified, s, p)
      modifies this`s, this`faults
      ensures Guaranteed(caller) && OnlyMachine(old(s), s) && Signalled(old(s), s, p, force)
      ensures ok ==> !ManagedAlive(s.live, p.leader)
      ensures |s.signals| <= |old(s).signals| + 3
      ensures faults == old(faults) ==> ok
    {
      hide Inv, Step, WellFormed, Running, GroupAlive;
      InvWellFormed(s);
      StepRefl(outside, s, caller);
      ghost var s0 := s;
      var authorized := Attempt();
      if !authorized { return false; }
      var phase := 0;
      while phase < 3
        invariant 0 <= phase <= 3 && outside == old(outside) && old(faults) <= faults
        invariant Inv(s) && Step(outside, s0, s, caller)
        invariant OnlyMachine(s0, s) && Stoppable(s, p)
        invariant Unforced(force, verified, s, p)
        invariant Elapsed(s0, s) && Signalled(s0, s, p, force) && |s.signals| <= |s0.signals| + phase
      {
        ghost var s1 := s;
        assert LeasesOf(s, p) == LeasesOf(s0, p);
        var delivery := SendSignal(p, force, verified, caller);
        ghost var s2 := s;
        var gone := WaitForExit(p.leader, caller);
        StepTrans(outside, s0, s1, s2, caller);
        StepTrans(outside, s0, s2, s, caller);
        ElapsedTrans(s1, s2, s);
        SignalledMore(s0, s1, s, p, force);
        ElapsedTrans(s0, s1, s);
        if verified { BystandersOnlyLeave(s1, s, p); }
        if gone { return true; }
        if delivery == Denied { return false; }
        phase := phase + 1;
      }
      ok := false;
      faults := faults + 1;  // the group has survived all three signals
    }

    /** Stops an owned connection; unless forced, only one whose leader is verified. */
    method StopConnection(p: Process, force: bool, caller: Lease) returns (ok: bool)
      requires Inv(s) && Stoppable(s, p) && (p.owned ==> Unheld(outside, s, p, caller))
      modifies this`s, this`faults
      ensures Guaranteed(caller) && OnlyMachine(old(s), s) && Signalled(old(s), s, p, force)
      ensures ok && p.owned ==> !ManagedAlive(s.live, p.leader)
      ensures !p.owned ==> ok && s == old(s)
      ensures !ok && faults == old(faults) ==> !force && p.owned && Adrift(s.live, p.leader)
    {
      ghost var s0 := s;
      InvWellFormed(s);
      StepRefl(outside, s, caller);
      hide Inv, Step;
      if !p.owned { return true; }
      if p.leader.pid !in s.live || s.live[p.leader.pid].zombie {
        if !force {
          var gone := WaitForExit(p.leader, caller);
          return gone || !GroupAlive(s.live, p.leader.pgid);
        }
        if !GroupAlive(s.live, p.leader.pgid) { return true; }
        ok := ForceStopGroup(p, true, false, caller);
        return;
      }
      var verified := VerifyProcess(p.leader);
      if !verified {
        var gone := WaitForExit(p.leader, caller);
        ghost var s1 := s;
        if gone { return true; }
        if !force || !GroupAlive(s.live, p.leader.pgid) { return false; }
        assert LeasesOf(s, p) == LeasesOf(s0, p);
        ok := ForceStopGroup(p, true, false, caller);
        StepTrans(outside, s0, s1, s, caller);
        SignalledMore(s0, s1, s, p, true);
        return;
      }
      VerifiedAlone(s, p);
      ok := ForceStopGroup(p, force, true, caller);
    }

    /** Writes a record's leases; the write may fail and change nothing. */
    method SaveLeases(f: Fingerprint, leases: map<Lease, Time>, caller: Lease) returns (ok: bool)
      requires Inv(s) && f in s.records && "" !in leases
      requires forall l | HeldByOther(outside, s.records[f], f, l, caller) ::
        l in leases && leases[l] == s.records[f].leases[l]
      requires forall l | l in leases && !(l in s.records[f].leases && leases[l] == s.records[f].leases[l]) ::
        l == caller && leases[l] == outside.now
      modifies this`s, this`faults
      ensures Guaranteed(caller)
      ensures s == if ok then WithLeases(old(s), f, leases) else old(s)
      ensures faults == old(faults) + if ok then 0 else 1
    {
      ok := Attempt();
      StepRefl(outside, s, caller);
      if ok {
        LeaseMove(outside, s, f, leases, caller);
        s := WithLeases(s, f, leases);
      }
    }

    /** Removes a record whose connection is gone; an error may be reported with or without removal. */
    method RemoveRecord(f: Fingerprint, caller: Lease) returns (ok: bool)
      requires Inv(s) && (f in s.records ==> !GroupAlive(s.live, s.records[f].process.leader.pgid))
      modifies this`s, this`faults
      ensures Guaranteed(caller)
      ensures s == old(s).(records := old(s).records - {f}) || (!ok && s == old(s))
      ensures faults == old(faults) + if ok then 0 else 1
    {
      ok := Attempt();
      StepRefl(outside, s, caller);
      var removed: bool := *;
      if ok || removed {
        RemoveMove(outside, s, f, caller);
        s := s.(records := s.records - {f});
      }
    }

    /** Drops the leases that are five minutes old and whose workspace is not at work. */
    method PruneLeases(leases: map<Lease, Time>, f: Fingerprint, caller: Lease)
      returns (kept: map<Lease, Time>, changed: bool)
      ensures kept == Pruned(outside, leases, f, caller)
      ensures changed <==> kept != leases
      ensures forall l :: l in kept <==>
        && l in leases
        && (|| outside.now - leases[l] < 300
            || (l in outside.locked && l != caller) || l in outside.irregular || (l, f) in outside.serving)
      ensures forall l | l in kept :: kept[l] == leases[l]
    {
      kept, changed := leases, false;
      var pending := leases.Keys;
      while pending != {}
        invariant pending <= leases.Keys && kept.Keys <= leases.Keys
        invariant forall l | l in leases :: l in kept <==> l in pending || Effective(outside, l, leases[l], f, caller)
        invariant forall l | l in kept :: kept[l] == leases[l]
        invariant changed <==> kept != leases
      {
        var l :| l in pending;
        if !Effective(outside, l, leases[l], f, caller) {
          assert l in kept;
          kept, changed := kept - {l}, true;
        }
        pending := pending - {l};
      }
    }

    /** Stops a recorded connection nobody else leases and then drops its record. */
    method RetireRecord(f: Fingerprint, force: bool, caller: Lease) returns (stopped: bool, removed: bool)
      requires Inv(s) && f in s.records && Unheld(outside, s, s.records[f].process, caller)
      modifies this`s, this`faults
      ensures Guaranteed(caller)
      ensures s.started == old(s).started && s.returned == old(s).returned
      ensures s.records == old(s).records || s.records == old(s).records - {f}
      ensures removed ==> stopped && f !in s.records
      ensures !stopped ==> s.records == old(s).records
      ensures Signalled(old(s), s, old(s).records[f].process, force)
      ensures !removed && faults == old(faults) ==>
        !force && !stopped && Adrift(s.live, old(s).records[f].process.leader)
    {
      var process := s.records[f].process;
      assert WellRecorded(s, f) && Stoppable(s, process) by { InvStoppable(s, f); }
      hide Inv, Step;
      ghost var s0 := s;
      stopped := StopConnection(process, force, caller);
      removed := false;
      if stopped {
        ghost var s1 := s;
        removed := RemoveRecord(f, caller);
        StepTrans(outside, s0, s1, s, caller);
      }
    }

    /**
     Brings one record up to date: prunes its leases, refuses an unverified one, drops it when
     its connection is gone or nobody leases it.
     */
    method TidyRecord(f: Fingerprint, caller: Lease) returns (outcome: Tidied)
      requires Inv(s) && f in s.records
      modifies this`s, this`faults
      ensures Guaranteed(caller)
      ensures s.started == old(s).started && s.returned == old(s).returned
      ensures RecordTidied(outside, old(s), s, f, outcome, caller)
      ensures faults == old(faults) ==>
        && (outcome == Kept <==>
              Running(old(s).live, old(s).records[f].process.leader)
              && Pruned(outside, old(s).records[f].leases, f, caller) != map[])
        && (outcome == Blocked ==> f in s.records && Adrift(s.live, old(s).records[f].process.leader))
        && (Unverified(old(s), f) ==> outcome == Blocked)
    {
      InvWellFormed(s);
      StepRefl(outside, s, caller);
      assert WellRecorded(s, f);
      PrunedSaves(outside, s.records[f], f, caller);
      hide Inv, Step, Pruned, Effective, HeldByOther, Running, GroupAlive, Unheld, RecordTidied;
      var record := s.records[f];
      var leases, pruned := PruneLeases(record.leases, f, caller);
      var current, unverified := RecordState(record.process.leader);
      var done := true;
      if unverified {
        if pruned { var saved := SaveLeases(f, leases, caller); }
        outcome := Blocked;
      } else if !current {
        done := RemoveRecord(f, caller);
        outcome := if done then Absent else Blocked;
      } else if leases == map[] {
        NoneEffective(outside, s, f, caller);
        var stopped;
        stopped, done := RetireRecord(f, false, caller);
        outcome := if done then Absent else Blocked;
      } else {
        if pruned { done := SaveLeases(f, leases, caller); }
        outcome := if done then Kept else Blocked;
      }
      TidiedCases(outside, old(s), s, f, outcome, caller);
    }

    /** Reads a record from disk, which may fail. */
    method LoadRecord(f: Fingerprint) returns (ok: bool, record: Option<Record>)
      modifies this`faults
      ensures ok ==> record == if f in s.records then Some(s.records[f]) else None
      ensures faults == old(faults) + if ok then 0 else 1
    {
      ok := Attempt();
      record := if f in s.records then Some(s.records[f]) else None;
    }

    /** Tidies every record of a driver and lists those that are current and leased. */
    method ActiveRecords(driver: string, caller: Lease) returns (ok: bool, active: set<Fingerprint>)
      requires Inv(s)
      modifies this`s, this`faults
      ensures Guaranteed(caller)
      ensures s.started == old(s).started && s.returned == old(s).returned
      ensures RecordsPruned(outside, old(s), s, {}, caller) && Gentle(old(s), s)
      ensures forall g | g in old(s).records && !Matches(old(s).records[g], driver) ::
        g in s.records && s.records[g] == old(s).records[g]
      ensures !ok ==> active == {}
      ensures ok ==> active == set g | g in s.records && Matches(s.records[g], driver)
      ensures ok ==>
        forall g | g in active :: s.records[g].leases == Pruned(outside, old(s).records[g].leases, g, caller) != map[]
      ensures !ok && faults == old(faults) ==>
        exists g | g in s.records :: Matches(s.records[g], driver) && AdriftRecord(s, g)
    {
      hide Inv, WellFormed, Step, Matches, RecordTidied, RecordsPruned, Swept, Pruned, Adrift, Unverified, Running;
      InvWellFormed(s);
      StepRefl(outside, s, caller);
      ghost var s0 := s;
      var pending := s.records.Keys;
      active := {};
      SweepBegins(outside, s0, driver, caller);
      while pending != {}
        invariant outside == old(outside) && Inv(s) && Step(outside, s0, s, caller) && old(faults) <= faults
        invariant s.started == s0.started && s.returned == s0.returned
        invariant Swept(outside, s0, s, pending, active, driver, caller)
      {
        SweepSoFar(outside, s0, s, pending, active, driver, caller);
        var f :| f in pending;
        var readable, record := LoadRecord(f);
        if !readable { return false, {}; }
        ghost var s1 := s;
        if Matches(s.records[f], driver) {
          var outcome := TidyRecord(f, caller);
          StepTrans(outside, s0, s1, s, caller);
          SweepTidies(outside, s0, s1, s, pending, active, driver, caller, f, outcome);
          if outcome == Blocked {
            if faults == old(faults) { SweepBlocked(outside, s1, s, driver, caller, f, outcome); }
            return false, {};
          }
          if outcome == Kept { active := active + {f}; }
        } else {
          SweepSkips(outside, s0, s1, pending, active, driver, caller, f);
        }
        pending := pending - {f};
      }
      SweepSoFar(outside, s0, s, pending, active, driver, caller);
      SweepEnds(outside, s0, s, active, driver, caller);
      ok := true;
    }

    /** Starts a connection as the leader of a group that did not exist; it may exit at once. */
    method StartProcess(config: Config, caller: Lease) returns (process: Option<Process>)
      requires Inv(s)
      modifies this`s, this`faults
      ensures Guaranteed(caller)
      ensures s.records == old(s).records && s.returned == old(s).returned && s.signals == old(s).signals
      ensures process.None? ==> s.started == old(s).started && old(faults) < faults
      ensures process.Some? ==>
        && process.value == Process(config.driver, config.fingerprint, process.value.leader, true, false)
        && process.value.leader !in old(s).started && s.started == old(s).started + {process.value.leader}
    {
      StepRefl(outside, s, caller);
      var p: Leader := *;
      var live: map<Pid, Live> := *;
      var born: set<nat> := *;
      var next := s.(live := live, born := born, started := s.started + {p});
      if !Elapsed(s, next) || p.identity in s.born || p.identity !in born || p.pgid == 0 || GroupAlive(s.live, p.pgid) {
        faults := faults + 1;
        return None;
      }
      StartMove(outside, s, next, p, caller);
      InvWellFormed(s);
      s := next;
      process := Some(Process(config.driver, config.fingerprint, p, true, false));
    }

    /** Starts a connection and records it once it is ready, a second time only for ktctl. */
    method EnsureAttempts(config: Config, caller: Lease) returns (result: Ensured)
      requires Inv(s) && config.fingerprint !in s.records && caller != ""
      requires config.driver == KTCTL ==> forall g | g in s.records :: s.records[g].process.driver != KTCTL
      modifies this`s, this`faults
      ensures Guaranteed(caller)
      ensures AttemptOutcome(outside, old(s), s, config, result, caller)
      ensures faults == old(faults) ==> result.Managed?
    {
      hide Inv, WellFormed, Step, Elapsed, WellRecorded, NoRecordNames, Stoppable, Unheld, HandedOut;
      InvWellFormed(s);
      StepRefl(outside, s, caller);
      ghost var s0 := s;
      var attempt := 0;
      while attempt < MAX_ATTEMPTS
        invariant outside == old(outside) && Inv(s) && Step(outside, s0, s, caller)
        invariant old(faults) <= faults && (attempt > 0 ==> old(faults) < faults)
        invariant s.records == s0.records && s.returned == s0.returned && s0.started <= s.started && Gentle(s0, s)
      {
        ghost var s1 := s;
        InvWellFormed(s1);
        var started := StartProcess(config, caller);
        StepTrans(outside, s0, s1, s, caller);
        if started.None? { return Refused(None); }
        var process := started.value;
        ghost var s2 := s;
        Elapse(caller);
        StepTrans(outside, s0, s2, s, caller);
        NewlyStarted(outside, s1, s, process, caller);
        var ready := Attempt();
        var saved := false;
        if ready { saved := Attempt(); }
        if ready && saved {
          process := process.(managed := true);
          result := RecordStarted(config, process, caller, s0);
          return;
        }
        if ready { process := process.(managed := true); }
        ghost var s3 := s;
        NewlyStarted(outside, s1, s, process, caller);
        var stopped := StopConnection(process, false, caller);
        StepTrans(outside, s0, s3, s, caller);
        GentleTrans(s0, s3, s);
        NewlyStarted(outside, s1, s, process, caller);
        if !stopped { return Refused(Some(process)); }
        var retry: bool := *;
        if ready || config.driver != KTCTL || !retry { return Refused(None); }
        attempt := attempt + 1;
      }
      result := Refused(None);
    }

    /** Saves the record of a connection this step started, and hands the connection out. */
    method RecordStarted(config: Config, process: Process, caller: Lease, ghost s0: Snapshot) returns (result: Ensured)
      requires Inv(s) && Step(outside, s0, s, caller) && config.fingerprint !in s.records && caller != ""
      requires process == Process(config.driver, config.fingerprint, process.leader, true, true)
      requires process.leader in s.started && process.leader !in s0.started && NoRecordNames(s, process.leader)
      requires config.driver == KTCTL ==> forall g | g in s.records :: s.records[g].process.driver != KTCTL
      modifies this`s
      ensures outside == old(outside) && Inv(s) && Step(outside, s0, s, caller)
      ensures result == Managed(process)
      ensures s.records == old(s).records[config.fingerprint := Record(process, map[caller := outside.now])]
      ensures s.returned == old(s).returned + {(config.fingerprint, process.leader)} && s.signals == old(s).signals
    {
      hide Inv, Step;
      var f := config.fingerprint;
      var record := Record(process, map[caller := outside.now]);
      RecordMove(outside, s0, s, f, record, caller);
      s := WithRecord(s, f, record);
      ghost var s1 := s;
      HandOut(f, caller);
      StepTrans(outside, s0, s1, s, caller);
      result := Managed(process);
    }

    method HandOut(f: Fingerprint, caller: Lease)
      requires Inv(s) && f in s.records
      modifies this`s
      ensures Guaranteed(caller)
      ensures s == old(s).(returned := old(s).returned + {(f, old(s).records[f].process.leader)})
    {
      ReturnMove(outside, s, f, caller);
      s := s.(returned := s.returned + {(f, s.records[f].process.leader)});
    }

    /** Adds the caller's lease to a record and hands its connection out. */
    method ShareRecord(f: Fingerprint, caller: Lease) returns (result: Ensured)
      requires Inv(s) && f in s.records && caller != ""
      modifies this`s, this`faults
      ensures Guaranteed(caller)
      ensures ShareOutcome(outside, old(s), s, f, result, caller) && (faults == old(faults) ==> result.Managed?)
    {
      hide Inv, Step, Effective, Running, GroupAlive;
      InvStoppable(s, f);
      ghost var s0 := s;
      var saved := SaveLeases(f, s.records[f].leases[caller := outside.now], caller);
      if !saved { return Refused(None); }
      ghost var s1 := s;
      HandOut(f, caller);
      StepTrans(outside, s0, s1, s, caller);
      result := Managed(s.records[f].process.(owned := false));
    }

    /** Starts a connection where none is recorded; for ktctl, only when no other tunnel is. */
    method StartFresh(config: Config, caller: Lease) returns (result: Ensured)
      requires Inv(s) && config.fingerprint !in s.records && caller != ""
      modifies this`s, this`faults
      ensures Guaranteed(caller)
      ensures StartOutcome(outside, old(s), s, config, result, caller)
      ensures faults == old(faults) && result.Refused? ==>
        && config.driver == KTCTL && result.leftover.None?
        && exists g | g in s.records ::
          s.records[g].process.driver == KTCTL && (AdriftRecord(s, g) || s.records[g].leases != map[])
    {
      InvWellFormed(s);
      StepRefl(outside, s, caller);
      ghost var s0 := s;
      var f := config.fingerprint;
      assert OnlyTidied(outside, s, s, config, caller);
      hide Inv, Step, StartOutcome, AttemptOutcome, OnlyTidied, SameOrPruned, Pruned;
      if config.driver == KTCTL {
        var ok, active := ActiveRecords(KTCTL, caller);
        FreshTidied(outside, s0, s, config, caller);
        if !ok || active != {} { StartStops(outside, s0, s, config, caller); return Refused(None); }
        forall g | g in s.records ensures s.records[g].process.driver != KTCTL {
          assert g !in active;
        }
      }
      ghost var s1 := s;
      var prepared := Attempt();
      if !prepared { StartStops(outside, s0, s, config, caller); return Refused(None); }
      result := EnsureAttempts(config, caller);
      StepTrans(outside, s0, s1, s, caller);
      StartAttempted(outside, s0, s1, s, config, result, caller);
    }

    /**
     A workspace asks for the connection a configuration describes. Unless an outside call fails, a valid
     request is refused for the reasons of `RefusalExplained` only.
     */
    method EnsureConnection(config: Config, caller: Lease) returns (result: Ensured)
      requires Inv(s)
      modifies this`s, this`faults
      ensures Guaranteed(caller)
      ensures EnsureOutcome(outside, old(s), s, config, result, caller)
      ensures config.driver !in {"", "none"} ==>
        (caller != "" && config.endpoints >= 1 && (config.driver == KTCTL ==> config.pinned))
          || (result == Refused(None) && s == old(s))
      ensures config.driver !in {"", "none"} && caller != "" && config.endpoints >= 1 && faults == old(faults) ==>
        (config.driver == KTCTL ==> config.pinned) ==> EnsureSettled(outside, old(s), s, config, result, caller)
    {
      hide Inv, WellFormed, Step, RecordTidied, RecordsPruned, OnlyTidied, EnsureOutcome, StartOutcome, ShareOutcome,
        Effective, Running, Pruned, Gentle, Shared, EnsureSettled, RefusalExplained, Leased, Unverified, AdriftRecord,
          Adrift;
      hide WellRecorded, GroupAlive, Elapsed;
      InvWellFormed(s);
      StepRefl(outside, s, caller);
      ghost var s0 := s;
      var f := config.fingerprint;
      NothingTidied(outside, s, config, caller);
      if config.driver == "" || config.driver == "none" {
        EnsureSkips(outside, s, config, caller);
        return NoConnection;
      }
      if !Accepted(config, caller) { EnsureStops(outside, s0, s, config, Refused(None), caller); return Refused(None); }
      var readable, record := LoadRecord(f);
      if !readable { EnsureStops(outside, s0, s, config, Refused(None), caller); return Refused(None); }
      var kept := false;
      ghost var leased, unverified := Leased(outside, s, f, caller), f in s.records && Unverified(s, f);
      if record.Some? {
        var outcome := TidyRecord(f, caller);
        TidiedPrunes(outside, s0, s, f, outcome, config, caller);
        if faults == old(faults) { TidiedLeased(outside, s0, s, f, outcome, caller); }
        if outcome == Blocked {
          EnsureStops(outside, s0, s, config, Refused(None), caller);
          if faults == old(faults) {
            BlockedExplains(outside, s0, s, config, outcome, caller);
            SettlesRefused(outside, s0, s, config, caller);
          }
          return Refused(None);
        }
        kept := outcome == Kept;
      } else {
        assert !leased by { NotLeased(outside, s0, f, caller); }
      }
      ghost var s1 := s;
      Elapse(caller);
      StepTrans(outside, s0, s1, s, caller);
      OnlyTidiedElapses(outside, s0, s1, s, config, caller);
      ghost var s2 := s;
      assert faults == old(faults) ==> (kept <==> leased) && !unverified;
      var stable := f in outside.answering;
      if kept {
        if !stable {
          EnsureStops(outside, s0, s, config, Refused(None), caller);
          if faults == old(faults) {
            UnstableExplains(outside, s0, s, config, caller);
            SettlesRefused(outside, s0, s, config, caller);
          }
          return Refused(None);
        }
        InvStoppable(s, f);
        result := ShareRecord(f, caller);
        StepTrans(outside, s0, s2, s, caller);
        EnsureShares(outside, s0, s2, s, config, f, result, caller);
        if faults == old(faults) {
          SharesOwn(outside, s0, s2, s, f, result, caller);
          SettlesShared(outside, s0, s, config, caller);
        }
        return;
      }
      if stable && config.driver != KTCTL {
        EnsureStops(outside, s0, s, config, External, caller);
        if faults == old(faults) { SettlesOtherwise(outside, s0, s, config, External, caller); }
        return External;
      }
      if stable {
        var ok, active := ActiveRecords(KTCTL, caller);
        StepTrans(outside, s0, s2, s, caller);
        TunnelsTidied(outside, s0, s2, s, config, active, caller);
        if !ok {
          EnsureStops(outside, s0, s, config, Refused(None), caller);
          if faults == old(faults) {
            AdriftExplains(outside, s0, s, config, caller);
            SettlesRefused(outside, s0, s, config, caller);
          }
          return Refused(None);
        }
        if active != {} {
          ghost var s3 := s;
          var g :| g in active;
          InvStoppable(s, g);
          result := ShareRecord(g, caller);
          StepTrans(outside, s0, s3, s, caller);
          EnsureShares(outside, s0, s3, s, config, g, result, caller);
          if faults == old(faults) { SettlesOtherwise(outside, s0, s, config, result, caller); }
          return;
        }
      }
      ghost var s4 := s;
      assert stable ==> forall g | g in s.records :: s.records[g].process.driver != KTCTL;
      result := StartFresh(config, caller);
      StepTrans(outside, s0, s4, s, caller);
      StartedAfterTidying(outside, s0, s4, s, config, result, caller);
      if faults == old(faults) { StartSettles(outside, s0, s4, s, config, result, caller); }
    }

    /** A workspace gives its lease back; the last one out stops the connection. */
    method ReleaseConnection(process: Process, caller: Lease, force: bool) returns (ok: bool)
      requires Inv(s) && HandedOut(s, process)
      modifies this`s, this`faults
      ensures Guaranteed(caller)
      ensures ReleaseOutcome(outside, old(s), s, process, caller, force, ok)
      ensures faults == old(faults) && !ok ==> ReleaseExplained(outside, old(s), s, process, caller, force)
    {
      InvWellFormed(s);
      StepRefl(outside, s, caller);
      hide Inv, Step, Effective, Running;
      ghost var s0 := s;
      var f := process.fingerprint;
      if !process.managed {
        assert process.owned ==> LeasesOf(s, process) == map[];
        ok := StopConnection(process, force, caller);
        return;
      }
      var readable, record := LoadRecord(f);
      if !readable { return false; }
      if record.None? {
        var current, unverified := RecordState(process.leader);
        if !current && !unverified { return true; }
        if !force { return false; }
        ok := StopConnection(process.(owned := true), true, caller);
        return;
      }
      ok := ReleaseRecord(f, caller, force);
    }

    method ReleaseRecord(f: Fingerprint, caller: Lease, force: bool) returns (ok: bool)
      requires Inv(s) && f in s.records
      modifies this`s, this`faults
      ensures Guaranteed(caller)
      ensures RecordReleased(outside, old(s), s, f, caller, force, ok)
      ensures faults == old(faults) && !ok ==>
        && !force && Left(outside, old(s).records[f], f, caller, "") == map[]
        && Adrift(s.live, old(s).records[f].process.leader)
    {
      InvStoppable(s, f);
      InvWellFormed(s);
      StepRefl(outside, s, caller);
      hide Inv, Step, Effective, Running, HeldByOther, Pruned, GroupAlive, Unheld;
      ghost var s0 := s;
      var record := s.records[f];
      var leases, pruned := PruneLeases(record.leases - {caller}, f, "");
      LeftSaves(outside, s, f, caller, "");
      if leases != map[] {
        ok := SaveLeases(f, leases, caller);
        return;
      }
      var current, unverified := RecordState(record.process.leader);
      if unverified && !force { return false; }
      if !current && !unverified {
        ok := RemoveRecord(f, caller);
        return;
      }
      var stopped;
      stopped, ok := RetireRecord(f, force, caller);
      if !stopped {
        ghost var s1 := s;
        var saved := SaveLeases(f, map[], caller);
        StepTrans(outside, s0, s1, s, caller);
      }
    }

    /** Forced recovery of one record: the caller gives up its lease, and an unleased connection is stopped. */
    method RecoverRecord(f: Fingerprint, caller: Lease) returns (ok: bool)
      requires Inv(s) && f in s.records
      modifies this`s, this`faults
      ensures Guaranteed(caller)
      ensures RecordRecovered(outside, old(s), s, f, caller, ok)
      ensures faults == old(faults) ==> ok
    {
      hide Inv, Step, Effective, Running, HeldByOther, Pruned, GroupAlive, Unheld, WellFormed, Elapsed;
      InvStoppable(s, f);
      InvWellFormed(s);
      StepRefl(outside, s, caller);
      ghost var s0 := s;
      var record := s.records[f];
      var leases, pruned := PruneLeases(record.leases - {caller}, f, caller);
      LeftSaves(outside, s, f, caller, caller);
      if leases != map[] {
        ok := true;
        if pruned || caller in record.leases { ok := SaveLeases(f, leases, caller); }
        return;
      }
      var current, unverified := RecordState(record.process.leader);
      if !current && !unverified {
        ok := RemoveRecord(f, caller);
        return;
      }
      var stopped;
      stopped, ok := RetireRecord(f, true, caller);
      if !stopped {
        ghost var s1 := s;
        var saved := SaveLeases(f, map[], caller);
        StepTrans(outside, s0, s1, s, caller);
      }
    }

    /** Forced recovery of everything nobody else leases. */
    method RecoverUnleased(caller: Lease) returns (ok: bool, recovered: nat)
      requires Inv(s)
      modifies this`s, this`faults
      ensures Guaranteed(caller)
      ensures RecoverOutcome(outside, old(s), s, caller, ok)
      ensures ok ==> recovered == |old(s).records| - |s.records|
      ensures faults == old(faults) ==> ok
    {
      hide Inv, Step, Left, RecordRecovered, RecordsRecovered, RecoverOutcome, Recovering, RecoverySignals,
        WellRecorded,
        Elapsed;
      InvWellFormed(s);
      StepRefl(outside, s, caller);
      ghost var s0 := s;
      RecoveryBegins(outside, s, caller);
      var pending := s.records.Keys;
      recovered := 0;
      while pending != {}
        invariant outside == old(outside) && Inv(s) && Step(outside, s0, s, caller)
        invariant s.started == s0.started && s.returned == s0.returned
        invariant old(faults) <= faults
        invariant Recovering(outside, s0, s, pending, caller) && RecoverySignals(outside, s0, s, caller)
        invariant recovered + |s.records| == |s0.records|
      {
        var f :| f in pending;
        PendingRecorded(outside, s0, s, pending, caller);
        var readable, record := LoadRecord(f);
        if !readable {
          RecoveryStops(outside, s0, s, pending, caller);
          RecoveryEnds(outside, s0, s, caller);
          return false, recovered;
        }
        ghost var s1 := s;
        var done := RecoverRecord(f, caller);
        StepTrans(outside, s0, s1, s, caller);
        assert f in s1.records;
        RecoveryGoesOn(outside, s0, s1, s, pending, caller, f, done);
        StepElapses(outside, s0, s1, caller);
        RecoverySignalsMore(outside, s0, s1, s, pending, caller, f, done);
        if !done { RecoveryBreaksOff(outside, s0, s, caller); return false, recovered; }
        if f !in s.records { recovered := recovered + 1; }
        pending := pending - {f};
      }
      RecoveryStops(outside, s0, s, pending, caller);
      ok := true;
    }

    /** A workspace that kept its tunnel over a fresh start renews its lease. */
    method RenewRetained(process: Process, config: Config, caller: Lease) returns (ok: bool, renewed: bool)
      requires Inv(s)
      modifies this`s, this`faults
      ensures Guaranteed(caller)
      ensures RenewOutcome(outside, old(s), s, process, config, caller, ok, renewed)
      ensures faults == old(faults) ==> RenewSettled(outside, old(s), process, config, caller, ok, renewed)
    {
      renewed := false;
      InvWellFormed(s);
      StepRefl(outside, s, caller);
      hide Inv, Step, Effective, Running;
      ghost var s0 := s;
      if !process.managed || process.driver != KTCTL || config.driver != KTCTL { return true, false; }
      if !config.pinned { return false, false; }
      if process.fingerprint != config.fingerprint { return true, false; }
      var f := process.fingerprint;
      var readable, record := LoadRecord(f);
      if !readable || record.None? { return false, false; }
      if record.value.process.driver != process.driver || record.value.process.leader != process.leader {
        return false, false;
      }
      var current, unverified := RecordState(process.leader);
      if unverified { return false, false; }
      if !current { return true, false; }
      if caller !in record.value.leases { return false, false; }
      Elapse(caller);
      ghost var s1 := s;
      if f !in outside.answering { return true, false; }
      assert WellRecorded(s, f);
      ok := SaveLeases(f, record.value.leases[caller := outside.now], caller);
      StepTrans(outside, s0, s1, s, caller);
      renewed := ok;
    }
  }
}
