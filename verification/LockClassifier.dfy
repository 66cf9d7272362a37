/** Who owns a lock file, and whether that owner can still be running. */
module LockClassifier {
  import opened Prelude

  /** One run of one process: a process id is reused, but never with the same start time in the same boot. */
  datatype Incarnation = Incarnation(host: string, boot: string, pid: nat, start: int)

  /** The JSON record in the primary lock file. `startTime` is null when it could not be read at acquire time. */
  datatype OwnerRecord = OwnerRecord(hostname: string, bootId: string, pid: nat, startTime: Option<int>, token: nat)

  /** Result of looking a pid up: the lookup itself may fail, and may not yield a creation time. */
  datatype Lookup = LookupFailed | NoSuchPid | Running(createTime: Option<int>)

  datatype Verdict = Live | ForeignHost | Stale | Ambiguous

  function Classify(r: OwnerRecord, hostname: string, bootId: string, lookup: Lookup): Verdict {
    if r.hostname != hostname then ForeignHost
    else if r.bootId != bootId then Stale
    else
      match lookup
      case LookupFailed => Ambiguous
      case NoSuchPid => Stale
      case Running(createTime) =>
        if createTime.None? then Ambiguous
        else if r.startTime.None? then Ambiguous
        else if r.startTime.value != createTime.value then Stale
        else Live
  }

  function RecordOf(p: Incarnation, startKnown: bool, token: nat): OwnerRecord {
    OwnerRecord(p.host, p.boot, p.pid, if startKnown then Some(p.start) else None, token)
  }

  predicate Describes(r: OwnerRecord, p: Incarnation) {
    r.hostname == p.host && r.bootId == p.boot && r.pid == p.pid && r.startTime in {None, Some(p.start)}
  }

  // ------------------------------------------------------------------ the machines

  /** Current boot of each host, every boot it has had, and the processes running now and ever. */
  datatype World = World(boots: map<string, string>, used: set<(string, string)>,
                         alive: set<Incarnation>, ever: set<Incarnation>)

  ghost predicate WorldOk(w: World) {
    && w.alive <= w.ever
    && (forall p :: p in w.alive ==> p.host in w.boots && w.boots[p.host] == p.boot)
    && (forall p :: p in w.ever ==> (p.host, p.boot) in w.used)
    && (forall h :: h in w.boots ==> (h, w.boots[h]) in w.used)
    && (forall p, q :: p in w.alive && q in w.alive && p.host == q.host && p.pid == q.pid ==> p == q)
  }

  ghost predicate CanSpawn(w: World, p: Incarnation) {
    && p !in w.ever
    && p.host in w.boots && w.boots[p.host] == p.boot
    && forall q :: q in w.alive && q.host == p.host ==> q.pid != p.pid
  }

  function Spawned(w: World, p: Incarnation): World {
    w.(alive := w.alive + {p}, ever := w.ever + {p})
  }

  function Died(w: World, p: Incarnation): World {
    w.(alive := w.alive - {p})
  }

  predicate CanReboot(w: World, host: string, boot: string) {
    (host, boot) !in w.used
  }

  function Survivors(w: World, host: string): set<Incarnation> {
    set p | p in w.alive && p.host != host
  }

  function Rebooted(w: World, host: string, boot: string): World {
    w.(boots := w.boots[host := boot], used := w.used + {(host, boot)}, alive := Survivors(w, host))
  }

  /** What a lookup on `host` may answer: it can always fail, but never lies. */
  ghost predicate Faithful(w: World, host: string, pid: nat, lookup: Lookup) {
    match lookup
    case LookupFailed => true
    case NoSuchPid => forall p :: p in w.alive && p.host == host ==> p.pid != pid
    case Running(createTime) =>
      exists p :: p in w.alive && p.host == host && p.pid == pid && createTime in {None, Some(p.start)}
  }

  /** A stale verdict is never wrong: the recorded process is gone. */
  lemma StaleMeansDead(w: World, r: OwnerRecord, owner: Incarnation, observer: Incarnation, lookup: Lookup)
    requires WorldOk(w) && observer in w.alive && Describes(r, owner)
    requires Faithful(w, observer.host, r.pid, lookup)
    requires Classify(r, observer.host, w.boots[observer.host], lookup) == Stale
    ensures owner !in w.alive
  {
  }

  /** On the owner's own host, with a recorded start time and a lookup that answers, the verdict is exact. */
  lemma StaleExactly(w: World, r: OwnerRecord, owner: Incarnation, observer: Incarnation, lookup: Lookup)
    requires WorldOk(w) && observer in w.alive && Describes(r, owner) && owner in w.ever
    requires Faithful(w, observer.host, r.pid, lookup)
    requires owner.host == observer.host && r.startTime.Some?
    requires lookup.NoSuchPid? || (lookup.Running? && lookup.createTime.Some?)
    ensures Classify(r, observer.host, w.boots[observer.host], lookup) == Stale <==> owner !in w.alive
  {
    if Classify(r, observer.host, w.boots[observer.host], lookup) == Stale {
      StaleMeansDead(w, r, owner, observer, lookup);
    } else {
      var p :| p in w.alive && p.host == observer.host && p.pid == r.pid && lookup.createTime in {None, Some(p.start)};
      assert p.boot == w.boots[p.host] == r.bootId && p.start == owner.start;
      assert p == owner;
    }
  }

  /** Every verdict, exactly, for any record of a process that has lived and any lookup that does not lie. Live is said of
      living owners only, and of each of them on the observer's host whose start time is recorded and looked up. */
  lemma VerdictExactly(w: World, r: OwnerRecord, owner: Incarnation, observer: Incarnation, lookup: Lookup)
    requires WorldOk(w) && observer in w.alive && Describes(r, owner) && owner in w.ever
    requires Faithful(w, observer.host, r.pid, lookup)
    ensures
      var verdict := Classify(r, observer.host, w.boots[observer.host], lookup);
      var known := r.startTime.Some? && lookup.Running? && lookup.createTime.Some?;
      && (verdict == ForeignHost <==> owner.host != observer.host)
      && (verdict == Live <==> owner.host == observer.host && owner in w.alive && known)
      && (verdict == Stale <==>
            owner.host == observer.host && owner !in w.alive && (owner.boot != observer.boot || lookup.NoSuchPid? || known))
      && (verdict == Ambiguous <==>
            owner.host == observer.host && owner.boot == observer.boot && !lookup.NoSuchPid? && !known)
  {
    if lookup.Running? && owner.host == observer.host {
      var p :| p in w.alive && p.host == observer.host && p.pid == r.pid && lookup.createTime in {None, Some(p.start)};
      assert owner in w.alive ==> p == owner;
      assert owner.boot == observer.boot && lookup.createTime == Some(owner.start) ==> p == owner;
    }
  }

  lemma WorldStaysOk(w: World, p: Incarnation, host: string, boot: string)
    requires WorldOk(w)
    ensures CanSpawn(w, p) ==> WorldOk(Spawned(w, p))
    ensures WorldOk(Died(w, p))
    ensures CanReboot(w, host, boot) ==> WorldOk(Rebooted(w, host, boot))
  {
  }
}
