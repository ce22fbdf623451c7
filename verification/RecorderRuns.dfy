/** Whole-run theorems about the recorder, for every interleaving. */
module RecorderRuns {
  import opened Sequences
  import opened Contracts
  import opened Execution
  import opened Recorder
  import opened RecorderInvariants

  /** s can be reached by some run of cfg. */
  ghost predicate Reachable(cfg: Config, s: State)
  {
    exists s0, es :: Initial(cfg, s0) && Possible(cfg, s0, es) && After(cfg, s0, es) == s
  }

  lemma ReachableInv(cfg: Config, s: State) returns (start: int)
    requires Reachable(cfg, s)
    ensures Inv(cfg, s, start)
  {
    var s0, es :| Initial(cfg, s0) && Possible(cfg, s0, es) && After(cfg, s0, es) == s;
    start := s0.shared.backoffUntil;
    InvInitially(cfg, s0);
    InvAlways(cfg, s0, es, start);
  }

  lemma ReachableAfter(cfg: Config, s: State, es: seq<Event>)
    requires Reachable(cfg, s) && Possible(cfg, s, es)
    ensures Reachable(cfg, After(cfg, s, es))
  {
    var s0, fs :| Initial(cfg, s0) && Possible(cfg, s0, fs) && After(cfg, s0, fs) == s;
    AfterConcat(cfg, s0, fs, es);
  }

  /** A run begins with as many workers as it has lines, four when not configured, but no more than
      contracts, and at least one. */
  lemma WorkersAtStart(cfg: Config, s: State)
    requires Initial(cfg, s)
    ensures var lines := if cfg.lines <= 0 then 4 else cfg.lines;
            |s.workers| == if |cfg.work| >= lines then lines else if cfg.work == [] then 1 else |cfg.work|
    ensures forall i :: 0 <= i < |s.workers| ==> s.workers[i] == Idle
  {
  }

  // ----- Conservation and the run's status -----

  /** The log of a closed run answers every planned contract exactly once. */
  lemma EveryContractOnce(cfg: Config, s: State, k: nat)
    requires Reachable(cfg, s) && s.closed && k < |cfg.work|
    ensures Count(s.log, IsJob(k)) == 1
    ensures |s.log| == |cfg.work| == s.shared.planned == s.shared.attempted + s.shared.notAttempted
  {
    var start := ReachableInv(cfg, s);
    assert JobConserved(s, k);
    CountBounds(s.workers, HoldsJob(k));
    CountBounds(s.workers, Holds);
  }

  /** In every reachable state the rows recorded are the attempted and the not attempted. */
  lemma RowsCounted(cfg: Config, s: State)
    requires Reachable(cfg, s)
    ensures s.shared.attempted + s.shared.notAttempted == |s.log| <= s.shared.planned
    ensures |s.log| + Count(s.workers, Holds) == s.next
  {
    var start := ReachableInv(cfg, s);
  }

  /** Planned contract k has a row that says its line was requested. */
  ghost predicate Attempted(s: State, k: nat)
  {
    exists i :: 0 <= i < |s.log| && s.log[i].job == k && Tried(s.log[i])
  }

  /** The log of a closed run covers the work, and the attempted counter says how much of it
      was attempted. */
  lemma AllAttempted(cfg: Config, s: State)
    requires Conserved(cfg, s) && Joined(cfg, s)
    ensures |s.log| == |cfg.work|
    ensures Count(s.log, Tried) == |s.log| <==> forall k: nat :: k < |cfg.work| ==> Attempted(s, k)
  {
    JobsPlaced(cfg, s);
    CountBounds(s.log, Tried);
    CountBounds(s.workers, Holds);
    forall k: nat | k < |cfg.work| ensures IsRecorded(s, k) {
      assert !IsHeld(s, k);
    }
    if forall k: nat :: k < |cfg.work| ==> Attempted(s, k) {
      forall i | 0 <= i < |s.log| ensures Tried(s.log[i]) {
        assert Attempted(s, s.log[i].job);
      }
    } else {
      var k: nat :| k < |cfg.work| && !Attempted(s, k);
      assert IsRecorded(s, k);
    }
  }

  lemma NoneAttempted(cfg: Config, s: State)
    requires Conserved(cfg, s)
    ensures Count(s.log, Tried) == 0 <==> forall k: nat :: k < |cfg.work| ==> !Attempted(s, k)
  {
    JobsPlaced(cfg, s);
    CountBounds(s.log, Tried);
    if Count(s.log, Tried) > 0 {
      var i :| 0 <= i < |s.log| && Tried(s.log[i]);
      assert Attempted(s, s.log[i].job);
    }
  }

  /** What the stored run status means. */
  lemma StatusMeans(cfg: Config, s: State, heldUnavailable: bool)
    requires Reachable(cfg, s) && s.closed
    ensures var out := Closing(s.shared, heldUnavailable);
            && (out.status == RunComplete <==>
                  |cfg.work| >= 1 && (forall k: nat :: k < |cfg.work| ==> Attempted(s, k))
                  && !cfg.undiscovered && s.shared.stop != Some(StoreError))
            && (out.status == RunFailed <==>
                  s.shared.stop == Some(StoreError) || forall k: nat :: k < |cfg.work| ==> !Attempted(s, k))
            && (out.status == RunPartial <==>
                  && s.shared.stop != Some(StoreError) && (exists k: nat :: k < |cfg.work| && Attempted(s, k))
                  && (cfg.undiscovered || exists k: nat :: k < |cfg.work| && !Attempted(s, k)))
            && out.stopReason == (if s.shared.stop.Some? then Stopped(s.shared.stop.value)
                                  else if |cfg.work| == 0 then NoContracts else NoReason)
            && out.planned == |cfg.work| && out.attempted == Count(s.log, Tried) && out.quoted == Count(s.log, WasQuoted)
            && out.heldUnavailable == heldUnavailable
  {
    var start := ReachableInv(cfg, s);
    AllAttempted(cfg, s);
    NoneAttempted(cfg, s);
  }

  // ----- Monotone stop and bounded overrun -----

  /** Job j had been granted a quote that was not recorded yet. */
  ghost predicate Flying(s: State, j: nat)
  {
    exists i :: 0 <= i < |s.workers| && InFlight(s.workers[i]) && s.workers[i].job == j
  }

  /** t continues s, and what the broker was asked for since had been granted in s. */
  ghost predicate Draining(s: State, t: State)
  {
    && t.shared.stop.Some?
    && s.log <= t.log
    && (forall i :: 0 <= i < |t.workers| && InFlight(t.workers[i]) ==> Flying(s, t.workers[i].job))
    && (forall i :: |s.log| <= i < |t.log| && t.log[i].asked ==> Flying(s, t.log[i].job))
    && t.shared.attempted + Count(t.workers, InFlight) <= s.shared.attempted + Count(s.workers, InFlight)
  }

  lemma DrainingByStep(cfg: Config, s: State, t: State, e: Event)
    requires Draining(s, t) && Enabled(cfg, t, e)
    ensures Draining(s, Apply(cfg, t, e))
  {
    StopClimbs(cfg, t, e);
    StoppedDrains(cfg, t, e);
    OneWorker(cfg, t, e);
    if e.Record? {
      RecordShape(cfg, t, e);
    } else {
      NoNewFlight(cfg, t, e);
    }
  }

  /** After the stop a step outside recording leaves the log alone and puts nothing in flight. */
  lemma NoNewFlight(cfg: Config, t: State, e: Event)
    requires Enabled(cfg, t, e) && t.shared.stop.Some? && !e.Record?
    ensures Apply(cfg, t, e).log == t.log && |Apply(cfg, t, e).workers| == |t.workers|
    ensures forall i :: 0 <= i < |t.workers| && InFlight(Apply(cfg, t, e).workers[i]) ==>
              InFlight(t.workers[i]) && t.workers[i].job == Apply(cfg, t, e).workers[i].job
  {
    OneWorker(cfg, t, e);
    match e
    case Local(w, act) => ActKeepsJob(cfg, t.workers[w], act, t.clock, t.cancelled);
    case Check(w, load) => StoppedRefuses(cfg, t, w, load);
    case _ =>
  }

  lemma {:induction false} DrainingAlways(cfg: Config, s: State, t: State, es: seq<Event>)
    requires Draining(s, t) && Possible(cfg, t, es)
    ensures Draining(s, After(cfg, t, es))
    decreases |es|
  {
    if es != [] {
      DrainingByStep(cfg, s, t, es[0]);
      DrainingAlways(cfg, s, Apply(cfg, t, es[0]), es[1..]);
    }
  }

  /** Once some event stops the run, no contract is granted a quote any more, at most lines - 1
      further rows count as attempted, and the stop reason can only turn into a store error. */
  lemma BoundedOverrun(cfg: Config, u: State, e: Event, es: seq<Event>)
    requires Reachable(cfg, u) && Enabled(cfg, u, e)
    requires u.shared.stop.None? && Apply(cfg, u, e).shared.stop.Some?
    requires Possible(cfg, Apply(cfg, u, e), es)
    ensures var s, f := Apply(cfg, u, e), After(cfg, Apply(cfg, u, e), es);
            && Draining(s, f)
            && f.shared.attempted <= s.shared.attempted + Lines(cfg) - 1
            && (f.shared.stop == s.shared.stop || f.shared.stop == Some(StoreError))
  {
    var s := Apply(cfg, u, e);
    StopLeavesRoom(cfg, u, e);
    DrainingAlways(cfg, s, s, es);
    StopMonotone(cfg, s, es);
  }

  lemma StopLeavesRoom(cfg: Config, u: State, e: Event)
    requires Reachable(cfg, u) && Enabled(cfg, u, e)
    requires u.shared.stop.None? && Apply(cfg, u, e).shared.stop.Some?
    ensures Count(Apply(cfg, u, e).workers, InFlight) <= Lines(cfg) - 1
  {
    var start := ReachableInv(cfg, u);
    if WorkerEvent(e) {
      StopperLeaves(cfg, u, e);
    } else {
      OneWorker(cfg, u, e);
      CountBounds(u.workers, InFlight);
    }
  }

  lemma {:induction false} StopMonotone(cfg: Config, s: State, es: seq<Event>)
    requires Possible(cfg, s, es)
    ensures Climbs(s.shared.stop, After(cfg, s, es).shared.stop)
    decreases |es|
  {
    if es != [] {
      StopClimbs(cfg, s, es[0]);
      StopMonotone(cfg, Apply(cfg, s, es[0]), es[1..]);
    }
  }

  // ----- A run cut short keeps the money -----

  predicate Disturbed(s: State) { s.shared.stop.Some? || s.cancelled }

  /** Until the first stop or cancellation, only unentitled symbols are turned away. */
  ghost predicate Calm(s: State)
  {
    !Disturbed(s) ==>
      && (forall i :: 0 <= i < |s.log| && !s.log[i].asked ==> s.log[i].row.detail == Because(SymbolNoEntitlement))
      && (forall i :: 0 <= i < |s.workers| && s.workers[i].Turned? ==> s.workers[i].reason == SymbolNoEntitlement)
  }

  lemma CalmByStep(cfg: Config, s: State, e: Event)
    requires Calm(s) && Enabled(cfg, s, e)
    ensures Calm(Apply(cfg, s, e))
    ensures Disturbed(s) ==> Disturbed(Apply(cfg, s, e))
  {
    OneWorker(cfg, s, e);
    StopClimbs(cfg, s, e);
    if e.Local? {
      ActKeepsJob(cfg, s.workers[e.w], e.act, s.clock, s.cancelled);
    }
  }

  lemma {:induction false} CalmAlways(cfg: Config, s: State, es: seq<Event>)
    requires Calm(s) && Possible(cfg, s, es)
    ensures Calm(After(cfg, s, es))
    decreases |es|
  {
    if es != [] {
      CalmByStep(cfg, s, es[0]);
      CalmAlways(cfg, Apply(cfg, s, es[0]), es[1..]);
    }
  }

  /** Jobs from n on were dispatched too late to be requested. */
  ghost predicate TooLate(t: State, n: nat)
  {
    && Disturbed(t)
    && (forall i :: 0 <= i < |t.workers| && Holds(t.workers[i]) && t.workers[i].job >= n ==>
          Barred(t, t.workers[i]))
    && (forall i :: 0 <= i < |t.log| && t.log[i].job >= n ==> !Tried(t.log[i]))
  }

  /** A worker that came too late stays so, or is done without having asked. */
  predicate Barred(t: State, p: Phase)
  {
    p.Admitting? || p.Turned? || (t.shared.stop.Some? && (p.Passed? || p.Checking?))
  }

  lemma BarredByLocal(cfg: Config, t: State, w: nat, act: Act)
    requires Disturbed(t) && Enabled(cfg, t, Local(w, act)) && Barred(t, t.workers[w])
    ensures Barred(t, Apply(cfg, t, Local(w, act)).workers[w])
  {
  }

  lemma BarredByCheck(cfg: Config, t: State, w: nat, load: Option<Load>)
    requires Enabled(cfg, t, Check(w, load)) && Barred(t, t.workers[w])
    ensures Apply(cfg, t, Check(w, load)).workers[w].Turned?
    ensures Apply(cfg, t, Check(w, load)).shared.stop == t.shared.stop
  {
    StoppedRefuses(cfg, t, w, load);
  }

  lemma TooLateByRecord(cfg: Config, t: State, e: Event, n: nat)
    requires TooLate(t, n) && Enabled(cfg, t, e) && n <= t.next && e.Record?
    ensures TooLate(Apply(cfg, t, e), n)
  {
    RecordShape(cfg, t, e);
    StopClimbs(cfg, t, e);
  }

  lemma TooLateByStep(cfg: Config, t: State, e: Event, n: nat)
    requires TooLate(t, n) && Enabled(cfg, t, e) && n <= t.next
    ensures TooLate(Apply(cfg, t, e), n) && n <= Apply(cfg, t, e).next
    ensures t.log <= Apply(cfg, t, e).log
  {
    if e.Record? {
      RecordShape(cfg, t, e);
      TooLateByRecord(cfg, t, e, n);
    } else if e.Dispatch? {
      DispatchShape(cfg, t, e);
    } else {
      OneWorker(cfg, t, e);
      StopClimbs(cfg, t, e);
      QuietStep(cfg, t, e);
      if WorkerEvent(e) {
        JobKept(cfg, t, e);
        if Holds(t.workers[e.w]) && Barred(t, t.workers[e.w]) {
          match e
          case Local(w, act) => BarredByLocal(cfg, t, w, act);
          case Check(w, load) => BarredByCheck(cfg, t, w, load);
          case _ =>
        }
      }
    }
  }

  lemma {:induction false} TooLateAlways(cfg: Config, t: State, es: seq<Event>, n: nat)
    requires TooLate(t, n) && Possible(cfg, t, es) && n <= t.next
    ensures TooLate(After(cfg, t, es), n)
    ensures t.log <= After(cfg, t, es).log
    decreases |es|
  {
    if es != [] {
      TooLateByStep(cfg, t, es[0], n);
      TooLateAlways(cfg, Apply(cfg, t, es[0]), es[1..], n);
    }
  }

  /** Work in rank order, as orderContracts leaves it. */
  ghost predicate RankOrdered(work: seq<Contract>)
  {
    forall i, j :: 0 <= i < j < |work| ==> work[i].rank <= work[j].rank
  }

  /** Row b lost its contract to the end of the run rather than to its own symbol. */
  predicate LostToTheRun(b: Entry) { !b.asked && b.row.detail != Because(SymbolNoEntitlement) }

  /** Take the first stop or cancellation, at s. In every later state f, an attempted contract
      precedes in work order, and is no farther from the money than, any contract recorded as not
      attempted since, whether or not the broker had been asked and whatever the reason, save
      those that workers held at s; workers hold at most lines of them. Up to s the run had turned
      away contracts of unentitled symbols only. */
  lemma CutShortKeepsTheMoney(cfg: Config, u: State, e: Event, es: seq<Event>, a: nat, b: nat)
    requires Reachable(cfg, u) && !Disturbed(u) && Enabled(cfg, u, e) && Disturbed(Apply(cfg, u, e))
    requires Possible(cfg, Apply(cfg, u, e), es)
    requires RankOrdered(cfg.work)
    requires var f := After(cfg, Apply(cfg, u, e), es);
             a < |f.log| && |Apply(cfg, u, e).log| <= b < |f.log| && Tried(f.log[a]) && !Tried(f.log[b])
    ensures forall i :: 0 <= i < |Apply(cfg, u, e).log| ==> !LostToTheRun(Apply(cfg, u, e).log[i])
    ensures var s, f := Apply(cfg, u, e), After(cfg, Apply(cfg, u, e), es);
            && Count(s.workers, Holds) <= Lines(cfg)
            && (IsHeld(s, f.log[b].job)
                || (f.log[a].job < f.log[b].job && f.log[a].row.contract.rank <= f.log[b].row.contract.rank))
  {
    var s := Apply(cfg, u, e);
    ReachableCalm(cfg, u);
    ReachableStep(cfg, u, e);
    ReachableAfter(cfg, s, es);
    var start := ReachableInv(cfg, s);
    var start' := ReachableInv(cfg, After(cfg, s, es));
    JobsPlaced(cfg, s);
    TooLateAlways(cfg, s, es, s.next);
    forall i | 0 <= i < |s.log| ensures !LostToTheRun(s.log[i]) {
      FirstDisturbance(cfg, u, e, i);
    }
    MoneyKept(cfg, s, After(cfg, s, es), a, b);
  }

  lemma MoneyKept(cfg: Config, s: State, f: State, a: nat, b: nat)
    requires Conserved(cfg, s) && Conserved(cfg, f) && Faithful(cfg, f)
    requires RankOrdered(cfg.work) && s.log <= f.log && TooLate(f, s.next)
    requires a < |f.log| && |s.log| <= b < |f.log| && Tried(f.log[a]) && !Tried(f.log[b])
    ensures Count(s.workers, Holds) <= Lines(cfg)
    ensures IsHeld(s, f.log[b].job)
            || (f.log[a].job < f.log[b].job && f.log[a].row.contract.rank <= f.log[b].row.contract.rank)
  {
    JobsPlaced(cfg, s);
    JobsPlaced(cfg, f);
    CountBounds(s.workers, Holds);
    assert !IsRecorded(s, f.log[b].job) by {
      assert forall i :: 0 <= i < |s.log| ==> s.log[i] == f.log[i];
    }
  }

  lemma ReachableCalm(cfg: Config, u: State)
    requires Reachable(cfg, u)
    ensures Calm(u)
  {
    var s0, fs :| Initial(cfg, s0) && Possible(cfg, s0, fs) && After(cfg, s0, fs) == u;
    CalmAlways(cfg, s0, fs);
  }

  lemma ReachableStep(cfg: Config, u: State, e: Event)
    requires Reachable(cfg, u) && Enabled(cfg, u, e)
    ensures Reachable(cfg, Apply(cfg, u, e))
  {
    assert After(cfg, Apply(cfg, u, e), []) == Apply(cfg, u, e);
    assert [e][1..] == [];
    ReachableAfter(cfg, u, [e]);
  }

  /** A run that begins cancelled or without a store requests nothing at all. */
  lemma DisturbedFromTheStart(cfg: Config, s0: State, es: seq<Event>)
    requires Initial(cfg, s0) && Disturbed(s0) && Possible(cfg, s0, es)
    ensures After(cfg, s0, es).shared.attempted == 0
  {
    InvInitially(cfg, s0);
    InvAlways(cfg, s0, es, s0.shared.backoffUntil);
    TooLateAlways(cfg, s0, es, 0);
    CountBounds(After(cfg, s0, es).log, Tried);
  }

  /** At the first disturbance no recorded row was lost to the run. */
  lemma FirstDisturbance(cfg: Config, u: State, e: Event, b: nat)
    requires Calm(u) && !Disturbed(u) && Enabled(cfg, u, e) && Disturbed(Apply(cfg, u, e))
    requires b < |Apply(cfg, u, e).log|
    ensures !LostToTheRun(Apply(cfg, u, e).log[b])
  {
  }

  /** A contract of some rank is handed out only after every contract of smaller rank. */
  lemma RankFirstDispatch(cfg: Config, s: State, k: nat)
    requires Reachable(cfg, s) && RankOrdered(cfg.work) && k < |cfg.work|
    requires IsHeld(s, k) || IsRecorded(s, k)
    ensures forall j: nat :: j < |cfg.work| && cfg.work[j].rank < cfg.work[k].rank ==> IsHeld(s, j) || IsRecorded(s, j)
  {
    var start := ReachableInv(cfg, s);
    JobsPlaced(cfg, s);
  }

  // ----- Exactly-once persistence -----

  /** Whatever happens, the store plus the buffer is the record in lock order; a closed run that
      kept its store has everything in it; the buffer stays small until the store fails. */
  lemma ExactlyOncePersistence(cfg: Config, s: State)
    requires Reachable(cfg, s)
    ensures s.persisted + s.shared.pending == LoggedRows(s)
    ensures s.closed && s.shared.stop != Some(StoreError) ==> s.persisted == LoggedRows(s) && |s.persisted| == |cfg.work|
    ensures s.shared.stop != Some(StoreError) ==>
              |s.shared.pending| <= 199 + Count(s.workers, Due()) && Count(s.workers, Due()) <= Lines(cfg)
  {
    var start := ReachableInv(cfg, s);
    CountBounds(s.workers, Due());
    if s.closed {
      CountBounds(s.workers, Holds);
      assert s.persisted + [] == s.persisted;
    }
  }

  /** The store only grows, and not at all once it failed. */
  lemma {:induction false} StoredPrefixGrows(cfg: Config, s: State, es: seq<Event>)
    requires Possible(cfg, s, es)
    ensures s.persisted <= After(cfg, s, es).persisted
    ensures s.shared.stop == Some(StoreError) ==> After(cfg, s, es).persisted == s.persisted
    decreases |es|
  {
    if es != [] {
      StopClimbs(cfg, s, es[0]);
      StoredPrefixStep(cfg, s, es[0]);
      StoredPrefixGrows(cfg, Apply(cfg, s, es[0]), es[1..]);
    }
  }

  lemma StoredPrefixStep(cfg: Config, s: State, e: Event)
    requires Enabled(cfg, s, e)
    ensures s.persisted <= Apply(cfg, s, e).persisted
    ensures s.shared.stop == Some(StoreError) ==> Apply(cfg, s, e).persisted == s.persisted
  {
  }

  ghost predicate ContractKeysDistinct(work: seq<Contract>)
  {
    forall i, j :: 0 <= i < j < |work| ==> KeyOf(work[i]) != KeyOf(work[j])
  }

  /** With distinct planned keys the uniqueness constraint never refuses a batch: only a failing
      medium can cost the run its store. */
  lemma UniquenessNeverFails(cfg: Config, s: State, io: bool)
    requires Reachable(cfg, s) && ContractKeysDistinct(cfg.work)
    ensures KeysUnique(s.persisted + s.shared.pending)
    ensures Stores(s, io) == io
  {
    var start := ReachableInv(cfg, s);
    JobsPlaced(cfg, s);
    var rows := s.persisted + s.shared.pending;
    forall i, j | 0 <= i < j < |rows|
      ensures KeyOf(rows[i].contract) != KeyOf(rows[j].contract)
    {
      assert rows[i] == s.log[i].row && rows[j] == s.log[j].row;
      var a, b := s.log[i].job, s.log[j].job;
      assert a < b || b < a;
    }
  }

  // ----- Entitlement give-up and pacing, in every reachable state -----

  /** While a symbol has no observation, its refusals and its quotes in flight stay bounded. */
  lemma EntitlementGiveUp(cfg: Config, s: State, sym: string)
    requires Reachable(cfg, s) && Count(s.log, ObservedFor(sym)) == 0
    ensures Count(s.log, RefusedFor(sym)) + Count(s.workers, FlyingFor(cfg, sym)) <= ENTITLEMENT_GIVE_UP - 1 + Lines(cfg)
  {
    var start := ReachableInv(cfg, s);
  }

  /** The streak is the trailing signals of the history; five of them stop the run; the pause in
      force is the latest end of the 5, 10, 20 and 40 second pauses taken. */
  lemma PacingDiscipline(cfg: Config, s0: State, es: seq<Event>)
    requires Initial(cfg, s0) && Possible(cfg, s0, es)
    ensures var f := After(cfg, s0, es);
            && f.shared.consecutive == Streak(f.marks)
            && (Streak(f.marks) >= MAX_PACING_SIGNALS ==> f.shared.stop.Some?)
            && f.shared.backoffUntil == PausedUntil(f.marks, s0.shared.backoffUntil)
  {
    InvInitially(cfg, s0);
    InvAlways(cfg, s0, es, s0.shared.backoffUntil);
  }

  /** Neither pacing clock ever goes back. */
  lemma {:induction false} PacingNeverRelaxes(cfg: Config, s: State, es: seq<Event>)
    requires Possible(cfg, s, es)
    ensures s.shared.backoffUntil <= After(cfg, s, es).shared.backoffUntil
    ensures s.shared.lastPacingSeen <= After(cfg, s, es).shared.lastPacingSeen
    decreases |es|
  {
    if es != [] {
      PacingClocksClimb(cfg, s, es[0]);
      PacingNeverRelaxes(cfg, Apply(cfg, s, es[0]), es[1..]);
    }
  }
}
