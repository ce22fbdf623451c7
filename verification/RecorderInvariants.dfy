/** What every step of a run keeps. */
module RecorderInvariants {
  import opened Sequences
  import opened Contracts
  import opened Execution
  import opened Recorder

  // ----- Shape of a step -----

  predicate WorkerEvent(e: Event) { !Environment(e) && !e.FinalFlush? }

  /** A step moves one worker or none. */
  lemma OneWorker(cfg: Config, s: State, e: Event)
    requires Enabled(cfg, s, e)
    ensures var t := Apply(cfg, s, e);
            if WorkerEvent(e)
            then e.w < |s.workers| && |t.workers| == |s.workers| && t.workers == s.workers[e.w := t.workers[e.w]]
            else t.workers == s.workers
  {
  }

  /** Acting alone, a worker keeps its job and is in flight only if it was. */
  lemma ActKeepsJob(cfg: Config, p: Phase, act: Act, clock: int, cancelled: bool)
    requires ActEnabled(cfg, p, act, clock, cancelled)
    ensures var q := ActPhase(cfg, p, act, clock, cancelled);
            && Holds(p) && Holds(q) && p.job == q.job && InFlight(p) == InFlight(q)
            && (q.Answered? ==> q.job < |cfg.work| && q.row.contract == cfg.work[q.job])
            && (q.Turned? ==> cancelled && q.reason == Cancelled)
  {
  }

  /** A worker that took a job holds it until it records it. */
  lemma JobKept(cfg: Config, s: State, e: Event)
    requires Enabled(cfg, s, e) && WorkerEvent(e) && !e.Dispatch? && !e.Record?
    ensures var p, q := s.workers[e.w], Apply(cfg, s, e).workers[e.w];
            Holds(p) == Holds(q) && (Holds(p) ==> p.job == q.job)
  {
    if e.Local? {
      ActKeepsJob(cfg, s.workers[e.w], e.act, s.clock, s.cancelled);
    }
  }

  /** The log entry a worker is about to write. */
  function Recorded(cfg: Config, p: Phase): Entry
    requires Recordable(cfg, p)
  {
    Entry(p.job, RowOf(cfg, p), p.Answered?)
  }

  /** Steps outside the lock leave the protected fields, the log and the store alone. */
  lemma Unlocked(cfg: Config, s: State, e: Event)
    requires Enabled(cfg, s, e) && !e.Check? && !e.Record? && !e.Flush? && !e.FinalFlush?
    ensures var t := Apply(cfg, s, e);
            t.shared == s.shared && t.log == s.log && t.marks == s.marks && t.persisted == s.persisted && t.closed == s.closed
  {
  }

  // ----- Conservation: every dispatched job is held by one worker or recorded once -----

  function HoldsJob(k: nat): Phase -> bool { (p: Phase) => Holds(p) && p.job == k }

  function IsJob(k: nat): Entry -> bool { (x: Entry) => x.job == k }

  function HoldsSymbol(cfg: Config, sym: string): Phase -> bool
  {
    (p: Phase) => Holds(p) && p.job < |cfg.work| && cfg.work[p.job].symbol == sym
  }

  function IsSymbol(sym: string): Contract -> bool { (c: Contract) => c.symbol == sym }

  function JobSymbol(cfg: Config, sym: string): Entry -> bool
  {
    (x: Entry) => x.job < |cfg.work| && cfg.work[x.job].symbol == sym
  }

  /** Job k sits with exactly one worker or in exactly one log entry once dispatched, and
      nowhere before. */
  ghost predicate JobConserved(s: State, k: nat)
  {
    Count(s.workers, HoldsJob(k)) + Count(s.log, IsJob(k)) == if k < s.next then 1 else 0
  }

  /** The dispatched contracts of one symbol are those held plus those recorded. */
  ghost predicate SymbolConserved(cfg: Config, s: State, sym: string)
    requires s.next <= |cfg.work|
  {
    Count(s.workers, HoldsSymbol(cfg, sym)) + Count(s.log, JobSymbol(cfg, sym)) == Count(cfg.work[..s.next], IsSymbol(sym))
  }

  ghost predicate Conserved(cfg: Config, s: State)
  {
    && |s.workers| == Pool(cfg)
    && s.next <= |cfg.work|
    && |s.log| + Count(s.workers, Holds) == s.next
    && (forall k: nat :: JobConserved(s, k))
    && (forall sym :: SymbolConserved(cfg, s, sym))
  }

  lemma ConservedInitially(cfg: Config, s: State)
    requires Initial(cfg, s)
    ensures Conserved(cfg, s)
  {
    CountBounds(s.workers, Holds);
    forall k: nat ensures JobConserved(s, k) {
      CountBounds(s.workers, HoldsJob(k));
    }
    forall sym ensures SymbolConserved(cfg, s, sym) {
      CountBounds(s.workers, HoldsSymbol(cfg, sym));
    }
  }

  /** Only handing out and recording a job change the work order's position and the log. */
  lemma QuietStep(cfg: Config, s: State, e: Event)
    requires Enabled(cfg, s, e) && !e.Dispatch? && !e.Record?
    ensures Apply(cfg, s, e).next == s.next && Apply(cfg, s, e).log == s.log
  {
  }

  /** A quiet step changes no count of workers that looks only at the jobs they hold. */
  lemma SameHolders(cfg: Config, s: State, e: Event, p: Phase -> bool)
    requires Enabled(cfg, s, e) && !e.Dispatch? && !e.Record?
    requires forall x, y :: Holds(x) == Holds(y) && (Holds(x) ==> x.job == y.job) ==> p(x) == p(y)
    ensures Count(Apply(cfg, s, e).workers, p) == Count(s.workers, p)
  {
    OneWorker(cfg, s, e);
    if WorkerEvent(e) {
      JobKept(cfg, s, e);
      CountUpdate(s.workers, e.w, Apply(cfg, s, e).workers[e.w], p);
    }
  }

  /** Handing out a job: the worker was idle and now holds it. */
  lemma DispatchShape(cfg: Config, s: State, e: Event)
    requires Enabled(cfg, s, e) && e.Dispatch?
    ensures var t, q := Apply(cfg, s, e), Admitting(s.next, s.clock);
            && e.w < |s.workers| && s.workers[e.w] == Idle && t.workers == s.workers[e.w := q]
            && s.next < |cfg.work| && t.next == s.next + 1 && t.log == s.log
  {
  }

  /** Recording: the worker's job moves from its hands to the end of the log. */
  lemma RecordShape(cfg: Config, s: State, e: Event)
    requires Enabled(cfg, s, e) && e.Record?
    ensures e.w < |s.workers| && Recordable(cfg, s.workers[e.w])
    ensures var t, p := Apply(cfg, s, e), s.workers[e.w];
            && Holds(p) && |t.workers| == |s.workers| && !Holds(t.workers[e.w])
            && t.workers == s.workers[e.w := t.workers[e.w]]
            && t.next == s.next && t.log == s.log + [Recorded(cfg, p)]
  {
    OneWorker(cfg, s, e);
  }

  lemma JobByDispatch(cfg: Config, s: State, e: Event, k: nat)
    requires JobConserved(s, k) && Enabled(cfg, s, e) && e.Dispatch?
    ensures JobConserved(Apply(cfg, s, e), k)
  {
    DispatchShape(cfg, s, e);
    CountUpdate(s.workers, e.w, Admitting(s.next, s.clock), HoldsJob(k));
  }

  lemma JobByRecord(cfg: Config, s: State, e: Event, k: nat)
    requires JobConserved(s, k) && Enabled(cfg, s, e) && e.Record?
    ensures JobConserved(Apply(cfg, s, e), k)
  {
    RecordShape(cfg, s, e);
    CountUpdate(s.workers, e.w, Apply(cfg, s, e).workers[e.w], HoldsJob(k));
    CountAppend(s.log, Recorded(cfg, s.workers[e.w]), IsJob(k));
  }

  lemma JobByStep(cfg: Config, s: State, e: Event, k: nat)
    requires JobConserved(s, k) && Enabled(cfg, s, e)
    ensures JobConserved(Apply(cfg, s, e), k)
  {
    if e.Dispatch? {
      JobByDispatch(cfg, s, e, k);
    } else if e.Record? {
      JobByRecord(cfg, s, e, k);
    } else {
      QuietStep(cfg, s, e);
      SameHolders(cfg, s, e, HoldsJob(k));
    }
  }

  lemma SymbolByDispatch(cfg: Config, s: State, e: Event, sym: string)
    requires s.next <= |cfg.work| && SymbolConserved(cfg, s, sym) && Enabled(cfg, s, e) && e.Dispatch?
    ensures SymbolConserved(cfg, Apply(cfg, s, e), sym)
  {
    DispatchShape(cfg, s, e);
    CountUpdate(s.workers, e.w, Admitting(s.next, s.clock), HoldsSymbol(cfg, sym));
    assert cfg.work[..s.next + 1] == cfg.work[..s.next] + [cfg.work[s.next]];
    CountAppend(cfg.work[..s.next], cfg.work[s.next], IsSymbol(sym));
  }

  lemma SymbolByRecord(cfg: Config, s: State, e: Event, sym: string)
    requires s.next <= |cfg.work| && SymbolConserved(cfg, s, sym) && Enabled(cfg, s, e) && e.Record?
    ensures SymbolConserved(cfg, Apply(cfg, s, e), sym)
  {
    RecordShape(cfg, s, e);
    CountUpdate(s.workers, e.w, Apply(cfg, s, e).workers[e.w], HoldsSymbol(cfg, sym));
    CountAppend(s.log, Recorded(cfg, s.workers[e.w]), JobSymbol(cfg, sym));
  }

  lemma SymbolByStep(cfg: Config, s: State, e: Event, sym: string)
    requires s.next <= |cfg.work| && SymbolConserved(cfg, s, sym) && Enabled(cfg, s, e)
    ensures SymbolConserved(cfg, Apply(cfg, s, e), sym)
  {
    if e.Dispatch? {
      SymbolByDispatch(cfg, s, e, sym);
    } else if e.Record? {
      SymbolByRecord(cfg, s, e, sym);
    } else {
      QuietStep(cfg, s, e);
      SameHolders(cfg, s, e, HoldsSymbol(cfg, sym));
    }
  }

  lemma ConservedByStep(cfg: Config, s: State, e: Event)
    requires Conserved(cfg, s) && Enabled(cfg, s, e)
    ensures Conserved(cfg, Apply(cfg, s, e))
  {
    var t := Apply(cfg, s, e);
    OneWorker(cfg, s, e);
    if WorkerEvent(e) {
      CountUpdate(s.workers, e.w, t.workers[e.w], Holds);
      if !e.Record? && !e.Dispatch? {
        JobKept(cfg, s, e);
      }
    }
    forall k: nat ensures JobConserved(t, k) {
      JobByStep(cfg, s, e, k);
    }
    forall sym ensures SymbolConserved(cfg, t, sym) {
      SymbolByStep(cfg, s, e, sym);
    }
  }

  ghost predicate IsRecorded(s: State, k: nat) { exists i :: 0 <= i < |s.log| && s.log[i].job == k }

  ghost predicate IsHeld(s: State, k: nat)
  {
    exists i :: 0 <= i < |s.workers| && Holds(s.workers[i]) && s.workers[i].job == k
  }

  /** What the counts mean job by job: held and recorded jobs were dispatched, no job is in
      two places, and every dispatched job is somewhere. */
  lemma JobsPlaced(cfg: Config, s: State)
    requires Conserved(cfg, s)
    ensures forall i :: 0 <= i < |s.workers| && Holds(s.workers[i]) ==> s.workers[i].job < s.next
    ensures forall i :: 0 <= i < |s.log| ==> s.log[i].job < s.next
    ensures forall i, j :: 0 <= i < j < |s.log| ==> s.log[i].job != s.log[j].job
    ensures forall i, j :: 0 <= i < |s.workers| && Holds(s.workers[i]) && 0 <= j < |s.log| ==>
              s.workers[i].job != s.log[j].job
    ensures forall k: nat :: k < s.next ==> IsRecorded(s, k) || IsHeld(s, k)
  {
    forall i | 0 <= i < |s.workers| && Holds(s.workers[i])
      ensures s.workers[i].job < s.next
      ensures forall j :: 0 <= j < |s.log| ==> s.workers[i].job != s.log[j].job
    {
      var k := s.workers[i].job;
      assert JobConserved(s, k);
      CountBounds(s.workers, HoldsJob(k));
      CountBounds(s.log, IsJob(k));
    }
    forall j | 0 <= j < |s.log| ensures s.log[j].job < s.next {
      assert JobConserved(s, s.log[j].job);
      CountBounds(s.log, IsJob(s.log[j].job));
    }
    forall i, j | 0 <= i < j < |s.log| ensures s.log[i].job != s.log[j].job {
      if s.log[i].job == s.log[j].job {
        assert JobConserved(s, s.log[j].job);
        CountTwo(s.log, i, j, IsJob(s.log[j].job));
      }
    }
    forall k: nat | k < s.next
      ensures IsRecorded(s, k) || IsHeld(s, k)
    {
      assert JobConserved(s, k);
      CountBounds(s.workers, HoldsJob(k));
      CountBounds(s.log, IsJob(k));
    }
  }

  // ----- Rows name the contract they were dispatched for -----

  ghost predicate Faithful(cfg: Config, s: State)
  {
    && (forall i :: 0 <= i < |s.log| ==>
          s.log[i].job < |cfg.work| && s.log[i].row.contract == cfg.work[s.log[i].job])
    && (forall i :: 0 <= i < |s.workers| && s.workers[i].Answered? ==>
          s.workers[i].job < |cfg.work| && s.workers[i].row.contract == cfg.work[s.workers[i].job])
    && (forall i :: 0 <= i < |s.log| && !s.log[i].asked ==> s.log[i].row.status == NotAttempted)
  }

  lemma FaithfulByStep(cfg: Config, s: State, e: Event)
    requires Faithful(cfg, s) && Enabled(cfg, s, e)
    ensures Faithful(cfg, Apply(cfg, s, e))
  {
    OneWorker(cfg, s, e);
    if e.Local? {
      ActKeepsJob(cfg, s.workers[e.w], e.act, s.clock, s.cancelled);
    }
  }

  // ----- Live counters are the counts of the log -----

  predicate Tried(e: Entry) { e.row.status != NotAttempted }

  predicate WasQuoted(e: Entry) { e.row.status == Quoted }

  function ObservedFor(sym: string): Entry -> bool
  {
    (e: Entry) => e.row.contract.symbol == sym && (e.row.status == Quoted || e.row.status == ModelOnly)
  }

  function RefusedFor(sym: string): Entry -> bool
  {
    (e: Entry) => e.row.contract.symbol == sym && e.row.status == NoEntitlement
  }

  ghost predicate Counted(cfg: Config, s: State)
  {
    && s.shared.planned == |cfg.work| && s.shared.incomplete == cfg.undiscovered
    && s.shared.attempted == Count(s.log, Tried)
    && s.shared.quoted == Count(s.log, WasQuoted)
    && s.shared.attempted + s.shared.notAttempted == |s.log|
    && (forall sym :: At(s.shared.symOK, sym) == Count(s.log, ObservedFor(sym)))
    && (forall sym :: At(s.shared.symEntitlement, sym) == Count(s.log, RefusedFor(sym)))
  }

  /** Admission touches no counter. */
  lemma AdmissionCounts(x: Shared, symbol: string, now: int, deadline: int, reserve: int, load: Option<Load>)
    ensures var y := Admission(x, symbol, now, deadline, reserve, load).0;
            && y.planned == x.planned && y.attempted == x.attempted && y.quoted == x.quoted
            && y.notAttempted == x.notAttempted && y.symOK == x.symOK && y.symEntitlement == x.symEntitlement
            && y.pending == x.pending && y.incomplete == x.incomplete
  {
  }

  lemma SignalCounts(x: Shared, now: int)
    ensures var y := PacingSignal(x, now);
            y == x.(consecutive := y.consecutive, stop := y.stop, backoffUntil := y.backoffUntil)
  {
  }

  /** Recording adds its row to exactly the counters its status names. */
  lemma RecordingCounts(x: Shared, row: Row, now: int)
    ensures var y := Recording(x, row, now).0;
            && y.planned == x.planned && y.incomplete == x.incomplete
            && y.attempted == x.attempted + (if row.status == NotAttempted then 0 else 1)
            && y.notAttempted == x.notAttempted + (if row.status == NotAttempted then 1 else 0)
            && y.quoted == x.quoted + (if row.status == Quoted then 1 else 0)
            && y.pending == x.pending + [row]
  {
    SignalCounts(x.(attempted := x.attempted + 1), now);
  }

  lemma RecordingSymbols(x: Shared, row: Row, now: int)
    ensures var y := Recording(x, row, now).0;
            && y.symOK == (if row.status == Quoted || row.status == ModelOnly then Bump(x.symOK, row.contract.symbol) else x.symOK)
            && y.symEntitlement == (if row.status == NoEntitlement then Bump(x.symEntitlement, row.contract.symbol) else x.symEntitlement)
  {
    SignalCounts(x.(attempted := x.attempted + 1), now);
  }

  lemma CountedByStep(cfg: Config, s: State, e: Event)
    requires Counted(cfg, s) && Enabled(cfg, s, e)
    ensures Counted(cfg, Apply(cfg, s, e))
  {
    match e
    case Record(w) => CountedByRecord(cfg, s, w);
    case Check(w, load) =>
      AdmissionCounts(s.shared, cfg.work[s.workers[w].job].symbol, s.workers[w].now, cfg.deadline, cfg.reserve, load);
    case Flush(_, io) => FlushKeepsCounts(s, io);
    case FinalFlush(io) => FlushKeepsCounts(s, io);
    case _ => Unlocked(cfg, s, e);
  }

  lemma FlushKeepsCounts(s: State, io: bool)
    ensures var x, y := s.shared, FlushInto(s, io).shared;
            && y.attempted == x.attempted && y.notAttempted == x.notAttempted && y.quoted == x.quoted && y.planned == x.planned
            && y.symOK == x.symOK && y.symEntitlement == x.symEntitlement && y.incomplete == x.incomplete
            && FlushInto(s, io).log == s.log
  {
  }

  lemma CountedByRecord(cfg: Config, s: State, w: nat)
    requires Counted(cfg, s) && Enabled(cfg, s, Record(w))
    ensures Counted(cfg, Apply(cfg, s, Record(w)))
  {
    var t := Apply(cfg, s, Record(w));
    var x := Recorded(cfg, s.workers[w]);
    RecordingCounts(s.shared, x.row, s.clock);
    RecordingSymbols(s.shared, x.row, s.clock);
    CountAppend(s.log, x, Tried);
    CountAppend(s.log, x, WasQuoted);
    forall sym
      ensures At(t.shared.symOK, sym) == Count(t.log, ObservedFor(sym))
      ensures At(t.shared.symEntitlement, sym) == Count(t.log, RefusedFor(sym))
    {
      assert At(s.shared.symOK, sym) == Count(s.log, ObservedFor(sym));
      assert At(s.shared.symEntitlement, sym) == Count(s.log, RefusedFor(sym));
      CountAppend(s.log, x, ObservedFor(sym));
      CountAppend(s.log, x, RefusedFor(sym));
    }
  }

  // ----- Exactly-once persistence -----

  function LoggedRows(s: State): seq<Row> { MapSeq(s.log, (e: Entry) => e.row) }

  /** Workers that found the buffer full and wait to flush it. */
  function Due(): Phase -> bool { (p: Phase) => p.FlushDue? }

  /** What the store holds, then what is buffered, is what was recorded, in lock order. */
  ghost predicate Persisting(s: State)
  {
    && s.persisted + s.shared.pending == LoggedRows(s)
    && (s.closed && s.shared.stop != Some(StoreError) ==> s.shared.pending == [])
    && (s.shared.stop != Some(StoreError) ==>
          |s.shared.pending| <= ROW_FLUSH_SIZE - 1 + Count(s.workers, Due()))
  }

  lemma PersistingByStep(cfg: Config, s: State, e: Event)
    requires Persisting(s) && Enabled(cfg, s, e)
    ensures Persisting(Apply(cfg, s, e))
  {
    var t := Apply(cfg, s, e);
    OneWorker(cfg, s, e);
    if WorkerEvent(e) {
      CountUpdate(s.workers, e.w, t.workers[e.w], Due());
    }
    match e
    case Record(w) => PersistingByRecord(cfg, s, w);
    case Check(w, load) =>
      AdmissionCounts(s.shared, cfg.work[s.workers[w].job].symbol, s.workers[w].now, cfg.deadline, cfg.reserve, load);
      StopClimbs(cfg, s, e);
    case Flush(_, io) => PersistingByFlush(s, io);
    case FinalFlush(io) => PersistingByFlush(s, io);
    case _ => Unlocked(cfg, s, e);
  }

  lemma PersistingByRecord(cfg: Config, s: State, w: nat)
    requires Persisting(s) && Enabled(cfg, s, Record(w))
    ensures Persisting(Apply(cfg, s, Record(w)))
  {
    var t, x := Apply(cfg, s, Record(w)), Recorded(cfg, s.workers[w]);
    CountUpdate(s.workers, w, t.workers[w], Due());
    RecordingCounts(s.shared, x.row, s.clock);
    RecordingClimbs(s.shared, x.row, s.clock);
    MapAppend(s.log, x, (e: Entry) => e.row);
    assert s.persisted + (s.shared.pending + [x.row]) == (s.persisted + s.shared.pending) + [x.row];
  }

  /** A flush moves rows from the buffer to the store and loses none. */
  lemma PersistingByFlush(s: State, io: bool)
    ensures var t := FlushInto(s, io);
            && t.persisted + t.shared.pending == s.persisted + s.shared.pending
            && (t.shared.stop != Some(StoreError) ==> t.shared.pending == [] && s.shared.stop != Some(StoreError))
            && t.log == s.log
  {
    assert s.persisted + s.shared.pending + [] == s.persisted + s.shared.pending;
  }

  // ----- The stop reason climbs, and admission ends with it -----

  function StopLevel(stop: Option<Reason>): nat
  {
    if stop.None? then 0 else if stop.value == StoreError then 2 else 1
  }

  /** Only these reasons ever stop a whole run. */
  predicate RunStop(stop: Option<Reason>)
  {
    stop.None? || stop.value in {Deadline, PacingStop, GatewayStop, StoreError}
  }

  predicate Climbs(a: Option<Reason>, b: Option<Reason>)
  {
    a == b || (RunStop(b) && StopLevel(a) < StopLevel(b))
  }

  lemma AdmissionClimbs(x: Shared, symbol: string, now: int, deadline: int, reserve: int, load: Option<Load>)
    ensures Climbs(x.stop, Admission(x, symbol, now, deadline, reserve, load).0.stop)
  {
  }

  lemma RecordingClimbs(x: Shared, row: Row, now: int)
    ensures Climbs(x.stop, Recording(x, row, now).0.stop)
  {
  }

  /** The stop reason only climbs: nothing, then deadline, pacing or gateway, then store error. */
  lemma StopClimbs(cfg: Config, s: State, e: Event)
    requires Enabled(cfg, s, e)
    ensures Climbs(s.shared.stop, Apply(cfg, s, e).shared.stop)
  {
    match e
    case Record(w) => RecordingClimbs(s.shared, RowOf(cfg, s.workers[w]), s.clock);
    case Check(w, load) =>
      AdmissionClimbs(s.shared, cfg.work[s.workers[w].job].symbol, s.workers[w].now, cfg.deadline, cfg.reserve, load);
    case Flush(_, _) =>
    case FinalFlush(_) =>
    case _ => Unlocked(cfg, s, e);
  }

  /** A stopped run refuses every check. */
  lemma StoppedRefuses(cfg: Config, s: State, w: nat, load: Option<Load>)
    requires Enabled(cfg, s, Check(w, load)) && s.shared.stop.Some?
    ensures Apply(cfg, s, Check(w, load)) == Move(s, w, Turned(s.workers[w].job, s.shared.stop.value))
  {
  }

  /** After the stop, rows counted as attempted come only out of what was in flight. */
  lemma StoppedDrains(cfg: Config, s: State, e: Event)
    requires Enabled(cfg, s, e) && s.shared.stop.Some?
    ensures var t := Apply(cfg, s, e);
            t.shared.attempted + Count(t.workers, InFlight) <= s.shared.attempted + Count(s.workers, InFlight)
  {
    var t := Apply(cfg, s, e);
    OneWorker(cfg, s, e);
    if WorkerEvent(e) {
      CountUpdate(s.workers, e.w, t.workers[e.w], InFlight);
    }
    match e
    case Record(w) =>
      RecordingCounts(s.shared, RowOf(cfg, s.workers[w]), s.clock);
    case Check(w, load) => StoppedRefuses(cfg, s, w, load);
    case Local(w, act) => ActKeepsJob(cfg, s.workers[w], act, s.clock, s.cancelled);
    case _ =>
  }

  /** The worker that stops the run is not itself in flight any more. */
  lemma StopperLeaves(cfg: Config, s: State, e: Event)
    requires Enabled(cfg, s, e) && WorkerEvent(e)
    requires s.shared.stop.None? && Apply(cfg, s, e).shared.stop.Some?
    ensures Count(Apply(cfg, s, e).workers, InFlight) <= |s.workers| - 1
  {
    var t := Apply(cfg, s, e);
    OneWorker(cfg, s, e);
    assert !InFlight(t.workers[e.w]);
    CountBounds(t.workers, InFlight);
  }

  // ----- Entitlement give-up -----

  /** Quotes in flight for one symbol. */
  function FlyingFor(cfg: Config, sym: string): Phase -> bool
  {
    (p: Phase) => InFlight(p) && p.job < |cfg.work| && cfg.work[p.job].symbol == sym
  }

  ghost predicate EntitlementBounded(cfg: Config, s: State)
  {
    && |s.workers| == Pool(cfg)
    && forall sym :: At(s.shared.symOK, sym) == 0 ==>
        At(s.shared.symEntitlement, sym) + Count(s.workers, FlyingFor(cfg, sym)) <= ENTITLEMENT_GIVE_UP - 1 + Pool(cfg)
  }

  lemma EntitlementForSymbol(cfg: Config, s: State, e: Event, sym: string)
    requires EntitlementBounded(cfg, s) && Faithful(cfg, s) && Enabled(cfg, s, e)
    requires At(Apply(cfg, s, e).shared.symOK, sym) == 0
    ensures At(Apply(cfg, s, e).shared.symEntitlement, sym) + Count(Apply(cfg, s, e).workers, FlyingFor(cfg, sym))
            <= ENTITLEMENT_GIVE_UP - 1 + Pool(cfg)
  {
    var t := Apply(cfg, s, e);
    OneWorker(cfg, s, e);
    match e
    case Record(w) => EntitlementByRecord(cfg, s, w, sym);
    case Check(w, load) => EntitlementByCheck(cfg, s, w, load, sym);
    case Flush(w, _) => CountUpdate(s.workers, w, t.workers[w], FlyingFor(cfg, sym));
    case FinalFlush(_) =>
    case _ =>
      Unlocked(cfg, s, e);
      if WorkerEvent(e) {
        FlyingUnlocked(cfg, s, e, sym);
      }
  }

  /** Outside the lock nothing new is in flight. */
  lemma FlyingUnlocked(cfg: Config, s: State, e: Event, sym: string)
    requires Enabled(cfg, s, e) && WorkerEvent(e) && !e.Check? && !e.Record? && !e.Flush?
    ensures Count(Apply(cfg, s, e).workers, FlyingFor(cfg, sym)) <= Count(s.workers, FlyingFor(cfg, sym))
  {
    var t := Apply(cfg, s, e);
    OneWorker(cfg, s, e);
    CountUpdate(s.workers, e.w, t.workers[e.w], FlyingFor(cfg, sym));
  }

  /** A recorded refusal leaves flight as it joins the refusals. */
  lemma EntitlementByRecord(cfg: Config, s: State, w: nat, sym: string)
    requires EntitlementBounded(cfg, s) && Faithful(cfg, s) && Enabled(cfg, s, Record(w))
    requires At(Apply(cfg, s, Record(w)).shared.symOK, sym) == 0
    ensures At(Apply(cfg, s, Record(w)).shared.symEntitlement, sym)
            + Count(Apply(cfg, s, Record(w)).workers, FlyingFor(cfg, sym)) <= ENTITLEMENT_GIVE_UP - 1 + Pool(cfg)
  {
    var t, row := Apply(cfg, s, Record(w)), RowOf(cfg, s.workers[w]);
    RecordingSymbols(s.shared, row, s.clock);
    assert t.workers == s.workers[w := t.workers[w]];
    CountUpdate(s.workers, w, t.workers[w], FlyingFor(cfg, sym));
    assert At(s.shared.symOK, sym) == 0;
  }

  /** Only a check admits, and it admits only below the give-up threshold. */
  lemma EntitlementByCheck(cfg: Config, s: State, w: nat, load: Option<Load>, sym: string)
    requires EntitlementBounded(cfg, s) && Enabled(cfg, s, Check(w, load)) && At(s.shared.symOK, sym) == 0
    ensures At(s.shared.symEntitlement, sym) + Count(Apply(cfg, s, Check(w, load)).workers, FlyingFor(cfg, sym))
            <= ENTITLEMENT_GIVE_UP - 1 + Pool(cfg)
    ensures Apply(cfg, s, Check(w, load)).shared.symEntitlement == s.shared.symEntitlement
    ensures Apply(cfg, s, Check(w, load)).shared.symOK == s.shared.symOK
  {
    var t := Apply(cfg, s, Check(w, load));
    AdmissionCounts(s.shared, cfg.work[s.workers[w].job].symbol, s.workers[w].now, cfg.deadline, cfg.reserve, load);
    assert t.workers == s.workers[w := t.workers[w]];
    CountUpdate(s.workers, w, t.workers[w], FlyingFor(cfg, sym));
    CountBounds(t.workers, FlyingFor(cfg, sym));
  }

  lemma EntitlementByStep(cfg: Config, s: State, e: Event)
    requires EntitlementBounded(cfg, s) && Faithful(cfg, s) && Enabled(cfg, s, e)
    ensures EntitlementBounded(cfg, Apply(cfg, s, e))
  {
    var t := Apply(cfg, s, e);
    OneWorker(cfg, s, e);
    forall sym | At(t.shared.symOK, sym) == 0
      ensures At(t.shared.symEntitlement, sym) + Count(t.workers, FlyingFor(cfg, sym)) <= ENTITLEMENT_GIVE_UP - 1 + Pool(cfg)
    {
      EntitlementForSymbol(cfg, s, e, sym);
    }
  }

  // ----- Pacing -----

  /** Consecutive signals at the end of the history. */
  function Streak(marks: seq<Mark>): nat
  {
    if marks == [] || marks[|marks| - 1].Clear? then 0 else 1 + Streak(marks[..|marks| - 1])
  }

  /** 5 s, 10 s, 20 s, 40 s. */
  function PauseAfter(streak: nat): int
    requires 1 <= streak <= 4
  {
    [5, 10, 20, 40][streak - 1] * 1_000_000_000
  }

  /** When the pauses of a history end, computed without the cap. */
  function PausedUntil(marks: seq<Mark>, start: int): int
  {
    if marks == [] then start
    else
      var before := PausedUntil(marks[..|marks| - 1], start);
      var m := marks[|marks| - 1];
      if m.Clear? || Streak(marks) >= MAX_PACING_SIGNALS then before
      else Max(before, m.at + PauseAfter(Streak(marks)))
  }

  ghost predicate PacingKept(s: State, start: int)
  {
    && s.shared.consecutive == Streak(s.marks)
    && s.shared.backoffUntil == PausedUntil(s.marks, start)
    && (s.shared.consecutive >= MAX_PACING_SIGNALS ==> s.shared.stop.Some?)
  }

  lemma CapNeverBinds(streak: nat)
    requires 1 <= streak < MAX_PACING_SIGNALS
    ensures Min(Doubled(PACING_BACKOFF_BASE, streak - 1), PACING_BACKOFF_MAX) == PauseAfter(streak)
    ensures PauseAfter(streak) < PACING_BACKOFF_MAX
  {
    assert Doubled(PACING_BACKOFF_BASE, 3) == 2 * Doubled(PACING_BACKOFF_BASE, 2);
    assert Doubled(PACING_BACKOFF_BASE, 2) == 2 * Doubled(PACING_BACKOFF_BASE, 1);
    assert Doubled(PACING_BACKOFF_BASE, 1) == 2 * Doubled(PACING_BACKOFF_BASE, 0);
  }

  /** One signal moves the streak and the pause exactly as the history says. */
  lemma PacingBySignal(x: Shared, marks: seq<Mark>, now: int, start: int)
    requires x.consecutive == Streak(marks) && x.backoffUntil == PausedUntil(marks, start)
    ensures var y, m := PacingSignal(x, now), marks + [Signal(now)];
            && y.consecutive == Streak(m) && y.backoffUntil == PausedUntil(m, start)
            && (y.consecutive >= MAX_PACING_SIGNALS ==> y.stop.Some?)
  {
    assert (marks + [Signal(now)])[..|marks|] == marks;
    if x.consecutive + 1 < MAX_PACING_SIGNALS {
      CapNeverBinds(x.consecutive + 1);
    }
  }

  lemma PacingByClear(marks: seq<Mark>, start: int)
    ensures Streak(marks + [Clear]) == 0 && PausedUntil(marks + [Clear], start) == PausedUntil(marks, start)
  {
    assert (marks + [Clear])[..|marks|] == marks;
  }

  /** Recording signals, clears or leaves the streak by the row's status. */
  lemma RecordingPacing(x: Shared, row: Row, now: int)
    ensures var y, z, m := Recording(x, row, now).0, PacingSignal(x, now), MarksOf(row.status, now);
            && (m == [Signal(now)] ==>
                  y.consecutive == z.consecutive && y.backoffUntil == z.backoffUntil && (z.stop.Some? ==> y.stop.Some?))
            && (m == [Clear] ==> y.consecutive == 0 && y.backoffUntil == x.backoffUntil)
            && (m == [] ==> y.consecutive == x.consecutive && y.backoffUntil == x.backoffUntil && (x.stop.Some? ==> y.stop.Some?))
            && (m == [] || m == [Clear] || m == [Signal(now)])
  {
  }

  lemma AdmissionPacing(x: Shared, symbol: string, now: int, deadline: int, reserve: int, load: Option<Load>)
    ensures var (y, v) := Admission(x, symbol, now, deadline, reserve, load);
            var z := PacingSignal(x, now);
            && (v.Retry? ==>
                  y.consecutive == z.consecutive && y.backoffUntil == z.backoffUntil && (z.stop.Some? ==> y.stop.Some?))
            && (!v.Retry? ==> y.consecutive == x.consecutive && y.backoffUntil == x.backoffUntil && (x.stop.Some? ==> y.stop.Some?))
  {
  }

  lemma PacingByStep(cfg: Config, s: State, e: Event, start: int)
    requires PacingKept(s, start) && Enabled(cfg, s, e)
    ensures PacingKept(Apply(cfg, s, e), start)
  {
    match e
    case Record(w) =>
      RecordingPacing(s.shared, RowOf(cfg, s.workers[w]), s.clock);
      PacingBySignal(s.shared, s.marks, s.clock, start);
      PacingByClear(s.marks, start);
      assert s.marks + [] == s.marks;
    case Check(w, load) =>
      AdmissionPacing(s.shared, cfg.work[s.workers[w].job].symbol, s.workers[w].now, cfg.deadline, cfg.reserve, load);
      PacingBySignal(s.shared, s.marks, s.workers[w].now, start);
    case Flush(_, _) =>
    case FinalFlush(_) =>
    case _ => Unlocked(cfg, s, e);
  }

  /** What an admitted contract's own clock reading satisfied. */
  lemma AdmissionDiscipline(cfg: Config, s: State, e: Event)
    requires Enabled(cfg, s, e) && WorkerEvent(e)
    requires InFlight(Apply(cfg, s, e).workers[e.w]) && !InFlight(s.workers[e.w])
    ensures e.Check? && s.workers[e.w].Checking?
    ensures var now, x := s.workers[e.w].now, s.shared;
            && x.stop.None? && x.backoffUntil <= now < cfg.deadline
            && !GivenUp(x, cfg.work[s.workers[e.w].job].symbol)
            && (e.load.Some? ==> e.load.value.lastPacing <= x.lastPacingSeen)
            && (e.load.Some? && e.load.value.capacity > 0 ==>
                  e.load.value.capacity - e.load.value.held > Reserve(cfg.reserve))
  {
  }

  lemma PacingClocksClimb(cfg: Config, s: State, e: Event)
    requires Enabled(cfg, s, e)
    ensures var t := Apply(cfg, s, e);
            s.shared.backoffUntil <= t.shared.backoffUntil && s.shared.lastPacingSeen <= t.shared.lastPacingSeen
  {
    match e
    case Record(w) =>
      RecordingPacing(s.shared, RowOf(cfg, s.workers[w]), s.clock);
      RecordingSees(s.shared, RowOf(cfg, s.workers[w]), s.clock);
    case Check(w, load) =>
      AdmissionPacing(s.shared, cfg.work[s.workers[w].job].symbol, s.workers[w].now, cfg.deadline, cfg.reserve, load);
      AdmissionSees(s.shared, cfg.work[s.workers[w].job].symbol, s.workers[w].now, cfg.deadline, cfg.reserve, load);
    case Flush(_, _) =>
    case FinalFlush(_) =>
    case _ => Unlocked(cfg, s, e);
  }

  lemma RecordingSees(x: Shared, row: Row, now: int)
    ensures Recording(x, row, now).0.lastPacingSeen == x.lastPacingSeen
  {
    SignalCounts(x.(attempted := x.attempted + 1), now);
  }

  /** A broker pacing time is acted on once, and only when it is newer than the last. */
  lemma AdmissionSees(x: Shared, symbol: string, now: int, deadline: int, reserve: int, load: Option<Load>)
    ensures var (y, v) := Admission(x, symbol, now, deadline, reserve, load);
            if v.Retry? then load.Some? && y.lastPacingSeen == load.value.lastPacing > x.lastPacingSeen
            else y.lastPacingSeen == x.lastPacingSeen
  {
    if load.Some? {
      SignalCounts(x.(lastPacingSeen := load.value.lastPacing), now);
    }
  }

  // ----- Everything together -----

  ghost predicate Inv(cfg: Config, s: State, start: int)
  {
    && Conserved(cfg, s)
    && Faithful(cfg, s)
    && Counted(cfg, s)
    && Persisting(s)
    && RunStop(s.shared.stop)
    && (s.closed ==> Joined(cfg, s))
    && EntitlementBounded(cfg, s)
    && PacingKept(s, start)
  }

  lemma InvInitially(cfg: Config, s: State)
    requires Initial(cfg, s)
    ensures Inv(cfg, s, s.shared.backoffUntil)
  {
    ConservedInitially(cfg, s);
    forall sym ensures Count(s.workers, FlyingFor(cfg, sym)) == 0 {
      CountBounds(s.workers, FlyingFor(cfg, sym));
    }
  }

  lemma InvByStep(cfg: Config, s: State, e: Event, start: int)
    requires Inv(cfg, s, start) && Enabled(cfg, s, e)
    ensures Inv(cfg, Apply(cfg, s, e), start)
  {
    ConservedByStep(cfg, s, e);
    FaithfulByStep(cfg, s, e);
    CountedByStep(cfg, s, e);
    PersistingByStep(cfg, s, e);
    StopClimbs(cfg, s, e);
    EntitlementByStep(cfg, s, e);
    PacingByStep(cfg, s, e, start);
  }

  /** The invariant holds after every sequence of events. */
  lemma {:induction false} InvAlways(cfg: Config, s: State, es: seq<Event>, start: int)
    requires Inv(cfg, s, start) && Possible(cfg, s, es)
    ensures Inv(cfg, After(cfg, s, es), start)
    decreases |es|
  {
    if es != [] {
      InvByStep(cfg, s, es[0], start);
      InvAlways(cfg, Apply(cfg, s, es[0]), es[1..], start);
    }
  }
}
