/** The quoting phase as a step relation: a feeder, a pool of workers, the broker, the clock
    and the store. Every interleaving of a run is a sequence of events. */
module Recorder {
  import opened Sequences
  import opened Contracts
  import opened Execution

  /** What quoting is given: the ordered work, the runner's overrides, the deadline and whether
      discovery had to skip a symbol. */
  datatype Config = Config(work: seq<Contract>, lines: int, reserve: int, deadline: int, undiscovered: bool)

  function Lines(cfg: Config): nat { if cfg.lines <= 0 then MAX_LINES else cfg.lines }

  /** The pool never outnumbers the work and is never empty. */
  function Pool(cfg: Config): nat { Min(Lines(cfg), Max(|cfg.work|, 1)) }

  /** Where one worker is in its loop. A job is an index into the work order. */
  datatype Phase =
    | Idle
    | Admitting(job: nat, since: int)     // at the top of the admission loop
    | Passed(job: nat, since: int)        // saw the context alive
    | Checking(job: nat, now: int)        // read the clock, waits for the lock
    | Sleeping(job: nat, until: int)
    | Turned(job: nat, reason: Reason)    // refused by admission, not yet recorded
    | Admitted(job: nat)                  // may open a line, has not
    | Open(job: nat)                      // line open
    | Returned(job: nat, answer: Answer)  // the broker replied
    | Answered(job: nat, row: Row)        // classified, not yet recorded
    | FlushDue                            // recorded, and found the buffer full

  predicate Holds(p: Phase) { !p.Idle? && !p.FlushDue? }

  /** A quote was granted and its row is not recorded yet. */
  predicate InFlight(p: Phase) { p.Admitted? || p.Open? || p.Returned? || p.Answered? }

  /** One recorded row; asked says whether the broker was asked for it. */
  datatype Entry = Entry(job: nat, row: Row, asked: bool)

  /** History of the pacing streak: a signal at a time, or an observation that clears it. */
  datatype Mark = Signal(at: int) | Clear

  datatype State = State(
    shared: Shared,
    workers: seq<Phase>,
    next: nat,             // the first job not yet handed to a worker
    clock: int,
    cancelled: bool,
    persisted: seq<Row>,   // rows the store holds for this run, in insertion order
    closed: bool,          // workers joined and the final flush done
    log: seq<Entry>,       // every row recorded, in lock order
    marks: seq<Mark>)

  /** What a worker does on its own, outside the lock. */
  datatype Act =
    | SeeCancelled
    | SeeAlive
    | ReadClock
    | Wake
    | SleepCut
    | OpenLine
    | Reply(answer: Answer)
    | Judge

  datatype Event =
    | Dispatch(w: nat)
    | Local(w: nat, act: Act)
    | Check(w: nat, load: Option<Load>)
    | Record(w: nat)
    | Flush(w: nat, io: bool)
    | FinalFlush(io: bool)
    | Tick(t: int)
    | Cancel

  /** The clock, the caller's context and nothing else. */
  predicate Environment(e: Event) { e.Tick? || e.Cancel? }

  predicate Joined(cfg: Config, s: State)
  {
    s.next == |cfg.work| && forall i :: 0 <= i < |s.workers| ==> s.workers[i] == Idle
  }

  /** The store's uniqueness constraint over the rows of one run. */
  ghost predicate KeysUnique(rows: seq<Row>)
  {
    forall i, j :: 0 <= i < j < |rows| ==> KeyOf(rows[i].contract) != KeyOf(rows[j].contract)
  }

  predicate ActEnabled(cfg: Config, p: Phase, act: Act, clock: int, cancelled: bool)
  {
    match act
    case SeeCancelled => p.Admitting? && cancelled
    case SeeAlive => p.Admitting? && !cancelled
    case ReadClock => p.Passed?
    case Wake => p.Sleeping? && clock >= p.until
    case SleepCut => p.Sleeping? && cancelled
    case OpenLine => p.Admitted?
    case Reply(_) => p.Admitted? || p.Open?
    case Judge => p.Returned? && p.job < |cfg.work|
  }

  /** Where an act takes a worker. */
  function ActPhase(cfg: Config, p: Phase, act: Act, clock: int, cancelled: bool): Phase
    requires ActEnabled(cfg, p, act, clock, cancelled)
  {
    match act
    case SeeCancelled => Turned(p.job, Cancelled)
    case SeeAlive => Passed(p.job, p.since)
    case ReadClock => Checking(p.job, clock)
    case Wake => Admitting(p.job, p.until)
    case SleepCut => Turned(p.job, Cancelled)
    case OpenLine => Open(p.job)
    case Reply(answer) => Returned(p.job, answer)
    case Judge => Answered(p.job, Classify(cfg.work[p.job], p.answer, cancelled))
  }

  predicate Recordable(cfg: Config, p: Phase)
  {
    p.Answered? || (p.Turned? && p.job < |cfg.work|)
  }

  ghost predicate Enabled(cfg: Config, s: State, e: Event)
  {
    match e
    case Tick(t) => t >= s.clock
    case Cancel => true
    case FinalFlush(_) => !s.closed && Joined(cfg, s)
    case Dispatch(w) => !s.closed && w < |s.workers| && s.workers[w].Idle? && s.next < |cfg.work|
    case Local(w, act) => !s.closed && w < |s.workers| && ActEnabled(cfg, s.workers[w], act, s.clock, s.cancelled)
    case Check(w, _) => !s.closed && w < |s.workers| && s.workers[w].Checking? && s.workers[w].job < |cfg.work|
    case Record(w) => !s.closed && w < |s.workers| && Recordable(cfg, s.workers[w])
    case Flush(w, _) => !s.closed && w < |s.workers| && s.workers[w].FlushDue?
  }

  function Move(s: State, w: nat, p: Phase): State
    requires w < |s.workers|
  {
    s.(workers := s.workers[w := p])
  }

  /** Where a worker goes after one locked pass of admission. */
  function AfterCheck(job: nat, now: int, v: Verdict): Phase
  {
    match v
    case Go => Admitted(job)
    case Refuse(r) => Turned(job, r)
    case Retry => Admitting(job, now)
    case Wait(d) => Sleeping(job, now + d)
  }

  /** The row a worker is about to record. */
  function RowOf(cfg: Config, p: Phase): Row
    requires Recordable(cfg, p)
  {
    if p.Answered? then p.row else RefusedRow(cfg.work[p.job], p.reason)
  }

  /** What a recorded status does to the pacing streak. */
  function MarksOf(status: Status, now: int): seq<Mark>
  {
    match status
    case Paced => [Signal(now)]
    case NotAttempted => []
    case GatewayLost => []
    case NoEntitlement => []
    case _ => [Clear]
  }

  /** The store keeps a batch when the medium works and no key repeats. */
  ghost predicate Stores(s: State, io: bool)
  {
    io && KeysUnique(s.persisted + s.shared.pending)
  }

  ghost function FlushInto(s: State, io: bool): State
  {
    var wrote := FlushWrites(s.shared) && Stores(s, io);
    s.(shared := Flushing(s.shared, Stores(s, io)),
       persisted := if wrote then s.persisted + s.shared.pending else s.persisted)
  }

  function RecordInto(cfg: Config, s: State, w: nat): State
    requires w < |s.workers| && Recordable(cfg, s.workers[w])
  {
    var p := s.workers[w];
    var row := RowOf(cfg, p);
    var (x, full) := Recording(s.shared, row, s.clock);
    Move(s, w, if full then FlushDue else Idle)
      .(shared := x,
        log := s.log + [Entry(p.job, row, p.Answered?)],
        marks := s.marks + MarksOf(row.status, s.clock))
  }

  function CheckInto(cfg: Config, s: State, w: nat, load: Option<Load>): State
    requires w < |s.workers| && s.workers[w].Checking? && s.workers[w].job < |cfg.work|
  {
    var p := s.workers[w];
    var (x, v) := Admission(s.shared, cfg.work[p.job].symbol, p.now, cfg.deadline, cfg.reserve, load);
    Move(s, w, AfterCheck(p.job, p.now, v))
      .(shared := x, marks := if v.Retry? then s.marks + [Signal(p.now)] else s.marks)
  }

  ghost function Apply(cfg: Config, s: State, e: Event): State
    requires Enabled(cfg, s, e)
  {
    match e
    case Dispatch(w) => Move(s, w, Admitting(s.next, s.clock)).(next := s.next + 1)
    case Local(w, act) => Move(s, w, ActPhase(cfg, s.workers[w], act, s.clock, s.cancelled))
    case Check(w, load) => CheckInto(cfg, s, w, load)
    case Record(w) => RecordInto(cfg, s, w)
    case Flush(w, io) => Move(FlushInto(s, io), w, Idle)
    case FinalFlush(io) => FlushInto(s, io).(closed := true)
    case Tick(t) => s.(clock := t)
    case Cancel => s.(cancelled := true)
  }

  /** How quoting begins: discovery may already have lost the store or some symbols. */
  predicate Initial(cfg: Config, s: State)
  {
    && s.shared.pending == [] && s.shared.planned == |cfg.work|
    && s.shared.attempted == 0 && s.shared.quoted == 0 && s.shared.notAttempted == 0
    && s.shared.incomplete == cfg.undiscovered
    && (s.shared.stop == None || s.shared.stop == Some(StoreError))
    && s.shared.consecutive == 0 && s.shared.symOK == map[] && s.shared.symEntitlement == map[]
    && s.shared.backoffUntil == ZERO_TIME <= s.clock
    && s.workers == seq(Pool(cfg), _ => Idle)
    && s.next == 0 && s.persisted == [] && !s.closed && s.log == [] && s.marks == []
  }

  /** es can happen in order from s. */
  ghost predicate Possible(cfg: Config, s: State, es: seq<Event>)
    decreases |es|
  {
    es == [] || (Enabled(cfg, s, es[0]) && Possible(cfg, Apply(cfg, s, es[0]), es[1..]))
  }

  ghost function After(cfg: Config, s: State, es: seq<Event>): State
    requires Possible(cfg, s, es)
    decreases |es|
  {
    if es == [] then s else After(cfg, Apply(cfg, s, es[0]), es[1..])
  }

  /** Running es and then fs is running their concatenation. */
  lemma {:induction false} AfterConcat(cfg: Config, s: State, es: seq<Event>, fs: seq<Event>)
    requires Possible(cfg, s, es) && Possible(cfg, After(cfg, s, es), fs)
    ensures Possible(cfg, s, es + fs)
    ensures After(cfg, s, es + fs) == After(cfg, After(cfg, s, es), fs)
    decreases |es|
  {
    if es == [] {
      assert es + fs == fs;
    } else {
      assert (es + fs)[1..] == es[1..] + fs;
      AfterConcat(cfg, Apply(cfg, s, es[0]), es[1..], fs);
    }
  }
}
