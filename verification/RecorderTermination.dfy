/** Every run ends: a bound on the program's own steps, and no deadlock on the way. */
module RecorderTermination {
  import opened Sequences
  import opened Contracts
  import opened Execution
  import opened Recorder
  import opened RecorderInvariants
  import opened RecorderRuns

  // ----- The measure -----

  /** How far a phase is from its row. The admission loop weighs the same throughout. */
  function PhaseWeight(p: Phase): nat
  {
    match p
    case Idle => 0
    case FlushDue => 1
    case Turned(_, _) => 2
    case Answered(_, _) => 2
    case Returned(_, _) => 3
    case Open(_) => 4
    case Admitted(_) => 5
    case _ => 6
  }

  function JobsLeft(cfg: Config, s: State): nat
    requires s.next <= |cfg.work|
  {
    7 * (|cfg.work| - s.next) + Sum(s.workers, PhaseWeight) + (if s.closed then 0 else 1)
  }

  /** Pacing signals left before the run stops. */
  function SignalsLeft(s: State): nat
  {
    if s.shared.consecutive >= MAX_PACING_SIGNALS then 0 else MAX_PACING_SIGNALS - s.shared.consecutive
  }

  function TimeLeft(cfg: Config, t: int): nat { if t >= cfg.deadline then 0 else cfg.deadline - t }

  /** How long a worker can still go round the admission loop. */
  function LoopWeight(cfg: Config): Phase -> nat
  {
    (p: Phase) =>
      match p
      case Admitting(_, since) => 5 * TimeLeft(cfg, since) + 3
      case Passed(_, since) => 5 * TimeLeft(cfg, since) + 2
      case Checking(_, now) => 5 * TimeLeft(cfg, now) + 1
      case Sleeping(_, until) => 5 * TimeLeft(cfg, until) + 4
      case _ => 0
  }

  function LoopLeft(cfg: Config, s: State): nat { Sum(s.workers, LoopWeight(cfg)) }

  /** Clock readings lie between the start of quoting and the present. */
  ghost predicate Timely(cfg: Config, s: State, began: int)
  {
    && began <= s.clock
    && forall i :: 0 <= i < |s.workers| ==>
        match s.workers[i]
        case Admitting(_, since) => began <= since <= s.clock
        case Passed(_, since) => began <= since <= s.clock
        case Checking(_, now) => began <= now <= s.clock
        case Sleeping(_, until) => began <= until
        case _ => true
  }

  lemma TimelyByStep(cfg: Config, s: State, e: Event, began: int)
    requires Timely(cfg, s, began) && Enabled(cfg, s, e)
    ensures Timely(cfg, Apply(cfg, s, e), began)
  {
    OneWorker(cfg, s, e);
    if e.Check? {
      var p := s.workers[e.w];
      WaitsPositive(s.shared, cfg.work[p.job].symbol, p.now, cfg.deadline, cfg.reserve, e.load);
    }
  }

  /** A wait is positive and ends at the deadline at the latest. */
  lemma WaitsPositive(x: Shared, symbol: string, now: int, deadline: int, reserve: int, load: Option<Load>)
    ensures var v := Admission(x, symbol, now, deadline, reserve, load).1;
            v.Wait? ==> 0 < v.pause <= deadline - now
  {
  }

  /** The size of one round of the outer components. */
  function Round(cfg: Config, began: int): nat { Pool(cfg) * (5 * TimeLeft(cfg, began) + 4) + 1 }

  lemma LoopBounded(cfg: Config, s: State, began: int)
    requires Timely(cfg, s, began) && |s.workers| == Pool(cfg)
    ensures LoopLeft(cfg, s) < Round(cfg, began)
  {
    SumBound(s.workers, LoopWeight(cfg), 5 * TimeLeft(cfg, began) + 4);
  }

  /** One number for the lexicographic triple, when b is at most 5 and c below r. */
  function Budget(a: nat, b: nat, c: nat, r: nat): nat { (6 * a + b) * r + c }

  /** Steps the program itself can still take. */
  function StepsLeft(cfg: Config, s: State, began: int): nat
    requires s.next <= |cfg.work|
  {
    Budget(JobsLeft(cfg, s), SignalsLeft(s), LoopLeft(cfg, s), Round(cfg, began))
  }

  // ----- Each program step lowers the measure -----

  /** What a program step does to the three components. */
  ghost predicate Lowers(cfg: Config, s: State, t: State)
    requires s.next <= |cfg.work| && t.next <= |cfg.work|
  {
    || JobsLeft(cfg, t) < JobsLeft(cfg, s)
    || (JobsLeft(cfg, t) == JobsLeft(cfg, s) && SignalsLeft(t) < SignalsLeft(s))
    || (JobsLeft(cfg, t) == JobsLeft(cfg, s) && SignalsLeft(t) == SignalsLeft(s) && LoopLeft(cfg, t) < LoopLeft(cfg, s))
  }

  lemma LowersLocal(cfg: Config, s: State, w: nat, act: Act, began: int)
    requires Timely(cfg, s, began) && s.next <= |cfg.work| && Enabled(cfg, s, Local(w, act))
    ensures Lowers(cfg, s, Apply(cfg, s, Local(w, act)))
  {
    var t := Apply(cfg, s, Local(w, act));
    SumUpdate(s.workers, w, t.workers[w], PhaseWeight);
    SumUpdate(s.workers, w, t.workers[w], LoopWeight(cfg));
  }

  lemma LowersCheck(cfg: Config, s: State, w: nat, load: Option<Load>)
    requires s.next <= |cfg.work| && Enabled(cfg, s, Check(w, load))
    requires s.shared.consecutive >= MAX_PACING_SIGNALS ==> s.shared.stop.Some?
    ensures Lowers(cfg, s, Apply(cfg, s, Check(w, load)))
  {
    var t := Apply(cfg, s, Check(w, load));
    var p, x, sym := s.workers[w], s.shared, cfg.work[s.workers[w].job].symbol;
    assert t.workers == s.workers[w := t.workers[w]];
    SumUpdate(s.workers, w, t.workers[w], PhaseWeight);
    SumUpdate(s.workers, w, t.workers[w], LoopWeight(cfg));
    WaitsPositive(x, sym, p.now, cfg.deadline, cfg.reserve, load);
    AdmissionPacing(x, sym, p.now, cfg.deadline, cfg.reserve, load);
    CheckRetries(x, sym, p.now, cfg.deadline, cfg.reserve, load);
  }

  /** Going round again at once spends a pacing signal. */
  lemma CheckRetries(x: Shared, symbol: string, now: int, deadline: int, reserve: int, load: Option<Load>)
    ensures var (y, v) := Admission(x, symbol, now, deadline, reserve, load);
            v.Retry? ==> x.stop.None? && y.consecutive == x.consecutive + 1
  {
  }

  lemma LowersOther(cfg: Config, s: State, e: Event)
    requires s.next <= |cfg.work| && Enabled(cfg, s, e)
    requires e.Dispatch? || e.Record? || e.Flush? || e.FinalFlush?
    ensures Apply(cfg, s, e).next <= |cfg.work|
    ensures JobsLeft(cfg, Apply(cfg, s, e)) < JobsLeft(cfg, s)
  {
    var t := Apply(cfg, s, e);
    OneWorker(cfg, s, e);
    if WorkerEvent(e) {
      SumUpdate(s.workers, e.w, t.workers[e.w], PhaseWeight);
    }
  }

  lemma LowersByStep(cfg: Config, s: State, e: Event, began: int)
    requires Timely(cfg, s, began) && s.next <= |cfg.work| && Enabled(cfg, s, e) && !Environment(e)
    requires s.shared.consecutive >= MAX_PACING_SIGNALS ==> s.shared.stop.Some?
    ensures Apply(cfg, s, e).next <= |cfg.work| && Lowers(cfg, s, Apply(cfg, s, e))
  {
    match e
    case Local(w, act) => LowersLocal(cfg, s, w, act, began);
    case Check(w, load) => LowersCheck(cfg, s, w, load);
    case _ => LowersOther(cfg, s, e);
  }

  lemma Lexicographic(a: nat, b: nat, c: nat, a': nat, b': nat, c': nat, r: nat)
    requires b' <= 5 && c' < r
    requires a' < a || (a' == a && b' < b) || (a' == a && b' == b && c' < c)
    ensures Budget(a', b', c', r) < Budget(a, b, c, r)
  {
    var x, y := 6 * a + b, 6 * a' + b';
    assert y <= x;
    if y < x {
      assert y * r + r == (y + 1) * r;
      assert (y + 1) * r <= x * r by { Scaled(y + 1, x, r); }
    }
  }

  lemma Scaled(x: nat, y: nat, r: nat)
    requires x <= y
    ensures x * r <= y * r
  {
  }

  /** Each of the program's own steps spends at least one step of the budget; the clock and the
      caller's context spend nothing. */
  lemma StepSpends(cfg: Config, s: State, e: Event, began: int, start: int)
    requires Inv(cfg, s, start) && Timely(cfg, s, began) && Enabled(cfg, s, e)
    ensures var t := Apply(cfg, s, e);
            && t.next <= |cfg.work|
            && (Environment(e) ==> StepsLeft(cfg, t, began) == StepsLeft(cfg, s, began))
            && (!Environment(e) ==> StepsLeft(cfg, t, began) < StepsLeft(cfg, s, began))
  {
    var t := Apply(cfg, s, e);
    if !Environment(e) {
      LowersByStep(cfg, s, e, began);
      TimelyByStep(cfg, s, e, began);
      OneWorker(cfg, s, e);
      LoopBounded(cfg, t, began);
      Lexicographic(JobsLeft(cfg, s), SignalsLeft(s), LoopLeft(cfg, s),
                    JobsLeft(cfg, t), SignalsLeft(t), LoopLeft(cfg, t), Round(cfg, began));
    }
  }

  /** How many steps of a run are the program's own. */
  function OwnSteps(es: seq<Event>): nat
  {
    if es == [] then 0 else (if Environment(es[0]) then 0 else 1) + OwnSteps(es[1..])
  }

  lemma {:induction false} StepsBounded(cfg: Config, s: State, es: seq<Event>, began: int, start: int)
    requires Inv(cfg, s, start) && Timely(cfg, s, began) && Possible(cfg, s, es)
    ensures OwnSteps(es) <= StepsLeft(cfg, s, began)
    decreases |es|
  {
    if es != [] {
      InvByStep(cfg, s, es[0], start);
      TimelyByStep(cfg, s, es[0], began);
      StepSpends(cfg, s, es[0], began, start);
      StepsBounded(cfg, Apply(cfg, s, es[0]), es[1..], began, start);
    }
  }

  lemma TimelyInitially(cfg: Config, s: State)
    requires Initial(cfg, s)
    ensures Timely(cfg, s, s.clock)
  {
  }

  /** Termination: whatever the broker, the clock, the store and the scheduler do, a run takes
      at most this many steps of its own. */
  lemma RunsEnd(cfg: Config, s0: State, es: seq<Event>)
    requires Initial(cfg, s0) && Possible(cfg, s0, es)
    ensures OwnSteps(es) <= StepsLeft(cfg, s0, s0.clock)
  {
    InvInitially(cfg, s0);
    TimelyInitially(cfg, s0);
    StepsBounded(cfg, s0, es, s0.clock, s0.shared.backoffUntil);
  }

  // ----- No deadlock -----

  /** The step a busy worker can take once the clock has reached t. */
  function NextMove(s: State, w: nat): (Event, int)
    requires w < |s.workers| && !s.workers[w].Idle?
  {
    match s.workers[w]
    case Admitting(_, _) => (Local(w, if s.cancelled then SeeCancelled else SeeAlive), s.clock)
    case Passed(_, _) => (Local(w, ReadClock), s.clock)
    case Checking(_, _) => (Check(w, None), s.clock)
    case Sleeping(_, until) => (Local(w, Wake), Max(s.clock, until))
    case Admitted(_) => (Local(w, Reply(Delivered(NO_QUOTE_SEEN))), s.clock)
    case Open(_) => (Local(w, Reply(Delivered(NO_QUOTE_SEEN))), s.clock)
    case Returned(_, _) => (Local(w, Judge), s.clock)
    case Turned(_, _) => (Record(w), s.clock)
    case Answered(_, _) => (Record(w), s.clock)
    case FlushDue => (Flush(w, true), s.clock)
  }

  lemma MoveEnabled(cfg: Config, s: State, w: nat)
    requires !s.closed && w < |s.workers| && !s.workers[w].Idle?
    requires Holds(s.workers[w]) ==> s.workers[w].job < |cfg.work|
    ensures var (e, t) := NextMove(s, w); !Environment(e) && t >= s.clock && Enabled(cfg, s.(clock := t), e)
  {
  }

  /** Until a run closes, some step of its own is enabled, at the latest when a sleep ends. */
  lemma NeverStuck(cfg: Config, s: State) returns (e: Event, t: int)
    requires Reachable(cfg, s) && !s.closed
    ensures !Environment(e) && t >= s.clock && Enabled(cfg, s.(clock := t), e)
  {
    var start := ReachableInv(cfg, s);
    JobsPlaced(cfg, s);
    if w :| 0 <= w < |s.workers| && !s.workers[w].Idle? {
      MoveEnabled(cfg, s, w);
      var m := NextMove(s, w);
      e, t := m.0, m.1;
    } else {
      t := s.clock;
      e := if s.next < |cfg.work| then Dispatch(0) else FinalFlush(true);
    }
  }

  ghost predicate CanClose(cfg: Config, s: State)
  {
    exists es :: Possible(cfg, s, es) && After(cfg, s, es).closed
  }

  lemma {:induction false} TimelyAlways(cfg: Config, s: State, es: seq<Event>, began: int)
    requires Timely(cfg, s, began) && Possible(cfg, s, es)
    ensures Timely(cfg, After(cfg, s, es), began)
    decreases |es|
  {
    if es != [] {
      TimelyByStep(cfg, s, es[0], began);
      TimelyAlways(cfg, Apply(cfg, s, es[0]), es[1..], began);
    }
  }

  /** From every reachable state the run can be brought to its end. */
  lemma NeverTrapped(cfg: Config, s: State)
    requires Reachable(cfg, s)
    ensures CanClose(cfg, s)
  {
    var s0, es :| Initial(cfg, s0) && Possible(cfg, s0, es) && After(cfg, s0, es) == s;
    TimelyInitially(cfg, s0);
    TimelyAlways(cfg, s0, es, s0.clock);
    var start := ReachableInv(cfg, s);
    CanAlwaysClose(cfg, s, s0.clock, start);
  }

  lemma CanAlwaysClose(cfg: Config, s: State, began: int, start: int)
    requires Reachable(cfg, s) && Inv(cfg, s, start) && Timely(cfg, s, began)
    ensures CanClose(cfg, s)
    decreases StepsLeft(cfg, s, began)
  {
    if s.closed {
      assert After(cfg, s, []) == s;
    } else {
      var e, t := NeverStuck(cfg, s);
      var u := s.(clock := t);
      assert Apply(cfg, s, Tick(t)) == u;
      ReachableStep(cfg, s, Tick(t));
      InvByStep(cfg, s, Tick(t), start);
      TimelyByStep(cfg, s, Tick(t), began);
      StepSpends(cfg, s, Tick(t), began, start);
      ReachableStep(cfg, u, e);
      InvByStep(cfg, u, e, start);
      TimelyByStep(cfg, u, e, began);
      StepSpends(cfg, u, e, began, start);
      CanAlwaysClose(cfg, Apply(cfg, u, e), began, start);
      var es :| Possible(cfg, Apply(cfg, u, e), es) && After(cfg, Apply(cfg, u, e), es).closed;
      ClosesThrough(cfg, s, t, e, es);
    }
  }

  lemma ClosesThrough(cfg: Config, s: State, t: int, e: Event, es: seq<Event>)
    requires t >= s.clock && Enabled(cfg, s.(clock := t), e)
    requires Possible(cfg, Apply(cfg, s.(clock := t), e), es) && After(cfg, Apply(cfg, s.(clock := t), e), es).closed
    ensures CanClose(cfg, s)
  {
    var u := s.(clock := t);
    var tail := [e] + es;
    assert tail[1..] == es;
    assert Possible(cfg, u, tail) && After(cfg, u, tail).closed;
    var whole := [Tick(t)] + tail;
    assert whole[1..] == tail;
    assert Apply(cfg, s, Tick(t)) == u;
    assert Possible(cfg, s, whole) && After(cfg, s, whole).closed;
  }
}
