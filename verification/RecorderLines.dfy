/** How far the recorder can eat into the market-data line reserve. */
module RecorderLines {
  import opened Sequences
  import opened Contracts
  import opened Execution
  import opened Recorder
  import opened RecorderInvariants

  function IsOpen(): Phase -> bool { (p: Phase) => p.Open? }

  function IsAdmitted(): Phase -> bool { (p: Phase) => p.Admitted? }

  /** Lines nobody holds while the rest of the daemon holds others of them. */
  function FreeLines(s: State, others: int, capacity: int): int
  {
    capacity - others - Count(s.workers, IsOpen())
  }

  /** Every load the broker reports is the truth, and the other users stand still. */
  ghost predicate Honest(cfg: Config, s: State, es: seq<Event>, others: int, capacity: int)
    requires Possible(cfg, s, es)
    decreases |es|
  {
    es != [] ==>
      && (es[0].Check? ==>
            es[0].load.Some? && es[0].load.value.capacity == capacity
            && capacity - es[0].load.value.held == FreeLines(s, others, capacity))
      && Honest(cfg, Apply(cfg, s, es[0]), es[1..], others, capacity)
  }

  /** A quote was granted at some point. */
  ghost predicate Granted(s: State)
  {
    || (exists i :: 0 <= i < |s.workers| && InFlight(s.workers[i]))
    || (exists i :: 0 <= i < |s.log| && s.log[i].asked)
  }

  ghost predicate RoomWhenGranted(cfg: Config, s: State, others: int, capacity: int)
  {
    && |s.workers| == Pool(cfg)
    && (Granted(s) ==> capacity - others >= Reserve(cfg.reserve) + 1)
  }

  lemma RoomByStep(cfg: Config, s: State, e: Event, others: int, capacity: int)
    requires RoomWhenGranted(cfg, s, others, capacity) && capacity > 0
    requires Enabled(cfg, s, e) && Honest(cfg, s, [e], others, capacity)
    ensures RoomWhenGranted(cfg, Apply(cfg, s, e), others, capacity)
  {
    var t := Apply(cfg, s, e);
    OneWorker(cfg, s, e);
    if e.Local? {
      ActKeepsJob(cfg, s.workers[e.w], e.act, s.clock, s.cancelled);
    }
    if Granted(t) && !Granted(s) {
      GrantNeedsCheck(cfg, s, e);
      AdmissionDiscipline(cfg, s, e);
    }
  }

  lemma GrantNeedsCheck(cfg: Config, s: State, e: Event)
    requires Enabled(cfg, s, e) && Granted(Apply(cfg, s, e)) && !Granted(s)
    ensures WorkerEvent(e) && InFlight(Apply(cfg, s, e).workers[e.w]) && !InFlight(s.workers[e.w])
  {
    var t := Apply(cfg, s, e);
    OneWorker(cfg, s, e);
    if i :| 0 <= i < |t.workers| && InFlight(t.workers[i]) {
      assert WorkerEvent(e) && i == e.w;
    }
  }

  lemma {:induction false} RoomAlways(cfg: Config, s: State, es: seq<Event>, others: int, capacity: int)
    requires RoomWhenGranted(cfg, s, others, capacity) && capacity > 0
    requires Possible(cfg, s, es) && Honest(cfg, s, es, others, capacity)
    ensures RoomWhenGranted(cfg, After(cfg, s, es), others, capacity)
    decreases |es|
  {
    if es != [] {
      assert Possible(cfg, s, [es[0]]) && Honest(cfg, s, [es[0]], others, capacity);
      RoomByStep(cfg, s, es[0], others, capacity);
      RoomAlways(cfg, Apply(cfg, s, es[0]), es[1..], others, capacity);
    }
  }

  /** Free lines less the lines granted but not yet opened never fall below reserve + 1 - lines,
      except that before the first grant they are whatever the others left. */
  lemma ReserveBound(cfg: Config, s0: State, es: seq<Event>, others: int, capacity: int)
    requires Initial(cfg, s0) && capacity > 0
    requires Possible(cfg, s0, es) && Honest(cfg, s0, es, others, capacity)
    ensures var s := After(cfg, s0, es);
            var room := FreeLines(s, others, capacity) - Count(s.workers, IsAdmitted());
            if Granted(s) then room >= Reserve(cfg.reserve) + 1 - Lines(cfg) else room == capacity - others
  {
    RoomAlways(cfg, s0, es, others, capacity);
    var s := After(cfg, s0, es);
    OpenAndAdmitted(s.workers);
    if !Granted(s) {
      CountBounds(s.workers, IsOpen());
      CountBounds(s.workers, IsAdmitted());
    }
  }

  lemma {:induction false} OpenAndAdmitted(ws: seq<Phase>)
    ensures Count(ws, IsOpen()) + Count(ws, IsAdmitted()) <= |ws|
  {
    if ws != [] {
      OpenAndAdmitted(ws[..|ws| - 1]);
    }
  }

  // ----- The bound is reached -----

  /** A quiet start: nothing stops, paces or cancels the run. */
  predicate Quiet(cfg: Config, s: State, lastPacing: int)
  {
    && s.shared.stop.None? && !s.cancelled && !s.closed && s.clock < cfg.deadline
    && s.shared.backoffUntil <= s.clock && lastPacing <= s.shared.lastPacingSeen
    && s.shared.symOK == map[] && s.shared.symEntitlement == map[]
  }

  function AdmitOneEvents(w: nat, load: Load): seq<Event>
  {
    [Dispatch(w)] + ([Local(w, SeeAlive)] + ([Local(w, ReadClock)] + ([Check(w, Some(load))] + [])))
  }

  /** es leads honestly from s to t. */
  ghost predicate Leads(cfg: Config, s: State, es: seq<Event>, t: State, others: int, capacity: int)
  {
    Possible(cfg, s, es) && Honest(cfg, s, es, others, capacity) && After(cfg, s, es) == t
  }

  lemma LeadsFirst(cfg: Config, s: State, e: Event, mid: State, es: seq<Event>, t: State, others: int, capacity: int)
    requires Enabled(cfg, s, e) && Apply(cfg, s, e) == mid && Leads(cfg, mid, es, t, others, capacity)
    requires e.Check? ==> e.load.Some? && e.load.value.capacity == capacity
                          && capacity - e.load.value.held == FreeLines(s, others, capacity)
    ensures Leads(cfg, s, [e] + es, t, others, capacity)
  {
    assert ([e] + es)[1..] == es;
  }

  /** One idle worker takes the next job and is admitted. */
  lemma AdmitOne(cfg: Config, s: State, w: nat, others: int, capacity: int, lastPacing: int)
    requires Quiet(cfg, s, lastPacing) && w < |s.workers| && s.workers[w].Idle? && s.next < |cfg.work|
    requires capacity > 0 && FreeLines(s, others, capacity) > Reserve(cfg.reserve)
    ensures Leads(cfg, s, AdmitOneEvents(w, Load(others + Count(s.workers, IsOpen()), capacity, lastPacing)),
                  s.(workers := s.workers[w := Admitted(s.next)], next := s.next + 1), others, capacity)
  {
    var load := Load(others + Count(s.workers, IsOpen()), capacity, lastPacing);
    var s1 := s.(workers := s.workers[w := Admitting(s.next, s.clock)], next := s.next + 1);
    var s2 := s1.(workers := s.workers[w := Passed(s.next, s.clock)]);
    var s3 := s1.(workers := s.workers[w := Checking(s.next, s.clock)]);
    var s4 := s1.(workers := s.workers[w := Admitted(s.next)]);
    assert Leads(cfg, s4, [], s4, others, capacity);
    CountUpdate(s.workers, w, Checking(s.next, s.clock), IsOpen());
    assert Apply(cfg, s3, Check(w, Some(load))) == s4 by { QuietCheck(cfg, s, w, s3, s4, load); }
    LeadsFirst(cfg, s3, Check(w, Some(load)), s4, [], s4, others, capacity);
    assert s1.workers[w := s2.workers[w]] == s2.workers && s2.workers[w := s3.workers[w]] == s3.workers;
    LeadsFirst(cfg, s2, Local(w, ReadClock), s3, [Check(w, Some(load))] + [], s4, others, capacity);
    LeadsFirst(cfg, s1, Local(w, SeeAlive), s2, [Local(w, ReadClock)] + ([Check(w, Some(load))] + []), s4, others, capacity);
    LeadsFirst(cfg, s, Dispatch(w), s1,
               [Local(w, SeeAlive)] + ([Local(w, ReadClock)] + ([Check(w, Some(load))] + [])), s4, others, capacity);
  }

  lemma QuietCheck(cfg: Config, s: State, w: nat, s3: State, s4: State, load: Load)
    requires Quiet(cfg, s, load.lastPacing) && w < |s.workers| && s.next < |cfg.work|
    requires s3 == s.(workers := s.workers[w := Checking(s.next, s.clock)], next := s.next + 1)
    requires s4 == s.(workers := s.workers[w := Admitted(s.next)], next := s.next + 1)
    requires load.capacity - load.held > Reserve(cfg.reserve)
    ensures Enabled(cfg, s3, Check(w, Some(load))) && Apply(cfg, s3, Check(w, Some(load))) == s4
  {
    assert s3.workers[w := Admitted(s.next)] == s4.workers;
  }

  lemma {:induction false} HonestConcat(cfg: Config, s: State, es: seq<Event>, fs: seq<Event>, others: int, capacity: int)
    requires Possible(cfg, s, es) && Honest(cfg, s, es, others, capacity)
    requires Possible(cfg, After(cfg, s, es), fs) && Honest(cfg, After(cfg, s, es), fs, others, capacity)
    ensures Possible(cfg, s, es + fs) && Honest(cfg, s, es + fs, others, capacity)
    ensures After(cfg, s, es + fs) == After(cfg, After(cfg, s, es), fs)
    decreases |es|
  {
    if es == [] {
      assert es + fs == fs;
    } else {
      assert (es + fs)[1..] == es[1..] + fs;
      HonestConcat(cfg, Apply(cfg, s, es[0]), es[1..], fs, others, capacity);
    }
  }

  /** Jobs 0 to k-1 admitted by workers 0 to k-1, everything else as it began. */
  function AdmittedTo(cfg: Config, s: State, k: nat): State
    requires k <= |s.workers|
  {
    s.(workers := seq(|s.workers|, (i: int) => if 0 <= i < k then Admitted(i) else Idle), next := k)
  }

  /** With no line open yet, k workers can all pass the same check. */
  lemma {:induction false} AdmitMany(cfg: Config, s: State, k: nat, others: int, capacity: int) returns (es: seq<Event>)
    requires Initial(cfg, s) && Quiet(cfg, s, s.shared.lastPacingSeen) && k <= Pool(cfg) && k <= |cfg.work|
    requires capacity > 0 && capacity - others > Reserve(cfg.reserve)
    ensures Leads(cfg, s, es, AdmittedTo(cfg, s, k), others, capacity)
  {
    if k == 0 {
      es := [];
      assert AdmittedTo(cfg, s, 0).workers == s.workers;
      assert AdmittedTo(cfg, s, 0) == s;
    } else {
      var fs := AdmitMany(cfg, s, k - 1, others, capacity);
      var gs := AdmitNext(cfg, s, k, others, capacity);
      HonestConcat(cfg, s, fs, gs, others, capacity);
      es := fs + gs;
    }
  }

  lemma AdmitNext(cfg: Config, s: State, k: nat, others: int, capacity: int) returns (gs: seq<Event>)
    requires Initial(cfg, s) && Quiet(cfg, s, s.shared.lastPacingSeen) && 0 < k <= Pool(cfg) && k <= |cfg.work|
    requires capacity > 0 && capacity - others > Reserve(cfg.reserve)
    ensures Leads(cfg, AdmittedTo(cfg, s, k - 1), gs, AdmittedTo(cfg, s, k), others, capacity)
  {
    var t := AdmittedTo(cfg, s, k - 1);
    CountBounds(t.workers, IsOpen());
    AdmitOne(cfg, t, k - 1, others, capacity, s.shared.lastPacingSeen);
    gs := AdmitOneEvents(k - 1, Load(others + Count(t.workers, IsOpen()), capacity, s.shared.lastPacingSeen));
    assert t.workers[k - 1 := Admitted(k - 1)] == AdmittedTo(cfg, s, k).workers;
  }

  /** Whatever the pool, some honest run reaches the bound exactly. */
  lemma ReserveBoundTight(cfg: Config, s: State, others: int, capacity: int) returns (es: seq<Event>)
    requires Initial(cfg, s) && Quiet(cfg, s, s.shared.lastPacingSeen) && Pool(cfg) == Lines(cfg) <= |cfg.work|
    requires capacity > 0 && capacity - others == Reserve(cfg.reserve) + 1
    ensures Possible(cfg, s, es) && Honest(cfg, s, es, others, capacity) && Granted(After(cfg, s, es))
    ensures var t := After(cfg, s, es);
            FreeLines(t, others, capacity) - Count(t.workers, IsAdmitted()) == Reserve(cfg.reserve) + 1 - Lines(cfg)
  {
    es := AdmitMany(cfg, s, Pool(cfg), others, capacity);
    var t := After(cfg, s, es);
    CountBounds(t.workers, IsOpen());
    CountBounds(t.workers, IsAdmitted());
    assert InFlight(t.workers[0]);
  }

  // ----- When the documented promise holds -----

  /** Every load the broker reports is the truth and the other users stand still; if reported is
      set, every check gets a report. */
  ghost predicate Candid(cfg: Config, s: State, es: seq<Event>, others: int, capacity: int, reported: bool)
    requires Possible(cfg, s, es)
    decreases |es|
  {
    es != [] ==>
      && (es[0].Check? && es[0].load.Some? ==>
            es[0].load.value.capacity == capacity && capacity - es[0].load.value.held == FreeLines(s, others, capacity))
      && (es[0].Check? && reported ==> es[0].load.Some?)
      && Candid(cfg, Apply(cfg, s, es[0]), es[1..], others, capacity, reported)
  }

  lemma {:induction false} HonestIsCandid(cfg: Config, s: State, es: seq<Event>, others: int, capacity: int)
    requires Possible(cfg, s, es)
    ensures Honest(cfg, s, es, others, capacity) <==> Candid(cfg, s, es, others, capacity, true)
    decreases |es|
  {
    if es != [] {
      HonestIsCandid(cfg, Apply(cfg, s, es[0]), es[1..], others, capacity);
    }
  }

  /** No line is opened while reserve or fewer lines are free. */
  ghost predicate ReserveHonoured(cfg: Config, reported: bool)
  {
    forall s0, es, w, others, capacity ::
      Initial(cfg, s0) && capacity > 0 && Possible(cfg, s0, es) && Candid(cfg, s0, es, others, capacity, reported)
      && Enabled(cfg, After(cfg, s0, es), Local(w, OpenLine)) ==>
        FreeLines(After(cfg, s0, es), others, capacity) > Reserve(cfg.reserve)
  }

  /** With other users standing still, the promise holds exactly when the pool is a single worker
      and every check gets a report, or there is nothing to request or no time for it. */
  lemma ReserveHonouredIff(cfg: Config, reported: bool)
    ensures ReserveHonoured(cfg, reported) <==>
            (Pool(cfg) == 1 && reported) || cfg.work == [] || cfg.deadline <= ZERO_TIME
  {
    if cfg.deadline <= ZERO_TIME || cfg.work == [] {
      forall s0, es, w | Initial(cfg, s0) && Possible(cfg, s0, es)
        ensures !Enabled(cfg, After(cfg, s0, es), Local(w, OpenLine))
      {
        NothingRequested(cfg, s0, es);
      }
    } else if Pool(cfg) == 1 && reported {
      forall s0, es, w, others, capacity |
        Initial(cfg, s0) && capacity > 0 && Possible(cfg, s0, es) && Candid(cfg, s0, es, others, capacity, true)
        && Enabled(cfg, After(cfg, s0, es), Local(w, OpenLine))
        ensures FreeLines(After(cfg, s0, es), others, capacity) > Reserve(cfg.reserve)
      {
        HonestIsCandid(cfg, s0, es, others, capacity);
        SingleWorkerHonours(cfg, s0, es, w, others, capacity);
      }
    } else if reported {
      TwoWorkersOvershoot(cfg);
    } else {
      UnreportedOvershoots(cfg);
    }
  }

  lemma NothingRequested(cfg: Config, s0: State, es: seq<Event>)
    requires Initial(cfg, s0) && Possible(cfg, s0, es) && (cfg.deadline <= ZERO_TIME || cfg.work == [])
    ensures forall w :: !Enabled(cfg, After(cfg, s0, es), Local(w, OpenLine))
  {
    if cfg.deadline <= ZERO_TIME {
      NothingAdmitted(cfg, s0, es);
    } else {
      InvInitially(cfg, s0);
      InvAlways(cfg, s0, es, s0.shared.backoffUntil);
      NothingHeld(cfg, After(cfg, s0, es));
    }
  }

  /** Past the deadline with nothing in flight, and it stays so. */
  ghost predicate Expired(cfg: Config, s: State)
  {
    && s.clock >= cfg.deadline
    && forall i :: 0 <= i < |s.workers| ==>
         !InFlight(s.workers[i]) && (s.workers[i].Checking? ==> s.workers[i].now >= cfg.deadline)
  }

  lemma ExpiredByStep(cfg: Config, s: State, e: Event)
    requires Expired(cfg, s) && Enabled(cfg, s, e)
    ensures Expired(cfg, Apply(cfg, s, e))
  {
    OneWorker(cfg, s, e);
  }

  lemma {:induction false} ExpiredAlways(cfg: Config, s: State, es: seq<Event>)
    requires Expired(cfg, s) && Possible(cfg, s, es)
    ensures Expired(cfg, After(cfg, s, es))
    decreases |es|
  {
    if es != [] {
      ExpiredByStep(cfg, s, es[0]);
      ExpiredAlways(cfg, Apply(cfg, s, es[0]), es[1..]);
    }
  }

  lemma NothingAdmitted(cfg: Config, s0: State, es: seq<Event>)
    requires Initial(cfg, s0) && Possible(cfg, s0, es) && cfg.deadline <= ZERO_TIME
    ensures forall w :: !Enabled(cfg, After(cfg, s0, es), Local(w, OpenLine))
  {
    ExpiredAlways(cfg, s0, es);
  }

  lemma SingleWorkerHonours(cfg: Config, s0: State, es: seq<Event>, w: nat, others: int, capacity: int)
    requires Pool(cfg) == 1 && Initial(cfg, s0) && capacity > 0
    requires Possible(cfg, s0, es) && Honest(cfg, s0, es, others, capacity)
    requires Enabled(cfg, After(cfg, s0, es), Local(w, OpenLine))
    ensures FreeLines(After(cfg, s0, es), others, capacity) > Reserve(cfg.reserve)
  {
    RoomAlways(cfg, s0, es, others, capacity);
    var s := After(cfg, s0, es);
    assert InFlight(s.workers[w]);
    CountBounds(s.workers, IsOpen());
  }

  /** A run that begins just before its deadline, with no pause in force. */
  function QuietStart(cfg: Config): State
  {
    State(Shared([], |cfg.work|, 0, 0, 0, None, cfg.undiscovered, ZERO_TIME, 0, 0, map[], map[]),
          seq(Pool(cfg), _ => Idle), 0, cfg.deadline - 1, false, [], false, [], [])
  }

  lemma TwoWorkersOvershoot(cfg: Config)
    requires Pool(cfg) >= 2 && cfg.deadline > ZERO_TIME
    ensures !ReserveHonoured(cfg, true)
  {
    var s := QuietStart(cfg);
    var capacity := Reserve(cfg.reserve) + 1;
    var es := AdmitMany(cfg, s, 2, 0, capacity);
    var t := AdmittedTo(cfg, s, 2);
    var e := Local(0, OpenLine);
    var u := Apply(cfg, t, e);
    assert Possible(cfg, u, []) && Honest(cfg, u, [], 0, capacity) && After(cfg, u, []) == u;
    assert [e][1..] == [];
    assert Possible(cfg, t, [e]) && Honest(cfg, t, [e], 0, capacity) && After(cfg, t, [e]) == u;
    HonestConcat(cfg, s, es, [e], 0, capacity);
    CountBounds(t.workers, IsOpen());
    CountUpdate(t.workers, 0, Open(0), IsOpen());
    assert Enabled(cfg, u, Local(1, OpenLine));
    assert FreeLines(u, 0, capacity) == Reserve(cfg.reserve);
    assert After(cfg, s, es + [e]) == u;
    HonestIsCandid(cfg, s, es + [e], 0, capacity);
  }

  /** A check without a report lets a line be opened with none free, whatever the pool. */
  lemma UnreportedAdmits(cfg: Config) returns (s: State, es: seq<Event>)
    requires cfg.work != [] && cfg.deadline > ZERO_TIME
    ensures Initial(cfg, s) && Possible(cfg, s, es) && Candid(cfg, s, es, 1, 1, false)
    ensures var t := After(cfg, s, es); Enabled(cfg, t, Local(0, OpenLine)) && FreeLines(t, 1, 1) == 0
  {
    s := QuietStart(cfg);
    var s1 := Apply(cfg, s, Dispatch(0));
    var s2 := Apply(cfg, s1, Local(0, SeeAlive));
    var s3 := Apply(cfg, s2, Local(0, ReadClock));
    var t := Apply(cfg, s3, Check(0, None));
    es := [Dispatch(0), Local(0, SeeAlive), Local(0, ReadClock), Check(0, None)];
    assert es[1..][1..] == [Local(0, ReadClock), Check(0, None)] && es[1..][1..][1..] == [Check(0, None)];
    assert es[1..][1..][1..][1..] == [];
    assert After(cfg, s3, [Check(0, None)]) == t;
    assert After(cfg, s2, es[1..][1..]) == t && After(cfg, s1, es[1..]) == t;
    assert t.workers == s.workers[0 := Admitted(0)];
    CountBounds(t.workers, IsOpen());
  }

  lemma UnreportedOvershoots(cfg: Config)
    requires cfg.work != [] && cfg.deadline > ZERO_TIME
    ensures !ReserveHonoured(cfg, false)
  {
    var s, es := UnreportedAdmits(cfg);
    assert Enabled(cfg, After(cfg, s, es), Local(0, OpenLine));
  }

  /** Nor does a truthful report help when another user takes a line between check and opening. */
  lemma OthersMayTakeTheLine(cfg: Config, others: int) returns (s: State, es: seq<Event>)
    requires cfg.work != [] && cfg.deadline > ZERO_TIME && others + Reserve(cfg.reserve) >= 0
    ensures var capacity := others + Reserve(cfg.reserve) + 1;
            && Initial(cfg, s) && Possible(cfg, s, es) && Honest(cfg, s, es, others, capacity)
            && Enabled(cfg, After(cfg, s, es), Local(0, OpenLine))
            && FreeLines(After(cfg, s, es), others + 1, capacity) == Reserve(cfg.reserve)
  {
    s := QuietStart(cfg);
    es := AdmitMany(cfg, s, 1, others, others + Reserve(cfg.reserve) + 1);
    CountBounds(AdmittedTo(cfg, s, 1).workers, IsOpen());
  }

  /** Admission looks at the deadline, opening does not: in every configuration with work a
      contract admitted in time can be asked for at any later moment. */
  lemma LineMayOpenLate(cfg: Config, late: int) returns (s: State, es: seq<Event>)
    requires cfg.work != [] && late >= cfg.deadline > ZERO_TIME
    ensures Initial(cfg, s) && Possible(cfg, s, es)
    ensures var t := After(cfg, s, es); t.clock == late && Enabled(cfg, t, Local(0, OpenLine))
  {
    s := QuietStart(cfg);
    var fs := AdmitMany(cfg, s, 1, 0, Reserve(cfg.reserve) + 1);
    var t, e := AdmittedTo(cfg, s, 1), Tick(late);
    assert [e][1..] == [];
    assert Possible(cfg, Apply(cfg, t, e), []) && After(cfg, Apply(cfg, t, e), []) == Apply(cfg, t, e);
    assert Possible(cfg, t, [e]) && After(cfg, t, [e]) == Apply(cfg, t, e);
    AfterConcat(cfg, s, fs, [e]);
    es := fs + [e];
  }

  /** No line is opened at or after the deadline. */
  ghost predicate NoLateLine(cfg: Config)
  {
    forall s0, es, w ::
      Initial(cfg, s0) && Possible(cfg, s0, es) && Enabled(cfg, After(cfg, s0, es), Local(w, OpenLine)) ==>
        After(cfg, s0, es).clock < cfg.deadline
  }

  /** That promise holds only of a run that has nothing to request or no time for it. */
  lemma NoLateLineIff(cfg: Config)
    ensures NoLateLine(cfg) <==> cfg.work == [] || cfg.deadline <= ZERO_TIME
  {
    if cfg.deadline <= ZERO_TIME || cfg.work == [] {
      forall s0, es, w | Initial(cfg, s0) && Possible(cfg, s0, es)
        ensures !Enabled(cfg, After(cfg, s0, es), Local(w, OpenLine))
      {
        NothingRequested(cfg, s0, es);
      }
    } else {
      var s, es := LineMayOpenLate(cfg, cfg.deadline);
      assert Enabled(cfg, After(cfg, s, es), Local(0, OpenLine));
    }
  }

  lemma NothingHeld(cfg: Config, s: State)
    requires Conserved(cfg, s) && cfg.work == []
    ensures forall i :: 0 <= i < |s.workers| ==> !Holds(s.workers[i])
  {
    CountBounds(s.workers, Holds);
  }

  // ----- How many lines can open late -----

  /** Lines opened at or after the deadline. */
  ghost function LateOpens(cfg: Config, s: State, es: seq<Event>): nat
    requires Possible(cfg, s, es)
    decreases |es|
  {
    if es == [] then 0
    else (if OpensLate(cfg, s, es[0]) then 1 else 0) + LateOpens(cfg, Apply(cfg, s, es[0]), es[1..])
  }

  predicate OpensLate(cfg: Config, s: State, e: Event) { e.Local? && e.act.OpenLine? && s.clock >= cfg.deadline }

  /** A worker that may still open a line late: admitted, or about to be on an old clock reading. */
  function MayOpen(cfg: Config): Phase -> bool
  {
    (p: Phase) => p.Admitted? || (p.Checking? && p.now < cfg.deadline)
  }

  /** After the deadline every late opening uses up a worker that might, and none is added. */
  lemma LateStep(cfg: Config, s: State, e: Event)
    requires Enabled(cfg, s, e) && s.clock >= cfg.deadline
    ensures Apply(cfg, s, e).clock >= cfg.deadline
    ensures Count(Apply(cfg, s, e).workers, MayOpen(cfg)) + (if OpensLate(cfg, s, e) then 1 else 0)
            <= Count(s.workers, MayOpen(cfg))
  {
    OneWorker(cfg, s, e);
    if WorkerEvent(e) {
      CountUpdate(s.workers, e.w, Apply(cfg, s, e).workers[e.w], MayOpen(cfg));
      LatePhase(cfg, s, e);
    }
  }

  lemma LatePhase(cfg: Config, s: State, e: Event)
    requires Enabled(cfg, s, e) && s.clock >= cfg.deadline && WorkerEvent(e)
    ensures var p, q := s.workers[e.w], Apply(cfg, s, e).workers[e.w];
            && (MayOpen(cfg)(q) ==> MayOpen(cfg)(p))
            && (OpensLate(cfg, s, e) ==> MayOpen(cfg)(p) && !MayOpen(cfg)(q))
  {
  }

  lemma {:induction false} LateBound(cfg: Config, s: State, es: seq<Event>)
    requires Possible(cfg, s, es)
    ensures LateOpens(cfg, s, es) <= if s.clock >= cfg.deadline then Count(s.workers, MayOpen(cfg)) else |s.workers|
    decreases |es|
  {
    CountBounds(s.workers, MayOpen(cfg));
    if es != [] {
      var t := Apply(cfg, s, es[0]);
      OneWorker(cfg, s, es[0]);
      LateBound(cfg, t, es[1..]);
      CountBounds(t.workers, MayOpen(cfg));
      if s.clock >= cfg.deadline {
        LateStep(cfg, s, es[0]);
      }
    }
  }

  /** Over any run at most one line per worker is opened at or after the deadline. */
  lemma AtMostOneLateEach(cfg: Config, s0: State, es: seq<Event>)
    requires Initial(cfg, s0) && Possible(cfg, s0, es)
    ensures LateOpens(cfg, s0, es) <= Pool(cfg) <= Lines(cfg)
  {
    LateBound(cfg, s0, es);
    CountBounds(s0.workers, MayOpen(cfg));
  }

  /** Workers 0 to k-1 have opened their lines, the others up to n are admitted. */
  function OpenedTo(cfg: Config, s: State, n: nat, k: nat): State
    requires k <= n <= |s.workers|
  {
    s.(workers := seq(|s.workers|, (i: int) => if 0 <= i < k then Open(i) else if 0 <= i < n then Admitted(i) else Idle),
       next := n)
  }

  lemma {:induction false} OpenAll(cfg: Config, s: State, n: nat, k: nat) returns (es: seq<Event>)
    requires k <= n <= |s.workers| && s.clock >= cfg.deadline && !s.closed
    ensures Possible(cfg, OpenedTo(cfg, s, n, k), es) && LateOpens(cfg, OpenedTo(cfg, s, n, k), es) == n - k
    decreases n - k
  {
    if k == n {
      es := [];
    } else {
      var fs := OpenAll(cfg, s, n, k + 1);
      var t, e := OpenedTo(cfg, s, n, k), Local(k, OpenLine);
      assert t.workers[k] == Admitted(k);
      assert t.workers[k := Open(k)] == OpenedTo(cfg, s, n, k + 1).workers;
      assert Apply(cfg, t, e) == OpenedTo(cfg, s, n, k + 1);
      es := [e] + fs;
      assert es[1..] == fs;
    }
  }

  lemma {:induction false} LateConcat(cfg: Config, s: State, es: seq<Event>, fs: seq<Event>)
    requires Possible(cfg, s, es) && Possible(cfg, After(cfg, s, es), fs)
    ensures Possible(cfg, s, es + fs)
    ensures LateOpens(cfg, s, es + fs) == LateOpens(cfg, s, es) + LateOpens(cfg, After(cfg, s, es), fs)
    decreases |es|
  {
    if es == [] {
      assert es + fs == fs;
    } else {
      assert (es + fs)[1..] == es[1..] + fs;
      LateConcat(cfg, Apply(cfg, s, es[0]), es[1..], fs);
    }
  }

  /** And with work and time some run opens that many. */
  lemma OneLateEachPossible(cfg: Config) returns (s: State, es: seq<Event>)
    requires cfg.work != [] && cfg.deadline > ZERO_TIME
    ensures Initial(cfg, s) && Possible(cfg, s, es) && LateOpens(cfg, s, es) == Pool(cfg)
  {
    s := QuietStart(cfg);
    var n := Pool(cfg);
    var fs := AdmitMany(cfg, s, n, 0, Reserve(cfg.reserve) + 1);
    var t := AdmittedTo(cfg, s, n);
    var late := Tick(cfg.deadline);
    var u := Apply(cfg, t, late);
    var gs := OpenAll(cfg, s.(clock := cfg.deadline), n, 0);
    assert u.workers == OpenedTo(cfg, s.(clock := cfg.deadline), n, 0).workers;
    assert u == OpenedTo(cfg, s.(clock := cfg.deadline), n, 0);
    var hs := [late] + gs;
    assert hs[1..] == gs;
    assert Possible(cfg, t, hs) && LateOpens(cfg, t, hs) == n;
    LateConcat(cfg, s, fs, hs);
    es := fs + hs;
    AtMostOneLateEach(cfg, s, es);
  }
}
