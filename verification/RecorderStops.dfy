/** Why a run stops and what a check decides, read off the log, the marks and the events. */
module RecorderStops {
  import opened Sequences
  import opened Contracts
  import opened Execution
  import opened Recorder
  import opened RecorderInvariants

  /** The recorded rows of a symbol are four refusals or more and no observation. */
  predicate GaveUp(s: State, sym: string)
  {
    Count(s.log, RefusedFor(sym)) >= 4 && Count(s.log, ObservedFor(sym)) == 0
  }

  /** A reported load leaves no more free lines than the reserve. */
  predicate Busy(cfg: Config, load: Option<Load>)
  {
    && load.Some? && load.value.capacity > 0
    && load.value.capacity - load.value.held <= (if cfg.reserve <= 0 then 20 else cfg.reserve)
  }

  /** A reported load names a pacing error not seen before. */
  predicate NewPacing(s: State, load: Option<Load>) { load.Some? && load.value.lastPacing > s.shared.lastPacingSeen }

  // ----- What a check decides -----

  /** Every check, in the order of its guards: the stop, the symbol, the deadline, a new pacing
      error, a wait, and only then the admission. */
  lemma CheckDecides(cfg: Config, s: State, w: nat, load: Option<Load>)
    requires Counted(cfg, s) && Enabled(cfg, s, Check(w, load))
    ensures var p, t := s.workers[w], Apply(cfg, s, Check(w, load));
            var q, sym := t.workers[w], cfg.work[p.job].symbol;
            if s.shared.stop.Some? then q == Turned(p.job, s.shared.stop.value) && t.shared == s.shared
            else if GaveUp(s, sym) then q == Turned(p.job, SymbolNoEntitlement) && t.shared == s.shared
            else if p.now >= cfg.deadline then q == Turned(p.job, Deadline) && t.shared.stop == Some(Deadline)
            else if NewPacing(s, load) then
              && q == Admitting(p.job, p.now) && t.marks == s.marks + [Signal(p.now)]
              && t.shared.lastPacingSeen == load.value.lastPacing
            else if Busy(cfg, load) || s.shared.backoffUntil > p.now then q.Sleeping? && t.shared == s.shared
            else q == Admitted(p.job) && t.shared == s.shared
  {
    var sym := cfg.work[s.workers[w].job].symbol;
    assert At(s.shared.symOK, sym) == Count(s.log, ObservedFor(sym));
    assert At(s.shared.symEntitlement, sym) == Count(s.log, RefusedFor(sym));
  }

  /** How long a worker sleeps: until the pause ends or, when the lines are taken, for a second at
      least, but never past the deadline. */
  lemma SleepIsExact(cfg: Config, s: State, w: nat, load: Option<Load>)
    requires Enabled(cfg, s, Check(w, load)) && Apply(cfg, s, Check(w, load)).workers[w].Sleeping?
    ensures var p, q := s.workers[w], Apply(cfg, s, Check(w, load)).workers[w];
            && (Busy(cfg, load) || s.shared.backoffUntil > p.now)
            && q == Sleeping(p.job, Min(cfg.deadline,
                                        if Busy(cfg, load) then Max(s.shared.backoffUntil, p.now + 1_000_000_000)
                                        else s.shared.backoffUntil))
  {
  }

  /** What a worker does on its own: a cancelled one turns its contract away as cancelled; one that
      wakes starts over, no earlier than its sleep said; a reply becomes a row of the contract
      asked for, which a cancelled context turns into no attempt only if the reply failed. */
  lemma ActsMean(cfg: Config, s: State, w: nat, act: Act)
    requires Enabled(cfg, s, Local(w, act))
    ensures var p, q := s.workers[w], Apply(cfg, s, Local(w, act)).workers[w];
            && (act.SeeCancelled? || act.SleepCut? ==> s.cancelled && q == Turned(p.job, Cancelled))
            && (act.SeeAlive? ==> !s.cancelled && q.Passed? && q.job == p.job)
            && (act.ReadClock? ==> q == Checking(p.job, s.clock))
            && (act.Wake? ==> s.clock >= p.until && q.Admitting? && q.job == p.job)
            && (act.Reply? ==> q == Returned(p.job, act.answer))
            && (act.Judge? ==> q.Answered? && q.job == p.job && q.row.contract == cfg.work[p.job] && q.row.quote == p.answer.quote
                               && (q.row.detail == Because(Cancelled) <==> p.answer.Failed? && (s.cancelled || p.answer.canceled)))
  {
  }

  // ----- What stops a run -----

  /** The reason a step gives for stopping, from the row it records or the check it makes. */
  function Cause(cfg: Config, s: State, e: Event): Option<Reason>
    requires e.Record? ==> e.w < |s.workers| && Recordable(cfg, s.workers[e.w])
    requires e.Check? ==> e.w < |s.workers| && s.workers[e.w].Checking? && s.workers[e.w].job < |cfg.work|
  {
    match e
    case Record(w) =>
      var status := RowOf(cfg, s.workers[w]).status;
      if status == GatewayLost then Some(GatewayStop)
      else if status == Paced && Streak(s.marks) >= 4 then Some(PacingStop)
      else None
    case Check(w, load) =>
      if GaveUp(s, cfg.work[s.workers[w].job].symbol) then None
      else if s.workers[w].now >= cfg.deadline then Some(Deadline)
      else if NewPacing(s, load) && Streak(s.marks) >= 4 then Some(PacingStop)
      else None
    case _ => None
  }

  /** A flush that has rows to write and cannot. */
  ghost predicate LosesStore(s: State, e: Event)
  {
    && (e.Flush? || e.FinalFlush?) && s.shared.pending != []
    && !(e.io && KeysUnique(s.persisted + s.shared.pending))
  }

  /** One step sets the stop exactly when it has a cause and none was set, and a lost store
      overrides everything for good. */
  lemma StopByStep(cfg: Config, s: State, e: Event, start: int)
    requires Counted(cfg, s) && PacingKept(s, start) && Enabled(cfg, s, e)
    ensures Apply(cfg, s, e).shared.stop ==
            if s.shared.stop == Some(StoreError) || LosesStore(s, e) then Some(StoreError)
            else if s.shared.stop.Some? then s.shared.stop
            else Cause(cfg, s, e)
  {
    match e
    case Check(w, load) => StopByCheck(cfg, s, w, load, start);
    case Record(w) => StopByRecord(cfg, s, w, start);
    case _ =>
  }

  lemma StopByCheck(cfg: Config, s: State, w: nat, load: Option<Load>, start: int)
    requires Counted(cfg, s) && PacingKept(s, start) && Enabled(cfg, s, Check(w, load))
    ensures Apply(cfg, s, Check(w, load)).shared.stop ==
            if s.shared.stop.Some? then s.shared.stop else Cause(cfg, s, Check(w, load))
  {
    CheckDecides(cfg, s, w, load);
  }

  lemma StopByRecord(cfg: Config, s: State, w: nat, start: int)
    requires PacingKept(s, start) && Enabled(cfg, s, Record(w))
    ensures Apply(cfg, s, Record(w)).shared.stop ==
            if s.shared.stop.Some? then s.shared.stop else Cause(cfg, s, Record(w))
  {
    var row := RowOf(cfg, s.workers[w]);
    RowStops(s.shared, row, s.clock);
    assert Apply(cfg, s, Record(w)).shared == Recording(s.shared, row, s.clock).0;
  }

  lemma RowStops(x: Shared, row: Row, now: int)
    ensures Recording(x, row, now).0.stop ==
            if x.stop.Some? then x.stop
            else if row.status == GatewayLost then Some(GatewayStop)
            else if row.status == Paced && x.consecutive >= 4 then Some(PacingStop)
            else None
  {
  }

  /** The first cause of a run. */
  ghost function FirstCause(cfg: Config, s: State, es: seq<Event>): Option<Reason>
    requires Possible(cfg, s, es)
    decreases |es|
  {
    if es == [] then None
    else if Cause(cfg, s, es[0]).Some? then Cause(cfg, s, es[0])
    else FirstCause(cfg, Apply(cfg, s, es[0]), es[1..])
  }

  ghost predicate StoreLost(cfg: Config, s: State, es: seq<Event>)
    requires Possible(cfg, s, es)
    decreases |es|
  {
    es != [] && (LosesStore(s, es[0]) || StoreLost(cfg, Apply(cfg, s, es[0]), es[1..]))
  }

  /** After any run the stop is the first cause, unless the store was lost; without a cause there
      is none. */
  lemma {:induction false} StopIsFirstCause(cfg: Config, s: State, es: seq<Event>, start: int)
    requires Inv(cfg, s, start) && Possible(cfg, s, es)
    ensures After(cfg, s, es).shared.stop ==
            if s.shared.stop == Some(StoreError) || StoreLost(cfg, s, es) then Some(StoreError)
            else if s.shared.stop.Some? then s.shared.stop
            else FirstCause(cfg, s, es)
    decreases |es|
  {
    if es != [] {
      StopByStep(cfg, s, es[0], start);
      InvByStep(cfg, s, es[0], start);
      StopIsFirstCause(cfg, Apply(cfg, s, es[0]), es[1..], start);
    }
  }

  // ----- The reasons, from the history alone -----

  ghost predicate GatewayRow(log: seq<Entry>) { exists i :: 0 <= i < |log| && log[i].row.status == GatewayLost }

  /** Five signals in a row at some point of the history. */
  ghost predicate FiveInARow(marks: seq<Mark>) { exists n :: 0 <= n <= |marks| && Streak(marks[..n]) >= 5 }

  ghost predicate Explained(s: State)
  {
    && (GatewayRow(s.log) ==> s.shared.stop.Some?)
    && (s.shared.stop == Some(GatewayStop) ==> GatewayRow(s.log))
    && (s.shared.stop == Some(PacingStop) ==> FiveInARow(s.marks))
  }

  lemma HistoryGrows(cfg: Config, s: State, e: Event)
    requires Enabled(cfg, s, e)
    ensures s.log <= Apply(cfg, s, e).log && s.marks <= Apply(cfg, s, e).marks
  {
  }

  lemma FiveStays(a: seq<Mark>, b: seq<Mark>)
    requires a <= b && FiveInARow(a)
    ensures FiveInARow(b)
  {
    var n :| 0 <= n <= |a| && Streak(a[..n]) >= 5;
    assert b[..n] == a[..n];
  }

  lemma StreakAppend(marks: seq<Mark>, at: int)
    ensures Streak(marks + [Signal(at)]) == Streak(marks) + 1
    ensures Streak(marks) >= 4 ==> FiveInARow(marks + [Signal(at)])
  {
    var m := marks + [Signal(at)];
    assert m[..|m| - 1] == marks && m[..|m|] == m;
  }

  /** A step that gives a reason leaves its evidence. */
  lemma CauseLeavesEvidence(cfg: Config, s: State, e: Event)
    requires Counted(cfg, s) && Enabled(cfg, s, e) && s.shared.stop.None?
    ensures var t := Apply(cfg, s, e);
            && (Cause(cfg, s, e) == Some(GatewayStop) <==>
                  GatewayRow(t.log) && |t.log| > |s.log| && t.log[|s.log|].row.status == GatewayLost)
            && (Cause(cfg, s, e) == Some(PacingStop) ==> FiveInARow(t.marks))
  {
    match e
    case Record(w) =>
      RecordShape(cfg, s, e);
      if Streak(s.marks) >= 4 {
        StreakAppend(s.marks, s.clock);
      }
      assert Apply(cfg, s, e).log[|s.log|] == Recorded(cfg, s.workers[w]);
    case Check(w, load) =>
      CheckDecides(cfg, s, w, load);
      if Streak(s.marks) >= 4 {
        StreakAppend(s.marks, s.workers[w].now);
      }
    case _ =>
  }

  lemma ExplainedByStep(cfg: Config, s: State, e: Event, start: int)
    requires Explained(s) && Counted(cfg, s) && PacingKept(s, start) && Enabled(cfg, s, e)
    ensures Explained(Apply(cfg, s, e))
  {
    var t := Apply(cfg, s, e);
    StopByStep(cfg, s, e, start);
    HistoryGrows(cfg, s, e);
    if s.shared.stop.None? {
      CauseLeavesEvidence(cfg, s, e);
      if GatewayRow(t.log) {
        GatewayRowIsNew(cfg, s, e);
      }
    } else {
      if FiveInARow(s.marks) {
        FiveStays(s.marks, t.marks);
      }
      if GatewayRow(s.log) {
        var i :| 0 <= i < |s.log| && s.log[i].row.status == GatewayLost;
        assert t.log[i] == s.log[i];
      }
    }
  }

  lemma GatewayRowIsNew(cfg: Config, s: State, e: Event)
    requires Enabled(cfg, s, e) && !GatewayRow(s.log) && GatewayRow(Apply(cfg, s, e).log)
    ensures var t := Apply(cfg, s, e); |t.log| == |s.log| + 1 && t.log[|s.log|].row.status == GatewayLost
  {
    var t := Apply(cfg, s, e);
    HistoryGrows(cfg, s, e);
    assert forall k :: 0 <= k < |s.log| ==> t.log[k] == s.log[k] && s.log[k].row.status != GatewayLost;
    var i :| 0 <= i < |t.log| && t.log[i].row.status == GatewayLost;
  }

  lemma {:induction false} ExplainedAlways(cfg: Config, s: State, es: seq<Event>, start: int)
    requires Explained(s) && Inv(cfg, s, start) && Possible(cfg, s, es)
    ensures Explained(After(cfg, s, es))
    decreases |es|
  {
    if es != [] {
      ExplainedByStep(cfg, s, es[0], start);
      InvByStep(cfg, s, es[0], start);
      ExplainedAlways(cfg, Apply(cfg, s, es[0]), es[1..], start);
    }
  }

  /** Some check of the run was made on a clock reading at or after the deadline. */
  ghost predicate LateCheck(cfg: Config, s: State, es: seq<Event>)
    requires Possible(cfg, s, es)
    decreases |es|
  {
    es != [] && ((es[0].Check? && s.workers[es[0].w].now >= cfg.deadline) || LateCheck(cfg, Apply(cfg, s, es[0]), es[1..]))
  }

  lemma {:induction false} DeadlineWasRead(cfg: Config, s: State, es: seq<Event>)
    requires Possible(cfg, s, es) && FirstCause(cfg, s, es) == Some(Deadline)
    ensures LateCheck(cfg, s, es)
    decreases |es|
  {
    if Cause(cfg, s, es[0]).None? {
      DeadlineWasRead(cfg, Apply(cfg, s, es[0]), es[1..]);
    }
  }

  /** Over every run, from the log, the marks and the events alone: a lost gateway stops the run;
      each reason has its evidence; and the reason is the first cause until the store is lost. */
  lemma WhyStopped(cfg: Config, s0: State, es: seq<Event>)
    requires Initial(cfg, s0) && Possible(cfg, s0, es)
    ensures var f := After(cfg, s0, es);
            && (GatewayRow(f.log) ==> f.shared.stop.Some?)
            && (f.shared.stop == Some(GatewayStop) ==> GatewayRow(f.log))
            && (f.shared.stop == Some(PacingStop) ==> FiveInARow(f.marks))
            && (f.shared.stop == Some(Deadline) ==> LateCheck(cfg, s0, es))
            && f.shared.stop ==
               if s0.shared.stop == Some(StoreError) || StoreLost(cfg, s0, es) then Some(StoreError) else FirstCause(cfg, s0, es)
  {
    InvInitially(cfg, s0);
    ExplainedAlways(cfg, s0, es, s0.shared.backoffUntil);
    StopIsFirstCause(cfg, s0, es, s0.shared.backoffUntil);
    if FirstCause(cfg, s0, es) == Some(Deadline) {
      DeadlineWasRead(cfg, s0, es);
    }
  }

  // ----- When a worker flushes -----

  /** The worker that records goes on to flush exactly when it found 200 rows or more. */
  lemma FlushWhenFull(cfg: Config, s: State, w: nat)
    requires Enabled(cfg, s, Record(w))
    ensures var t := Apply(cfg, s, Record(w));
            && t.shared.pending == s.shared.pending + [RowOf(cfg, s.workers[w])]
            && t.workers[w] == if |s.shared.pending| + 1 >= 200 then FlushDue else Idle
  {
    SameBuffer(s.shared, RowOf(cfg, s.workers[w]), s.clock);
  }

  lemma SameBuffer(x: Shared, row: Row, now: int)
    ensures Recording(x, row, now).0.pending == x.pending + [row]
  {
  }
}
