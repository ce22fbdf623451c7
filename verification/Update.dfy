/** The app's self-update coordinator: one mutex-guarded status, metadata checks and update
    processes that report back later, in any order. */
module Update {
  import opened Sequences
  import opened Text

  // Clock readings are integer nanoseconds.
  const MINUTE: int := 60_000_000_000
  const CHECK_TTL: int := 6 * 60 * MINUTE
  const FAILURE_RETRY: int := 15 * MINUTE

  datatype Stage = CheckingStage | Available | Current | Unavailable | DevelopmentBuild | Updating | Failed

  /** What comparing the installed version with a release yields. */
  datatype Availability = IsAvailable | IsDevelopment | IsInvalid | IsNewer | IsOtherMajor | IsCurrent

  datatype Status = Status(
    stage: Stage, checking: bool, checkedAt: Option<int>, available: bool, latest: string, target: string)

  /** The fields the coordinator's mutex protects. */
  datatype Coordinator = Coordinator(status: Status, lastAttempt: Option<int>)

  /** A fetched release: its classification, the latest version it names and whether it is offered. */
  datatype Release = Release(availability: Availability, latest: string, available: bool)

  function Fresh(own: Availability): Coordinator
  {
    var stage := match own
      case IsDevelopment => DevelopmentBuild
      case IsInvalid => Unavailable
      case _ => CheckingStage;
    Coordinator(Status(stage, false, None, false, "", ""), None)
  }

  predicate ShouldCheck(c: Coordinator, now: int)
  {
    && !c.status.checking && c.status.stage != Updating && c.status.stage != DevelopmentBuild
    && (c.lastAttempt.Some? ==>
          now - c.lastAttempt.value >= (if c.status.stage in {Unavailable, Failed} then FAILURE_RETRY else CHECK_TTL))
  }

  /** A status read; the second clock reading stamps the check it may start. */
  function Polled(c: Coordinator, now: int, stamp: int): Coordinator
  {
    if !ShouldCheck(c, now) then c
    else Coordinator(c.status.(checking := true, stage := if c.status.checkedAt.None? then CheckingStage else c.status.stage),
                     Some(stamp))
  }

  function StageOf(a: Availability): Stage
  {
    match a
    case IsAvailable => Available
    case IsDevelopment => DevelopmentBuild
    case IsInvalid => Unavailable
    case _ => Current
  }

  function Refreshed(c: Coordinator, release: Option<Release>, now: int): Coordinator
  {
    var s := c.status.(checking := false, checkedAt := Some(now));
    match release
    case None => c.(status := s.(stage := Unavailable, available := false))
    case Some(r) => c.(status := s.(latest := r.latest, available := r.available, stage := StageOf(r.availability)))
  }

  /** Whether a start request is accepted, given what the caller asked and the process launch. */
  predicate Accepts(c: Coordinator, target: string, executable: string, launched: bool)
  {
    var s := c.status;
    && s.stage != Updating
    && (s.stage == Available || (s.stage == Failed && s.latest != ""))
    && TrimSpace(target) != "" && TrimSpace(target) == s.latest
    && executable != "" && launched
  }

  function Started(c: Coordinator, target: string): Coordinator
  {
    c.(status := c.status.(stage := Updating, available := false, target := TrimSpace(target)))
  }

  function Ended(c: Coordinator, failed: bool, now: int): Coordinator
  {
    if failed then Coordinator(c.status.(stage := Failed, available := true), Some(now))
    else Coordinator(c.status.(stage := CheckingStage, checking := false, available := false, target := ""), None)
  }

  class UpdateCoordinator {
    const executable: string
    var status: Status
    var lastAttempt: Option<int>

    ghost function View(): Coordinator
      reads this
    {
      Coordinator(status, lastAttempt)
    }

    constructor (own: Availability, executable: string)
      ensures View() == Fresh(own) && this.executable == executable
    {
      this.executable := executable;
      lastAttempt := None;
      status := Status(CheckingStage, false, None, false, "", "");
      new;
      match own {
        case IsDevelopment => status := status.(stage := DevelopmentBuild);
        case IsInvalid => status := status.(stage := Unavailable);
        case _ =>
      }
    }

    method ShouldCheckLocked(now: int) returns (due: bool)
      ensures due == ShouldCheck(View(), now)
    {
      if status.checking || status.stage == Updating || status.stage == DevelopmentBuild {
        return false;
      }
      if lastAttempt.None? {
        return true;
      }
      var ttl := CHECK_TTL;
      if status.stage == Unavailable || status.stage == Failed {
        ttl := FAILURE_RETRY;
      }
      return now - lastAttempt.value >= ttl;
    }

    /** spawned says that a metadata check was started. */
    method Poll(now: int, stamp: int) returns (shown: Status, spawned: bool)
      modifies this
      ensures View() == Polled(old(View()), now, stamp)
      ensures spawned == ShouldCheck(old(View()), now)
      ensures shown == status
    {
      spawned := ShouldCheckLocked(now);
      if spawned {
        status := status.(checking := true);
        if status.checkedAt.None? {
          status := status.(stage := CheckingStage);
        }
        lastAttempt := Some(stamp);
      }
      shown := status;
    }

    method Refresh(release: Option<Release>, now: int)
      modifies this
      ensures View() == Refreshed(old(View()), release, now)
    {
      status := status.(checking := false, checkedAt := Some(now));
      if release.None? {
        status := status.(stage := Unavailable, available := false);
        return;
      }
      var r := release.value;
      status := status.(latest := r.latest, available := r.available);
      match r.availability {
        case IsAvailable => status := status.(stage := Available);
        case IsDevelopment => status := status.(stage := DevelopmentBuild);
        case IsInvalid => status := status.(stage := Unavailable);
        case _ => status := status.(stage := Current);
      }
    }

    method Start(target: string, launched: bool) returns (accepted: bool)
      modifies this
      ensures accepted == Accepts(old(View()), target, executable, launched)
      ensures View() == if accepted then Started(old(View()), target) else old(View())
    {
      var wanted := TrimSpace(target);
      accepted := false;
      if status.stage == Updating {
        return;
      }
      var retryable := status.stage == Failed && status.latest != "";
      if status.stage != Available && !retryable {
        return;
      }
      if wanted == "" || wanted != status.latest {
        return;
      }
      if executable == "" || !launched {
        return;
      }
      status := status.(stage := Updating, available := false, target := wanted);
      accepted := true;
    }

    method AwaitUpdate(failed: bool, now: int)
      modifies this
      ensures View() == Ended(old(View()), failed, now)
    {
      if failed {
        status := status.(stage := Failed, available := true);
        lastAttempt := Some(now);
        return;
      }
      status := status.(stage := CheckingStage, checking := false, available := false, target := "");
      lastAttempt := None;
    }
  }

  // ----- Every interleaving -----

  /** The coordinator with the checks and update processes that have not reported back. */
  datatype World = World(c: Coordinator, executable: string, refreshing: nat, processes: nat)

  datatype Event =
    | PollEvent(now: int, stamp: int)
    | FetchDone(release: Option<Release>, now: int)
    | StartEvent(target: string, launched: bool)
    | ProcessDone(failed: bool, now: int)

  predicate Enabled(w: World, e: Event)
  {
    match e
    case FetchDone(_, _) => w.refreshing > 0
    case ProcessDone(_, _) => w.processes > 0
    case _ => true
  }

  predicate Accepted(w: World, e: Event)
  {
    e.StartEvent? && Accepts(w.c, e.target, w.executable, e.launched)
  }

  function Step(w: World, e: Event): World
    requires Enabled(w, e)
  {
    match e
    case PollEvent(now, stamp) =>
      w.(c := Polled(w.c, now, stamp), refreshing := w.refreshing + (if ShouldCheck(w.c, now) then 1 else 0))
    case FetchDone(release, now) => w.(c := Refreshed(w.c, release, now), refreshing := w.refreshing - 1)
    case StartEvent(target, _) =>
      if Accepted(w, e) then w.(c := Started(w.c, target), processes := w.processes + 1) else w
    case ProcessDone(failed, now) => w.(c := Ended(w.c, failed, now), processes := w.processes - 1)
  }

  /** The status tells the truth: updating exactly while one process runs, checking exactly while
      one check is in flight. */
  predicate Truthful(w: World)
  {
    && w.processes <= 1 && (w.c.status.stage == Updating <==> w.processes == 1)
    && w.refreshing <= 1 && (w.c.status.checking <==> w.refreshing == 1)
  }

  /** A check and an update never overlap. */
  predicate Apart(w: World) { !(w.c.status.checking && w.c.status.stage == Updating) }

  function Boot(own: Availability, executable: string): World { World(Fresh(own), executable, 0, 0) }

  ghost predicate Possible(w: World, es: seq<Event>)
    decreases |es|
  {
    es == [] || (Enabled(w, es[0]) && Possible(Step(w, es[0]), es[1..]))
  }

  ghost function After(w: World, es: seq<Event>): World
    requires Possible(w, es)
    decreases |es|
  {
    if es == [] then w else After(Step(w, es[0]), es[1..])
  }

  /** Every accepted start of the run came with no check in flight. */
  ghost predicate Guarded(w: World, es: seq<Event>)
    requires Possible(w, es)
    decreases |es|
  {
    es == [] || ((Accepted(w, es[0]) ==> !w.c.status.checking) && Guarded(Step(w, es[0]), es[1..]))
  }

  lemma GuardedStep(w: World, e: Event)
    requires Truthful(w) && Apart(w) && Enabled(w, e) && (Accepted(w, e) ==> !w.c.status.checking)
    ensures Truthful(Step(w, e)) && Apart(Step(w, e))
  {
  }

  /** If every start is accepted only with no check in flight, the status is truthful throughout. */
  lemma {:induction false} GuardedRunsAreTruthful(w: World, es: seq<Event>)
    requires Truthful(w) && Apart(w) && Possible(w, es) && Guarded(w, es)
    ensures Truthful(After(w, es)) && Apart(After(w, es))
    decreases |es|
  {
    if es != [] {
      GuardedStep(w, es[0]);
      GuardedRunsAreTruthful(Step(w, es[0]), es[1..]);
    }
  }

  /** A coordinator starts truthful. */
  lemma BootIsTruthful(own: Availability, executable: string)
    ensures Truthful(Boot(own, executable)) && Apart(Boot(own, executable))
  {
  }

  /** So every guarded run from the start of the app is truthful throughout. */
  lemma GuardedFromBoot(own: Availability, executable: string, es: seq<Event>)
    requires Possible(Boot(own, executable), es) && Guarded(Boot(own, executable), es)
    ensures Truthful(After(Boot(own, executable), es)) && Apart(After(Boot(own, executable), es))
  {
    BootIsTruthful(own, executable);
    GuardedRunsAreTruthful(Boot(own, executable), es);
  }

  /** Whatever can happen next keeps the status truthful. */
  ghost predicate RobustlyTruthful(w: World)
  {
    Truthful(w) && forall e :: Enabled(w, e) ==> Truthful(Step(w, e))
  }

  /** The guard is exactly what is needed: an accepted start leaves a world in which every next
      report keeps the status truthful if and only if no check was in flight. */
  lemma GuardIsNecessary(w: World, e: Event)
    requires Truthful(w) && Apart(w) && Accepted(w, e)
    ensures RobustlyTruthful(Step(w, e)) <==> !w.c.status.checking
  {
    var v := Step(w, e);
    if w.c.status.checking {
      var done := FetchDone(None, 0);
      assert Enabled(v, done) && !Truthful(Step(v, done));
    } else {
      GuardedStep(w, e);
      forall d | Enabled(v, d) ensures Truthful(Step(v, d)) {
        GuardedStep(v, d);
      }
    }
  }

  lemma AfterOne(w: World, e: Event, es: seq<Event>)
    requires Enabled(w, e) && Possible(Step(w, e), es)
    ensures Possible(w, [e] + es) && After(w, [e] + es) == After(Step(w, e), es)
  {
    assert ([e] + es)[1..] == es;
  }

  /** Without the guard the code lets two update processes run at once: a check overlaps an
      accepted start, reports, and the offer is accepted again. */
  lemma TwoProcessesPossible(executable: string, version: string) returns (es: seq<Event>)
    requires executable != "" && version != "" && TrimSpace(version) == version
    ensures Possible(Boot(IsCurrent, executable), es)
    ensures After(Boot(IsCurrent, executable), es).processes == 2
  {
    var r := Some(Release(IsAvailable, version, true));
    var w0 := Boot(IsCurrent, executable);
    var w1 := Step(w0, PollEvent(0, 0));
    var w2 := Step(w1, FetchDone(r, 1));
    var w3 := Step(w2, PollEvent(CHECK_TTL, CHECK_TTL));
    var w4 := Step(w3, StartEvent(version, true));
    var w5 := Step(w4, FetchDone(r, CHECK_TTL + 1));
    var w6 := Step(w5, StartEvent(version, true));
    assert w4.processes == 1 && w4.refreshing == 1 && w6.processes == 2;
    AfterOne(w5, StartEvent(version, true), []);
    AfterOne(w4, FetchDone(r, CHECK_TTL + 1), [StartEvent(version, true)] + []);
    var e5 := [FetchDone(r, CHECK_TTL + 1)] + ([StartEvent(version, true)] + []);
    AfterOne(w3, StartEvent(version, true), e5);
    var e4 := [StartEvent(version, true)] + e5;
    AfterOne(w2, PollEvent(CHECK_TTL, CHECK_TTL), e4);
    var e3 := [PollEvent(CHECK_TTL, CHECK_TTL)] + e4;
    AfterOne(w1, FetchDone(r, 1), e3);
    var e2 := [FetchDone(r, 1)] + e3;
    AfterOne(w0, PollEvent(0, 0), e2);
    es := [PollEvent(0, 0)] + e2;
  }

  // ----- Which starts launch a process -----

  /** A step launches a process exactly when it is a start that the system could launch, for the
      very version on record, while one is offered or the last attempt at it failed. */
  lemma LaunchIff(w: World, e: Event)
    requires Enabled(w, e)
    ensures Step(w, e).processes > w.processes <==>
            && e.StartEvent? && e.launched && w.executable != ""
            && TrimSpace(e.target) != "" && TrimSpace(e.target) == w.c.status.latest
            && (w.c.status.stage == Available || w.c.status.stage == Failed)
    ensures Step(w, e).processes > w.processes ==>
              Step(w, e).c.status.stage == Updating && Step(w, e).c.status.target == w.c.status.latest
  {
  }

  /** The last release any check has delivered. */
  function LastRelease(es: seq<Event>): Option<Release>
  {
    if es == [] then None
    else
      var e := es[|es| - 1];
      if e.FetchDone? && e.release.Some? then e.release else LastRelease(es[..|es| - 1])
  }

  /** An update process has failed since that release. */
  predicate FailedSince(es: seq<Event>)
  {
    es != [] &&
    var e := es[|es| - 1];
    !(e.FetchDone? && e.release.Some?) && ((e.ProcessDone? && e.failed) || FailedSince(es[..|es| - 1]))
  }

  /** What is on record after the events so far. */
  ghost predicate OnRecord(w: World, es: seq<Event>)
  {
    && w.c.status.latest == (if LastRelease(es).Some? then LastRelease(es).value.latest else "")
    && (w.c.status.stage == Available ==> LastRelease(es).Some? && LastRelease(es).value.availability == IsAvailable)
    && (w.c.status.stage == Failed ==> FailedSince(es))
  }

  lemma OnRecordStep(w: World, es: seq<Event>, e: Event)
    requires OnRecord(w, es) && Enabled(w, e)
    ensures OnRecord(Step(w, e), es + [e])
  {
    assert (es + [e])[..|es|] == es;
  }

  lemma {:induction false} AfterSnoc(w: World, es: seq<Event>, e: Event)
    requires Possible(w, es + [e])
    ensures Possible(w, es) && Enabled(After(w, es), e) && After(w, es + [e]) == Step(After(w, es), e)
    decreases |es|
  {
    if es == [] {
      assert (es + [e])[1..] == [];
    } else {
      assert (es + [e])[1..] == es[1..] + [e];
      AfterSnoc(Step(w, es[0]), es[1..], e);
    }
  }

  lemma {:induction false} OnRecordAlways(w: World, es: seq<Event>)
    requires OnRecord(w, []) && Possible(w, es)
    ensures OnRecord(After(w, es), es)
    decreases |es|
  {
    if es != [] {
      var n := |es| - 1;
      assert es == es[..n] + [es[n]];
      AfterSnoc(w, es[..n], es[n]);
      OnRecordAlways(w, es[..n]);
      OnRecordStep(After(w, es[..n]), es[..n], es[n]);
    }
  }

  /** Over any run from the start of the app, the version a process is launched for is the latest
      of the last release delivered, and unless an update failed since, that release was an
      available update. */
  lemma LaunchedWasOffered(own: Availability, executable: string, es: seq<Event>, e: Event)
    requires Possible(Boot(own, executable), es) && Enabled(After(Boot(own, executable), es), e)
    requires Step(After(Boot(own, executable), es), e).processes > After(Boot(own, executable), es).processes
    ensures LastRelease(es).Some?
    ensures Step(After(Boot(own, executable), es), e).c.status.target == TrimSpace(e.target) == LastRelease(es).value.latest
    ensures !FailedSince(es) ==> LastRelease(es).value.availability == IsAvailable
  {
    OnRecordAlways(Boot(own, executable), es);
    LaunchIff(After(Boot(own, executable), es), e);
  }

  /** A poll starts a check exactly when none is in flight, no update runs, the build is not a
      development one, and the last attempt is absent or old enough: fifteen minutes after a
      failure, six hours otherwise. */
  lemma CheckStartsIff(w: World, now: int, stamp: int)
    ensures var v := Step(w, PollEvent(now, stamp));
            var s := w.c.status;
            && (v.refreshing > w.refreshing <==>
                  && !s.checking && s.stage != Updating && s.stage != DevelopmentBuild
                  && (w.c.lastAttempt.None?
                      || now - w.c.lastAttempt.value
                         >= (if s.stage == Unavailable || s.stage == Failed then 900_000_000_000 else 21_600_000_000_000)))
            && (v.refreshing > w.refreshing ==> v.c.status.checking && v.c.lastAttempt == Some(stamp))
            && (v.refreshing == w.refreshing ==> v == w)
  {
  }

  /** What the app starts with. */
  lemma BootShown(own: Availability, executable: string)
    ensures var c := Boot(own, executable).c;
            && !c.status.checking && !c.status.available && c.status.latest == "" && c.status.target == ""
            && c.status.checkedAt.None? && c.lastAttempt.None?
            && (c.status.stage == DevelopmentBuild <==> own == IsDevelopment)
            && (c.status.stage == Unavailable <==> own == IsInvalid)
            && (c.status.stage == CheckingStage <==> own != IsDevelopment && own != IsInvalid)
  {
  }

  /** What an answer is shown as. */
  lemma AnswerShown(w: World, release: Option<Release>, now: int)
    requires w.refreshing > 0
    ensures var s := Step(w, FetchDone(release, now)).c.status;
            && !s.checking && s.checkedAt == Some(now) && s.target == w.c.status.target
            && (release.None? ==> s.stage == Unavailable && !s.available && s.latest == w.c.status.latest)
            && (release.Some? ==>
                  && s.latest == release.value.latest && s.available == release.value.available
                  && (s.stage == Available <==> release.value.availability == IsAvailable)
                  && (s.stage == DevelopmentBuild <==> release.value.availability == IsDevelopment)
                  && (s.stage == Unavailable <==> release.value.availability == IsInvalid)
                  && (s.stage == Current <==> release.value.availability in {IsNewer, IsOtherMajor, IsCurrent}))
  {
  }

  /** What the end of an update process is shown as. */
  lemma EndShown(w: World, failed: bool, now: int)
    requires w.processes > 0
    ensures var c := Step(w, ProcessDone(failed, now)).c;
            && c.status.latest == w.c.status.latest && c.status.checkedAt == w.c.status.checkedAt
            && (failed ==> c.status.stage == Failed && c.status.available && c.lastAttempt == Some(now)
                           && c.status.checking == w.c.status.checking && c.status.target == w.c.status.target)
            && (!failed ==> c.status.stage == CheckingStage && !c.status.available && c.lastAttempt.None?
                            && !c.status.checking && c.status.target == "")
  {
  }

  // ----- Checks are spaced -----

  predicate StartsCheck(w: World, e: Event) { e.PollEvent? && ShouldCheck(w.c, e.now) }

  /** No update process ends well. */
  predicate NoSuccess(es: seq<Event>) { forall i :: 0 <= i < |es| ==> !(es[i].ProcessDone? && !es[i].failed) }

  /** The latest attempt on record: the stamp, or the end of the last failed process. */
  function LastAttempt(stamp: int, es: seq<Event>): int
    decreases |es|
  {
    if es == [] then stamp
    else LastAttempt(if es[0].ProcessDone? && es[0].failed then es[0].now else stamp, es[1..])
  }

  predicate Polls(w: World, es: seq<Event>)
    requires Possible(w, es)
    decreases |es|
  {
    es != [] && (StartsCheck(w, es[0]) || Polls(Step(w, es[0]), es[1..]))
  }

  lemma {:induction false} AttemptKept(w: World, es: seq<Event>, stamp: int)
    requires Possible(w, es) && NoSuccess(es) && !Polls(w, es) && w.c.lastAttempt == Some(stamp)
    ensures After(w, es).c.lastAttempt == Some(LastAttempt(stamp, es))
    decreases |es|
  {
    if es != [] {
      var next := if es[0].ProcessDone? && es[0].failed then es[0].now else stamp;
      AttemptKept(Step(w, es[0]), es[1..], next);
    }
  }

  lemma {:induction false} LaterAttempts(stamp: int, es: seq<Event>, floor: int)
    requires stamp >= floor && forall i :: 0 <= i < |es| && es[i].ProcessDone? ==> es[i].now >= floor
    ensures LastAttempt(stamp, es) >= floor
    decreases |es|
  {
    if es != [] {
      LaterAttempts(if es[0].ProcessDone? && es[0].failed then es[0].now else stamp, es[1..], floor);
    }
  }

  /** Between one check and the next, with no update succeeding in between, at least the retry
      interval passes since the latest attempt, the full interval unless the state is a failure;
      with a clock that does not go back, also since the first check. */
  lemma ChecksAreSpaced(w: World, first: Event, es: seq<Event>, second: Event)
    requires StartsCheck(w, first)
    requires Possible(Step(w, first), es) && NoSuccess(es) && !Polls(Step(w, first), es)
    requires StartsCheck(After(Step(w, first), es), second)
    ensures var last, stage := LastAttempt(first.stamp, es), After(Step(w, first), es).c.status.stage;
            && second.now - last >= FAILURE_RETRY
            && (stage !in {Unavailable, Failed} ==> second.now - last >= CHECK_TTL)
            && ((forall i :: 0 <= i < |es| && es[i].ProcessDone? ==> es[i].now >= first.stamp) ==>
                  second.now - first.stamp >= FAILURE_RETRY)
  {
    AttemptKept(Step(w, first), es, first.stamp);
    if forall i :: 0 <= i < |es| && es[i].ProcessDone? ==> es[i].now >= first.stamp {
      LaterAttempts(first.stamp, es, first.stamp);
    }
  }

  /** A success is the exception, always: right after it a check is due at any time. */
  lemma SuccessResets(w: World, ended: int, now: int, stamp: int)
    requires w.processes > 0
    ensures StartsCheck(Step(w, ProcessDone(false, ended)), PollEvent(now, stamp))
  {
  }
}
