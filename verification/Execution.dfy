/** One run's shared state and the critical sections its workers execute under the lock. */
module Execution {
  import opened Sequences
  import opened Contracts

  /** The fields the run's mutex protects. */
  datatype Shared = Shared(
    pending: seq<Row>,
    planned: nat,
    attempted: nat,
    quoted: nat,
    notAttempted: nat,
    stop: Option<Reason>,
    incomplete: bool,
    backoffUntil: int,
    consecutive: nat,
    lastPacingSeen: int,
    symOK: map<string, nat>,
    symEntitlement: map<string, nat>)

  /** A missing key reads as zero. */
  function At(m: map<string, nat>, k: string): nat { if k in m then m[k] else 0 }

  /** base doubled the given number of times. */
  function Doubled(base: int, times: nat): int
  {
    if times == 0 then base else 2 * Doubled(base, times - 1)
  }

  function PacingSignal(x: Shared, now: int): Shared
  {
    var c := x.consecutive + 1;
    if c >= MAX_PACING_SIGNALS then
      x.(consecutive := c, stop := if x.stop.None? then Some(PacingStop) else x.stop)
    else
      var pause := Min(Doubled(PACING_BACKOFF_BASE, c - 1), PACING_BACKOFF_MAX);
      x.(consecutive := c, backoffUntil := Max(x.backoffUntil, now + pause))
  }

  datatype Verdict = Go | Refuse(reason: Reason) | Retry | Wait(pause: int)

  function Reserve(configured: int): int { if configured <= 0 then LINE_RESERVE else configured }

  /** A symbol with this many refusals and no observation is given up. */
  predicate GivenUp(x: Shared, symbol: string)
  {
    At(x.symEntitlement, symbol) >= ENTITLEMENT_GIVE_UP && At(x.symOK, symbol) == 0
  }

  /** One pass of the admission loop's locked section, for a clock read before the lock. */
  function Admission(x: Shared, symbol: string, now: int, deadline: int, reserve: int, load: Option<Load>): (Shared, Verdict)
  {
    if x.stop.Some? then (x, Refuse(x.stop.value))
    else if GivenUp(x, symbol) then (x, Refuse(SymbolNoEntitlement))
    else if now >= deadline then (x.(stop := Some(Deadline)), Refuse(Deadline))
    else if load.Some? && load.value.lastPacing > x.lastPacingSeen then
      (PacingSignal(x.(lastPacingSeen := load.value.lastPacing), now), Retry)
    else
      var lineWait := if load.Some? && load.value.capacity > 0
                         && load.value.capacity - load.value.held <= Reserve(reserve) then SECOND else 0;
      var wait := Max(lineWait, x.backoffUntil - now);
      if wait <= 0 then (x, Go) else (x, Wait(Min(wait, deadline - now)))
  }

  function Bump(m: map<string, nat>, k: string): map<string, nat> { m[k := At(m, k) + 1] }

  /** What one row does to the counters, the streak and the stop reason. */
  function Tallied(x: Shared, row: Row, now: int): Shared
  {
    var sym := row.contract.symbol;
    match row.status
    case NotAttempted => x.(notAttempted := x.notAttempted + 1)
    case Paced => PacingSignal(x.(attempted := x.attempted + 1), now)
    case GatewayLost =>
      x.(attempted := x.attempted + 1, stop := if x.stop.None? then Some(GatewayStop) else x.stop)
    case NoEntitlement =>
      x.(attempted := x.attempted + 1, symEntitlement := Bump(x.symEntitlement, sym))
    case Quoted =>
      x.(attempted := x.attempted + 1, consecutive := 0, symOK := Bump(x.symOK, sym), quoted := x.quoted + 1)
    case ModelOnly =>
      x.(attempted := x.attempted + 1, consecutive := 0, symOK := Bump(x.symOK, sym))
    case _ => x.(attempted := x.attempted + 1, consecutive := 0)
  }

  /** Recording one row; the flag says whether the buffer is due for a flush. */
  function Recording(x: Shared, row: Row, now: int): (Shared, bool)
  {
    var z := Tallied(x, row, now).(pending := x.pending + [row]);
    (z, |z.pending| >= ROW_FLUSH_SIZE)
  }

  /** The zero time, where the pacing pause starts; clock readings count from it. */
  const ZERO_TIME: int := 0

  /** A flush writes the buffer unless it is empty or the store already failed. */
  predicate FlushWrites(x: Shared)
  {
    x.pending != [] && x.stop != Some(StoreError)
  }

  function Flushing(x: Shared, stored: bool): Shared
  {
    if !FlushWrites(x) then x
    else if stored then x.(pending := [])
    else x.(stop := Some(StoreError))
  }

  datatype RunStatus = RunComplete | RunPartial | RunFailed

  datatype StopReason = NoReason | Stopped(reason: Reason) | NoContracts

  datatype Outcome = Outcome(
    status: RunStatus, stopReason: StopReason, planned: nat, attempted: nat, quoted: nat, heldUnavailable: bool)

  function Closing(x: Shared, heldUnavailable: bool): Outcome
  {
    var reason := if x.stop.Some? then Stopped(x.stop.value) else NoReason;
    var (status, stopReason) :=
      if x.stop == Some(StoreError) then (RunFailed, reason)
      else if x.attempted == 0 then
        (RunFailed, if reason.NoReason? && x.planned == 0 then NoContracts else reason)
      else if x.notAttempted > 0 || x.incomplete then (RunPartial, reason)
      else (RunComplete, reason);
    Outcome(status, stopReason, x.planned, x.attempted, x.quoted, heldUnavailable)
  }

  /** The run's mutable record. Each method is one critical section, proved to be the
      step function of the same name on the protected fields. */
  class Execution {
    var pending: seq<Row>
    var planned: nat
    var attempted: nat
    var quoted: nat
    var notAttempted: nat
    var stop: Option<Reason>
    var incomplete: bool
    var backoffUntil: int
    var consecutive: nat
    var lastPacingSeen: int
    var symOK: map<string, nat>
    var symEntitlement: map<string, nat>

    ghost function View(): Shared
      reads this
    {
      Shared(pending, planned, attempted, quoted, notAttempted, stop, incomplete,
             backoffUntil, consecutive, lastPacingSeen, symOK, symEntitlement)
    }

    constructor (zeroTime: int)
      ensures View() == Shared([], 0, 0, 0, 0, None, false, zeroTime, 0, zeroTime, map[], map[])
    {
      pending, planned, attempted, quoted, notAttempted := [], 0, 0, 0, 0;
      stop, incomplete, consecutive := None, false, 0;
      backoffUntil, lastPacingSeen := zeroTime, zeroTime;
      symOK, symEntitlement := map[], map[];
    }

    method PacingSignalLocked(now: int)
      modifies this
      ensures View() == PacingSignal(old(View()), now)
    {
      consecutive := consecutive + 1;
      if consecutive >= MAX_PACING_SIGNALS {
        if stop == None {
          stop := Some(PacingStop);
        }
        return;
      }
      var backoff := PACING_BACKOFF_BASE;
      var i := 1;
      while i < consecutive
        invariant 1 <= i <= consecutive
        invariant backoff == Doubled(PACING_BACKOFF_BASE, i - 1)
      {
        backoff := 2 * backoff;
        i := i + 1;
      }
      backoff := Min(backoff, PACING_BACKOFF_MAX);
      backoffUntil := Max(backoffUntil, now + backoff);
    }

    method AdmitLocked(symbol: string, now: int, deadline: int, configuredReserve: int, load: Option<Load>)
      returns (verdict: Verdict)
      modifies this
      ensures (View(), verdict) == Admission(old(View()), symbol, now, deadline, configuredReserve, load)
    {
      if stop != None {
        return Refuse(stop.value);
      }
      if At(symEntitlement, symbol) >= ENTITLEMENT_GIVE_UP && At(symOK, symbol) == 0 {
        return Refuse(SymbolNoEntitlement);
      }
      if now >= deadline {
        stop := Some(Deadline);
        return Refuse(Deadline);
      }
      var wait := 0;
      if load.Some? {
        if load.value.lastPacing > lastPacingSeen {
          lastPacingSeen := load.value.lastPacing;
          PacingSignalLocked(now);
          return Retry;
        }
        if load.value.capacity > 0 && load.value.capacity - load.value.held <= Reserve(configuredReserve) {
          wait := SECOND;
        }
      }
      var until := backoffUntil - now;
      if until > wait {
        wait := until;
      }
      if wait <= 0 {
        return Go;
      }
      return Wait(Min(wait, deadline - now));
    }

    method Tally(row: Row, now: int)
      modifies this
      ensures View() == Tallied(old(View()), row, now)
    {
      var sym := row.contract.symbol;
      match row.status {
        case NotAttempted =>
          notAttempted := notAttempted + 1;
        case Paced =>
          attempted := attempted + 1;
          PacingSignalLocked(now);
        case GatewayLost =>
          attempted := attempted + 1;
          if stop == None {
            stop := Some(GatewayStop);
          }
        case NoEntitlement =>
          attempted := attempted + 1;
          symEntitlement := symEntitlement[sym := At(symEntitlement, sym) + 1];
        case Quoted =>
          attempted := attempted + 1;
          consecutive := 0;
          symOK := symOK[sym := At(symOK, sym) + 1];
          quoted := quoted + 1;
        case ModelOnly =>
          attempted := attempted + 1;
          consecutive := 0;
          symOK := symOK[sym := At(symOK, sym) + 1];
        case _ =>
          attempted := attempted + 1;
          consecutive := 0;
      }
    }

    method Record(row: Row, now: int) returns (full: bool)
      modifies this
      ensures (View(), full) == Recording(old(View()), row, now)
    {
      Tally(row, now);
      pending := pending + [row];
      full := |pending| >= ROW_FLUSH_SIZE;
    }

    /** The rows handed to the store, if any; the caller reports whether it kept them. */
    method Flush(stored: bool) returns (written: seq<Row>)
      modifies this
      ensures View() == Flushing(old(View()), stored)
      ensures written == if FlushWrites(old(View())) && stored then old(pending) else []
    {
      written := [];
      if pending == [] || stop == Some(StoreError) {
        return;
      }
      if !stored {
        stop := Some(StoreError);
        return;
      }
      written := pending;
      pending := [];
    }

    method Close(heldUnavailable: bool) returns (out: Outcome)
      ensures out == Closing(View(), heldUnavailable)
    {
      var reason := if stop.Some? then Stopped(stop.value) else NoReason;
      var status;
      if stop == Some(StoreError) {
        status := RunFailed;
      } else if attempted == 0 {
        status := RunFailed;
        if reason.NoReason? && planned == 0 {
          reason := NoContracts;
        }
      } else if notAttempted > 0 || incomplete {
        status := RunPartial;
      } else {
        status := RunComplete;
      }
      out := Outcome(status, reason, planned, attempted, quoted, heldUnavailable);
    }
  }
}
