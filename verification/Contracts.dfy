/** The option-chain recorder's plan constants, statuses, contracts and rows. */
module Contracts {
  import opened Sequences

  // Durations and clock readings are integer nanoseconds.
  const SECOND: int := 1_000_000_000
  const MAX_SYMBOLS: nat := 12
  const MAX_STRIKES_PER_EXPIRY: nat := 40
  const MAX_LINES: int := 4
  const LINE_RESERVE: int := 20
  const PACING_BACKOFF_BASE: int := 5 * SECOND
  const PACING_BACKOFF_MAX: int := 80 * SECOND
  const MAX_PACING_SIGNALS: nat := 5
  const ENTITLEMENT_GIVE_UP: nat := 4
  const ROW_FLUSH_SIZE: nat := 200

  datatype Right = Call | Put

  datatype Slot = Monthly1 | Monthly2 | Weekly

  /** One exact option the run requests. Expiry dates are day numbers. */
  datatype Contract = Contract(
    symbol: string,
    tradingClass: string,
    expiry: int,
    slot: Slot,
    strike: real,
    right: Right,
    rank: nat,
    sym: nat)

  /** The columns of the store's uniqueness constraint inside one run. */
  datatype Key = Key(symbol: string, tradingClass: string, expiry: int, strike: real, right: Right)

  function KeyOf(c: Contract): Key
  {
    Key(c.symbol, c.tradingClass, c.expiry, c.strike, c.right)
  }

  datatype Status =
    | Quoted
    | ModelOnly
    | NoQuote
    | NoContract
    | NoEntitlement
    | Paced
    | GatewayLost
    | Rejected
    | TimedOut
    | NotAttempted

  /** Why a contract was never requested, and why a run stopped. */
  datatype Reason =
    | Deadline
    | PacingStop
    | GatewayStop
    | StoreError
    | SymbolNoEntitlement
    | Cancelled

  /** What one contract's line delivered; a field is true when it was observed. */
  datatype Quote = Quote(bid: bool, ask: bool, last: bool, iv: bool, delta: bool, openInterest: bool)

  function QuoteStatus(q: Quote): Status
  {
    if q.bid || q.ask || q.last then Quoted
    else if q.iv || q.delta then ModelOnly
    else NoQuote
  }

  const NO_QUOTE_SEEN := Quote(false, false, false, false, false, false)

  datatype Detail = NoDetail | Because(reason: Reason) | BrokerText(text: string)

  /** One contract's record in one run. */
  datatype Row = Row(contract: Contract, status: Status, detail: Detail, quote: Quote)

  /** A broker reply. The status of a failure is the classification it carries, if any. */
  datatype Answer =
    | Delivered(quote: Quote)
    | Failed(quote: Quote, canceled: bool, status: Option<Status>, text: string)

  /** The row a broker reply becomes, given whether the run's context had ended. */
  function Classify(c: Contract, answer: Answer, cancelled: bool): Row
  {
    match answer
    case Delivered(q) => Row(c, QuoteStatus(q), NoDetail, q)
    case Failed(q, canceled, status, text) =>
      if cancelled || canceled then Row(c, NotAttempted, Because(Cancelled), q)
      else Row(c, if status.Some? then status.value else Rejected, BrokerText(text), q)
  }

  function RefusedRow(c: Contract, reason: Reason): Row
  {
    Row(c, NotAttempted, Because(reason), NO_QUOTE_SEEN)
  }

  /** The connection's market-data pressure. */
  datatype Load = Load(held: int, capacity: int, lastPacing: int)

  // ----- What the statuses mean -----

  /** A price makes a quote; only a model value makes it model-only; open interest alone does not. */
  lemma QuoteStatusMeans(q: Quote)
    ensures QuoteStatus(q) == Quoted <==> q.bid || q.ask || q.last
    ensures QuoteStatus(q) == ModelOnly <==> !q.bid && !q.ask && !q.last && (q.iv || q.delta)
    ensures QuoteStatus(q) == NoQuote <==> !q.bid && !q.ask && !q.last && !q.iv && !q.delta
  {
  }

  /** A row keeps its contract and what was delivered. A failed reply under a cancelled context, or
      itself a cancellation, is not an attempt; any other carries its classification, or counts as
      rejected. A delivered quote counts even under a cancelled context. */
  lemma ClassifyMeans(c: Contract, answer: Answer, cancelled: bool)
    ensures var row := Classify(c, answer, cancelled);
            && row.contract == c && row.quote == answer.quote
            && (answer.Delivered? ==> row.status in {Quoted, ModelOnly, NoQuote} && row.detail == NoDetail)
            && (answer.Delivered? && (answer.quote.bid || answer.quote.ask || answer.quote.last) ==> row.status == Quoted)
            && (answer.Failed? && (cancelled || answer.canceled) ==> row.status == NotAttempted && row.detail == Because(Cancelled))
            && (answer.Failed? && !cancelled && !answer.canceled ==>
                  row.status == (if answer.status.None? then Rejected else answer.status.value) && row.detail == BrokerText(answer.text))
  {
  }

  /** A refused contract is recorded as not attempted, with the reason and nothing observed. */
  lemma RefusedMeans(c: Contract, reason: Reason)
    ensures var row := RefusedRow(c, reason);
            && row.contract == c && row.status == NotAttempted && row.detail == Because(reason)
            && !(row.quote.bid || row.quote.ask || row.quote.last || row.quote.iv || row.quote.delta || row.quote.openInterest)
  {
  }

  /** Two contracts share a key exactly when all five columns of the constraint agree. */
  lemma KeyOfMeans(a: Contract, b: Contract)
    ensures KeyOf(a) == KeyOf(b) <==>
            && a.symbol == b.symbol && a.tradingClass == b.tradingClass && a.expiry == b.expiry
            && a.strike == b.strike && a.right == b.right
  {
  }
}
