/** The discovery phase of a run: every symbol's plan stored, and the work put in order. */
module Discovery {
  import opened Sequences
  import opened Text
  import opened Sorting
  import opened Contracts
  import opened Calendar
  import opened Symbols
  import opened Coverage
  import opened Execution
  import opened Recorder
  import opened RecorderInvariants
  import opened RecorderRuns
  import opened StoredCoverage
  import opened Store
  import opened Plan

  // ----- The order of the work -----

  function Side(r: Right): nat { if r == Call then 0 else 1 }

  /** Nearest the money first, then by symbol, expiry, class and side. */
  predicate WorkBefore(a: Contract, b: Contract)
  {
    a.rank < b.rank || (a.rank == b.rank && (
    a.sym < b.sym || (a.sym == b.sym && (
    a.expiry < b.expiry || (a.expiry == b.expiry && (
    Less(a.tradingClass, b.tradingClass) || (a.tradingClass == b.tradingClass && Side(a.right) < Side(b.right))))))))
  }

  function WorkOrder(): (Contract, Contract) -> bool { (a: Contract, b: Contract) => WorkBefore(a, b) }

  lemma WorkOrders()
    ensures WeakOrder(WorkOrder())
  {
    forall a, b, c ensures Coherent(WorkOrder(), a, b, c) {
      LessTotal(a.tradingClass, b.tradingClass);
      LessTotal(b.tradingClass, c.tradingClass);
      LessTotal(a.tradingClass, c.tradingClass);
      if Less(a.tradingClass, b.tradingClass) && Less(b.tradingClass, c.tradingClass) {
        LessTransitive(a.tradingClass, b.tradingClass, c.tradingClass);
      }
    }
  }

  function OrderContracts(s: seq<Contract>): seq<Contract> { Sort(WorkOrder(), s) }

  predicate InWorkOrder(s: seq<Contract>)
  {
    forall i, j :: 0 <= i < j < |s| ==> !WorkBefore(s[j], s[i])
  }

  /** Ordering sorts and keeps every contract as often as it was there. */
  lemma OrderContractsSorts(s: seq<Contract>)
    ensures InWorkOrder(OrderContracts(s))
    ensures multiset(OrderContracts(s)) == multiset(s)
  {
    WorkOrders();
    SortContent(WorkOrder(), s);
    SortSorted(WorkOrder(), s);
    var r := OrderContracts(s);
    forall i, j | 0 <= i < j < |r| ensures !WorkBefore(r[j], r[i]) {
      assert !WorkOrder()(r[j], r[i]);
    }
  }

  /** Ordering moves no contract past one it is tied with. */
  lemma OrderContractsStable(s: seq<Contract>, c: Contract)
    ensures TiedWith(WorkOrder(), OrderContracts(s), c) == TiedWith(WorkOrder(), s, c)
  {
    WorkOrders();
    SortStable(WorkOrder(), s, c);
  }

  /** Ordered work is nearest the money first; within a rank by symbol, then by expiry, then by
      class, then calls before puts. */
  lemma WorkOrderMeans(s: seq<Contract>, i: nat, j: nat)
    requires i < j < |OrderContracts(s)|
    ensures var a, b := OrderContracts(s)[i], OrderContracts(s)[j];
            && a.rank <= b.rank
            && (a.rank == b.rank ==> a.sym <= b.sym)
            && (a.rank == b.rank && a.sym == b.sym ==> a.expiry <= b.expiry)
            && (a.rank == b.rank && a.sym == b.sym && a.expiry == b.expiry ==> !Less(b.tradingClass, a.tradingClass))
            && (a.rank == b.rank && a.sym == b.sym && a.expiry == b.expiry && a.tradingClass == b.tradingClass ==>
                  a.right == Call || b.right == Put)
  {
    OrderContractsSorts(s);
    assert !WorkBefore(OrderContracts(s)[j], OrderContracts(s)[i]);
  }

  /** What ordering keeps of the plan. */
  lemma OrderedWork(s: seq<Contract>)
    requires ContractKeysDistinct(s)
    ensures var work := OrderContracts(s);
            && RankOrdered(work) && ContractKeysDistinct(work) && |work| == |s|
            && (forall c :: c in work <==> c in s)
            && forall sym :: Count(work, IsSymbol(sym)) == Count(s, IsSymbol(sym))
  {
    var work := OrderContracts(s);
    OrderContractsSorts(s);
    forall c ensures c in work <==> c in s {
      assert c in work <==> c in multiset(work);
    }
    assert |work| == |multiset(work)|;
    forall sym ensures Count(work, IsSymbol(sym)) == Count(s, IsSymbol(sym)) {
      CountPermutation(work, s, IsSymbol(sym));
    }
    KeysPermuted(s, work);
  }

  function HasKey(k: Key): Contract -> bool { (c: Contract) => KeyOf(c) == k }

  lemma {:induction false} KeysPermuted(s: seq<Contract>, t: seq<Contract>)
    requires ContractKeysDistinct(s) && multiset(s) == multiset(t)
    ensures ContractKeysDistinct(t)
  {
    forall i, j | 0 <= i < j < |t| ensures KeyOf(t[i]) != KeyOf(t[j]) {
      if KeyOf(t[i]) == KeyOf(t[j]) {
        var p := HasKey(KeyOf(t[i]));
        CountTwo(t, i, j, p);
        CountPermutation(s, t, p);
        KeyOnce(s, KeyOf(t[i]));
      }
    }
  }

  lemma {:induction false} KeyOnce(s: seq<Contract>, k: Key)
    requires ContractKeysDistinct(s)
    ensures Count(s, HasKey(k)) <= 1
  {
    if s != [] {
      var n := |s| - 1;
      KeyOnce(s[..n], k);
      if KeyOf(s[n]) == k {
        CountBounds(s[..n], HasKey(k));
      }
    }
  }

  // ----- Symbol after symbol -----

  /** What the world does around one symbol: the context and the clock when its turn comes, the
      broker's answers, and whether the store can write its record. */
  datatype Moment = Moment(cancelled: bool, now: int, probe: Probe, io: bool)

  function IoOf(): Moment -> bool { (m: Moment) => m.io }

  predicate AllWrote(ios: seq<bool>) { forall i :: 0 <= i < |ios| ==> ios[i] }

  function RecordFor(plan: SymbolPlan): SymbolRecord { SymbolRecord(plan.symbol, plan.planned) }

  function ToRecord(): SymbolPlan -> SymbolRecord { (p: SymbolPlan) => RecordFor(p) }

  function StampSymbol(run: nat): SymbolRecord -> StoredSymbol { (r: SymbolRecord) => StoredSymbol(run, r) }

  /** The records of those plans whose write succeeded. */
  function Written(plans: seq<SymbolPlan>, ios: seq<bool>): seq<SymbolRecord>
    requires |ios| >= |plans|
  {
    if plans == [] then []
    else
      var n := |plans| - 1;
      Written(plans[..n], ios) + (if ios[n] then [RecordFor(plans[n])] else [])
  }

  /** The plans are those of the first names, in order. */
  ghost predicate Follows(names: seq<Choice>, plans: seq<SymbolPlan>)
  {
    |plans| <= |names| && forall k :: 0 <= k < |plans| ==> plans[k].symbol == names[k].symbol
  }

  predicate NamesDistinct(names: seq<Choice>)
  {
    forall i, j :: 0 <= i < j < |names| ==> names[i].symbol != names[j].symbol
  }

  /** The next name is new. */
  lemma NextName(names: seq<Choice>, plans: seq<SymbolPlan>)
    requires NamesDistinct(names) && Follows(names, plans)
    ensures forall i, j :: 0 <= i < j < |plans| ==> plans[i].symbol != plans[j].symbol
    ensures |plans| < |names| ==> forall k :: 0 <= k < |plans| ==> plans[k].symbol != names[|plans|].symbol
  {
  }

  ghost predicate HasPlan(plans: seq<SymbolPlan>, sym: string) { exists k :: 0 <= k < |plans| && plans[k].symbol == sym }

  /** Plans of differently named symbols and the contracts they contributed. */
  ghost predicate Laid(plans: seq<SymbolPlan>, flat: seq<Contract>)
  {
    && (forall i, j :: 0 <= i < j < |plans| ==> plans[i].symbol != plans[j].symbol)
    && (forall k :: 0 <= k < |plans| ==> plans[k].planned == Count(flat, IsSymbol(plans[k].symbol)))
    && (forall i :: 0 <= i < |flat| ==> HasPlan(plans, flat[i].symbol))
    && ContractKeysDistinct(flat)
  }

  lemma LaidStep(plans: seq<SymbolPlan>, flat: seq<Contract>, plan: SymbolPlan, more: seq<Contract>)
    requires Laid(plans, flat) && forall k :: 0 <= k < |plans| ==> plans[k].symbol != plan.symbol
    requires plan.planned == |more| && ContractKeysDistinct(more)
    requires forall i :: 0 <= i < |more| ==> more[i].symbol == plan.symbol
    ensures Laid(plans + [plan], flat + more)
  {
    var all := plans + [plan];
    forall k | 0 <= k < |plans| ensures Count(flat + more, IsSymbol(plans[k].symbol)) == plans[k].planned {
      CountConcat(flat, more, IsSymbol(plans[k].symbol));
      CountBounds(more, IsSymbol(plans[k].symbol));
    }
    NewSymbolCount(plans, flat, plan, more);
    AllPlanned(plans, flat, plan, more);
    KeysJoin(flat, more);
  }

  lemma AllPlanned(plans: seq<SymbolPlan>, flat: seq<Contract>, plan: SymbolPlan, more: seq<Contract>)
    requires forall i :: 0 <= i < |flat| ==> HasPlan(plans, flat[i].symbol)
    requires forall i :: 0 <= i < |more| ==> more[i].symbol == plan.symbol
    ensures forall i :: 0 <= i < |flat + more| ==> HasPlan(plans + [plan], (flat + more)[i].symbol)
  {
    var all, cs := plans + [plan], flat + more;
    forall i | 0 <= i < |cs| ensures HasPlan(all, cs[i].symbol) {
      if i < |flat| {
        assert HasPlan(plans, flat[i].symbol);
        var k :| 0 <= k < |plans| && plans[k].symbol == flat[i].symbol;
        assert all[k].symbol == cs[i].symbol;
      } else {
        assert all[|plans|].symbol == cs[i].symbol;
      }
    }
  }

  lemma NewSymbolCount(plans: seq<SymbolPlan>, flat: seq<Contract>, plan: SymbolPlan, more: seq<Contract>)
    requires forall i :: 0 <= i < |flat| ==> HasPlan(plans, flat[i].symbol)
    requires forall k :: 0 <= k < |plans| ==> plans[k].symbol != plan.symbol
    requires forall i :: 0 <= i < |more| ==> more[i].symbol == plan.symbol
    ensures Count(flat + more, IsSymbol(plan.symbol)) == |more|
  {
    CountConcat(flat, more, IsSymbol(plan.symbol));
    CountBounds(more, IsSymbol(plan.symbol));
    CountBounds(flat, IsSymbol(plan.symbol));
  }

  /** The record is that of some plan. */
  predicate FromPlan(plans: seq<SymbolPlan>, r: SymbolRecord) { exists k :: 0 <= k < |plans| && r == RecordFor(plans[k]) }

  lemma {:induction false} WrittenFrom(plans: seq<SymbolPlan>, ios: seq<bool>)
    requires |ios| >= |plans|
    ensures forall i :: 0 <= i < |Written(plans, ios)| ==> FromPlan(plans, Written(plans, ios)[i])
  {
    if plans != [] {
      var n := |plans| - 1;
      WrittenFrom(plans[..n], ios);
      var before := Written(plans[..n], ios);
      forall i | 0 <= i < |before| ensures FromPlan(plans, before[i]) {
        var k :| 0 <= k < n && before[i] == RecordFor(plans[..n][k]);
        assert before[i] == RecordFor(plans[k]);
      }
      assert FromPlan(plans, RecordFor(plans[n]));
    }
  }

  lemma {:induction false} WrittenDistinct(plans: seq<SymbolPlan>, ios: seq<bool>)
    requires |ios| >= |plans| && forall i, j :: 0 <= i < j < |plans| ==> plans[i].symbol != plans[j].symbol
    ensures RecordsDistinct(Written(plans, ios))
  {
    if plans != [] {
      var n := |plans| - 1;
      WrittenDistinct(plans[..n], ios);
      WrittenFrom(plans[..n], ios);
      var before := Written(plans[..n], ios);
      forall i | 0 <= i < |before| ensures before[i].symbol != plans[n].symbol {
        var k :| 0 <= k < n && before[i] == RecordFor(plans[..n][k]);
      }
    }
  }

  lemma {:induction false} AllWritten(plans: seq<SymbolPlan>, ios: seq<bool>)
    requires |ios| >= |plans| && forall i :: 0 <= i < |plans| ==> ios[i]
    ensures Written(plans, ios) == MapSeq(plans, ToRecord())
  {
    if plans != [] {
      var n := |plans| - 1;
      AllWritten(plans[..n], ios);
      MapAppend(plans[..n], plans[n], ToRecord());
      assert plans == plans[..n] + [plans[n]];
    }
  }

  /** What the discovery phase hands to quoting is what quoting and the coverage report rely on. */
  lemma PlanHandedOver(plans: seq<SymbolPlan>, ios: seq<bool>, flat: seq<Contract>, cfg: Config)
    requires Laid(plans, flat) && |ios| == |plans| && cfg.work == OrderContracts(flat)
    ensures RankOrdered(cfg.work) && ContractKeysDistinct(cfg.work) && |cfg.work| == |flat|
    ensures PlanStored(cfg, Written(plans, ios))
    ensures AllWrote(ios) ==> PlanComplete(cfg, Written(plans, ios))
  {
    OrderedWork(flat);
    RecordsTrue(plans, ios, cfg);
    if AllWrote(ios) {
      RecordsCover(plans, ios, flat, cfg);
    }
  }

  lemma RecordsTrue(plans: seq<SymbolPlan>, ios: seq<bool>, cfg: Config)
    requires |ios| == |plans| && forall i, j :: 0 <= i < j < |plans| ==> plans[i].symbol != plans[j].symbol
    requires forall k :: 0 <= k < |plans| ==> plans[k].planned == Count(cfg.work, IsSymbol(plans[k].symbol))
    ensures PlanStored(cfg, Written(plans, ios))
  {
    WrittenFrom(plans, ios);
    WrittenDistinct(plans, ios);
    var w := Written(plans, ios);
    forall k | 0 <= k < |w| ensures w[k].planned == Count(cfg.work, IsSymbol(w[k].symbol)) {
      assert FromPlan(plans, w[k]);
      var j :| 0 <= j < |plans| && w[k] == RecordFor(plans[j]);
    }
  }

  lemma RecordsCover(plans: seq<SymbolPlan>, ios: seq<bool>, flat: seq<Contract>, cfg: Config)
    requires |ios| == |plans| && AllWrote(ios)
    requires forall i :: 0 <= i < |flat| ==> HasPlan(plans, flat[i].symbol)
    requires forall c :: c in cfg.work ==> c in flat
    ensures PlanComplete(cfg, Written(plans, ios))
  {
    AllWritten(plans, ios);
    var w := Written(plans, ios);
    forall i | 0 <= i < |cfg.work| ensures HasRecord(w, cfg.work[i].symbol) {
      assert cfg.work[i] in cfg.work;
      var j :| 0 <= j < |flat| && flat[j] == cfg.work[i];
      var k :| 0 <= k < |plans| && plans[k].symbol == flat[j].symbol;
      assert w[k].symbol == cfg.work[i].symbol;
    }
  }

  /** The table after the plans so far: nothing of this run but their written records. */
  ghost predicate Tabled(before: seq<StoredSymbol>, now: seq<StoredSymbol>, run: nat, plans: seq<SymbolPlan>, ios: seq<bool>)
    requires |ios| >= |plans|
  {
    now == before + MapSeq(Written(plans, ios), StampSymbol(run))
  }

  /** A symbol not planned before never meets the store's constraint. */
  lemma FreshSymbolFits(before: seq<StoredSymbol>, now: seq<StoredSymbol>, run: nat, plans: seq<SymbolPlan>,
                        ios: seq<bool>, plan: SymbolPlan)
    requires |ios| >= |plans| && Tabled(before, now, run, plans, ios) && SymbolsUnique(now)
    requires forall i :: 0 <= i < |before| ==> before[i].run != run
    requires forall i, j :: 0 <= i < j < |plans| ==> plans[i].symbol != plans[j].symbol
    requires forall k :: 0 <= k < |plans| ==> plans[k].symbol != plan.symbol
    ensures SymbolsUnique(now + [StoredSymbol(run, RecordFor(plan))])
  {
    WrittenFrom(plans, ios);
    var w := Written(plans, ios);
    forall i | 0 <= i < |now| && now[i].run == run ensures now[i].record.symbol != plan.symbol {
      assert now[i].record == w[i - |before|];
      assert FromPlan(plans, w[i - |before|]);
      var k :| 0 <= k < |plans| && w[i - |before|] == RecordFor(plans[k]);
    }
  }

  method RecordPlan(store: Store, run: nat, plan: SymbolPlan, io: bool, stop: Option<Reason>,
                    ghost before: seq<StoredSymbol>, ghost names: seq<Choice>, ghost plans: seq<SymbolPlan>, ghost ios: seq<bool>)
    returns (stopped: Option<Reason>)
    requires store.Valid() && |ios| > |plans| && ios[|plans|] == io && Tabled(before, store.symbols, run, plans, ios)
    requires forall i :: 0 <= i < |before| ==> before[i].run != run
    requires NamesDistinct(names) && Follows(names, plans + [plan])
    modifies store`symbols
    ensures store.Valid() && Tabled(before, store.symbols, run, plans + [plan], ios)
    ensures stopped == if io then stop else Some(StoreError)
  {
    assert Follows(names, plans) && plan.symbol == names[|plans|].symbol by {
      assert forall k :: 0 <= k < |plans| ==> (plans + [plan])[k] == plans[k];
      assert (plans + [plan])[|plans|] == plan;
    }
    NextName(names, plans);
    FreshSymbolFits(before, store.symbols, run, plans, ios, plan);
    var ok := store.RecordSymbol(run, RecordFor(plan), io);
    assert (plans + [plan])[..|plans|] == plans;
    stopped := if ok then stop else Some(StoreError);
  }

  /** Why the k-th selected symbol is not discovered: cancellation, the deadline, or an earlier
      record the store could not keep. */
  ghost predicate Abandoned(skippedIo: seq<bool>, moments: seq<Moment>, deadline: int, k: nat)
    requires k < |moments|
  {
    moments[k].cancelled || moments[k].now >= deadline || !AllWrote(skippedIo + MapSeq(moments, IoOf())[..k])
  }

  function Skip(): Choice -> SymbolPlan { (c: Choice) => SymbolPlan(c.symbol, SkippedCap, [], 0) }

  method SkipSymbols(store: Store, run: nat, skipped: seq<Choice>, ios: seq<bool>)
    returns (plans: seq<SymbolPlan>, stop: Option<Reason>)
    requires store.Valid() && |ios| >= |skipped| && forall i :: 0 <= i < |store.symbols| ==> store.symbols[i].run != run
    requires NamesDistinct(skipped)
    modifies store`symbols
    ensures plans == MapSeq(skipped, Skip())
    ensures store.Valid() && Tabled(old(store.symbols), store.symbols, run, plans, ios)
    ensures Laid(plans, [])
    ensures stop == if AllWrote(ios[..|skipped|]) then None else Some(StoreError)
  {
    plans, stop := [], None;
    for i := 0 to |skipped|
      invariant store.Valid() && |plans| == i && Tabled(old(store.symbols), store.symbols, run, plans, ios)
      invariant forall k :: 0 <= k < i ==> plans[k] == SymbolPlan(skipped[k].symbol, SkippedCap, [], 0)
      invariant stop == if AllWrote(ios[..i]) then None else Some(StoreError)
    {
      var plan := SymbolPlan(skipped[i].symbol, SkippedCap, [], 0);
      stop := RecordPlan(store, run, plan, ios[i], stop, old(store.symbols), skipped, plans, ios);
      assert ios[..i + 1] == ios[..i] + [ios[i]];
      plans := plans + [plan];
    }
  }

  /** The world of a discovery phase. */
  datatype Circumstances = Circumstances(skippedIo: seq<bool>, moments: seq<Moment>, today: int, deadline: int, days: Sessions)

  /** A symbol whose turn came either got no plan and gave no contract, or is planned as the
      broker's answers say. */
  ghost predicate TurnOutcome(choice: Choice, sym: nat, m: Moment, today: int, days: Sessions,
                              plan: SymbolPlan, cs: seq<Contract>)
  {
    if plan.status == NotDiscovered then plan == SymbolPlan(choice.symbol, NotDiscovered, [], 0) && cs == []
    else DiscoveredAs(choice.symbol, sym, m.probe, today, days, plan, cs)
  }

  /** What a symbol's turn may result in. */
  type TurnRule = (Choice, nat, SymbolPlan, seq<Contract>) -> bool

  ghost function OutcomeIn(ph: Circumstances): TurnRule
  {
    (choice: Choice, i: nat, plan: SymbolPlan, cs: seq<Contract>) =>
      i < |ph.moments| && TurnOutcome(choice, i, ph.moments[i], ph.today, ph.days, plan, cs)
  }

  /** One turn of the loop over selected symbols. */
  method DiscoverOne(choice: Choice, i: nat, ph: Circumstances, stop: Option<Reason>)
    returns (plan: SymbolPlan, cs: seq<Contract>)
    requires i < |ph.moments|
    ensures plan.symbol == choice.symbol && plan.planned == |cs| && OwnContracts(cs, choice.symbol, i, ph.today)
    ensures plan.status == NotDiscovered <==> ph.moments[i].cancelled || ph.moments[i].now >= ph.deadline || stop.Some?
    ensures OutcomeIn(ph)(choice, i, plan, cs)
  {
    var m := ph.moments[i];
    if m.cancelled || m.now >= ph.deadline || stop.Some? {
      return SymbolPlan(choice.symbol, NotDiscovered, [], 0), [];
    }
    plan, cs := Discover(choice.symbol, i, m.probe, ph.today, ph.days);
  }

  /** The skipped symbols are marked as such; the selected ones are left undiscovered exactly when
      they were abandoned, and otherwise planned from their probes. */
  ghost predicate Judged(ph: Circumstances, outcome: TurnRule, names: seq<Choice>, plans: seq<SymbolPlan>,
                         parts: seq<seq<Contract>>)
  {
    && |ph.skippedIo| <= |plans| == |parts| <= |names| == |ph.skippedIo| + |ph.moments|
    && SkippedFirst(|ph.skippedIo|, names, plans, parts) && TurnsTaken(ph, outcome, names, plans, parts)
  }

  ghost predicate SkippedFirst(n: nat, names: seq<Choice>, plans: seq<SymbolPlan>, parts: seq<seq<Contract>>)
    requires n <= |plans| == |parts| <= |names|
  {
    forall k :: 0 <= k < n ==> plans[k] == SymbolPlan(names[k].symbol, SkippedCap, [], 0) && parts[k] == []
  }

  ghost predicate TurnsTaken(ph: Circumstances, outcome: TurnRule, names: seq<Choice>, plans: seq<SymbolPlan>,
                             parts: seq<seq<Contract>>)
    requires |ph.skippedIo| <= |plans| == |parts| <= |names| == |ph.skippedIo| + |ph.moments|
  {
    var n := |ph.skippedIo|;
    forall k :: n <= k < |plans| ==> TurnTaken(ph, outcome, names[k], k - n, plans[k], parts[k])
  }

  ghost predicate TurnTaken(ph: Circumstances, outcome: TurnRule, choice: Choice, i: nat, plan: SymbolPlan, part: seq<Contract>)
    requires i < |ph.moments|
  {
    && (plan.status == NotDiscovered <==> Abandoned(ph.skippedIo, ph.moments, ph.deadline, i))
    && outcome(choice, i, plan, part)
  }

  /** One of the first n selected symbols was abandoned. */
  ghost predicate Gap(ph: Circumstances, n: nat)
    requires n <= |ph.moments|
  {
    exists k :: 0 <= k < n && Abandoned(ph.skippedIo, ph.moments, ph.deadline, k)
  }

  lemma SkippedStep(n: nat, names: seq<Choice>, plans: seq<SymbolPlan>, parts: seq<seq<Contract>>,
                    plan: SymbolPlan, part: seq<Contract>)
    requires n <= |plans| == |parts| < |names| && SkippedFirst(n, names, plans, parts)
    ensures SkippedFirst(n, names, plans + [plan], parts + [part])
  {
    assert forall k :: 0 <= k < n ==> (plans + [plan])[k] == plans[k] && (parts + [part])[k] == parts[k];
  }

  lemma TurnsStep(ph: Circumstances, outcome: TurnRule, names: seq<Choice>, plans: seq<SymbolPlan>,
                  parts: seq<seq<Contract>>, plan: SymbolPlan, part: seq<Contract>)
    requires |ph.skippedIo| <= |plans| == |parts| < |names| == |ph.skippedIo| + |ph.moments|
    requires TurnsTaken(ph, outcome, names, plans, parts)
    requires TurnTaken(ph, outcome, names[|plans|], |plans| - |ph.skippedIo|, plan, part)
    ensures TurnsTaken(ph, outcome, names, plans + [plan], parts + [part])
  {
    var n, ps, qs := |ph.skippedIo|, plans + [plan], parts + [part];
    forall k | n <= k < |ps| ensures TurnTaken(ph, outcome, names[k], k - n, ps[k], qs[k]) {
      if k < |plans| {
        assert ps[k] == plans[k] && qs[k] == parts[k];
        assert TurnTaken(ph, outcome, names[k], k - n, plans[k], parts[k]);
      } else {
        assert ps[k] == plan && qs[k] == part;
      }
    }
  }

  lemma JudgedStep(ph: Circumstances, outcome: TurnRule, names: seq<Choice>, plans: seq<SymbolPlan>,
                   parts: seq<seq<Contract>>, plan: SymbolPlan, part: seq<Contract>)
    requires Judged(ph, outcome, names, plans, parts) && |plans| < |names|
    requires TurnTaken(ph, outcome, names[|plans|], |plans| - |ph.skippedIo|, plan, part)
    ensures Judged(ph, outcome, names, plans + [plan], parts + [part])
  {
    SkippedStep(|ph.skippedIo|, names, plans, parts, plan, part);
    TurnsStep(ph, outcome, names, plans, parts, plan, part);
  }

  lemma GapStep(ph: Circumstances, i: nat)
    requires i < |ph.moments|
    ensures Gap(ph, i + 1) == (Gap(ph, i) || Abandoned(ph.skippedIo, ph.moments, ph.deadline, i))
  {
  }

  /** Whether each write of the phase succeeds: the skipped symbols' first. */
  function Ios(ph: Circumstances): (r: seq<bool>)
    ensures |r| == |ph.skippedIo| + |ph.moments|
  {
    ph.skippedIo + MapSeq(ph.moments, IoOf())
  }

  /** Where discovery stands after the plans so far: parts holds what each symbol contributed, flat
      all of it. */
  ghost predicate Stood(ph: Circumstances, outcome: TurnRule, names: seq<Choice>, plans: seq<SymbolPlan>,
                        parts: seq<seq<Contract>>,
                        flat: seq<Contract>, stop: Option<Reason>, incomplete: bool)
  {
    && Judged(ph, outcome, names, plans, parts)
    && Follows(names, plans) && Laid(plans, flat) && flat == Flatten(parts)
    && stop == (if AllWrote(Ios(ph)[..|plans|]) then None else Some(StoreError))
    && incomplete == Gap(ph, |plans| - |ph.skippedIo|)
  }

  ghost predicate Standing(ph: Circumstances, names: seq<Choice>, plans: seq<SymbolPlan>, parts: seq<seq<Contract>>,
                           flat: seq<Contract>, stop: Option<Reason>, incomplete: bool)
  {
    Stood(ph, OutcomeIn(ph), names, plans, parts, flat, stop, incomplete)
  }

  /** The stop seen at a symbol's turn is the store's failure before it. */
  lemma TurnMeaning(ph: Circumstances, i: nat)
    requires i < |ph.moments|
    ensures Ios(ph)[..|ph.skippedIo| + i] == ph.skippedIo + MapSeq(ph.moments, IoOf())[..i]
    ensures AllWrote(Ios(ph)[..|ph.skippedIo| + i + 1]) <==> AllWrote(Ios(ph)[..|ph.skippedIo| + i]) && ph.moments[i].io
  {
    var n := |ph.skippedIo| + i;
    assert Ios(ph)[..n + 1] == Ios(ph)[..n] + [ph.moments[i].io];
    WroteOneMore(Ios(ph)[..n], ph.moments[i].io);
  }

  lemma WroteOneMore(ios: seq<bool>, io: bool)
    ensures AllWrote(ios + [io]) <==> AllWrote(ios) && io
  {
    if AllWrote(ios + [io]) {
      assert (ios + [io])[|ios|] == io;
      assert forall i :: 0 <= i < |ios| ==> (ios + [io])[i] == ios[i];
    }
  }

  /** What the loop reads of stop, cancellation and clock is whether the symbol is abandoned. */
  lemma StopMeaning(ph: Circumstances, plans: seq<SymbolPlan>, i: nat, stop: Option<Reason>)
    requires i < |ph.moments| && |plans| == |ph.skippedIo| + i
    requires stop == (if AllWrote(Ios(ph)[..|plans|]) then None else Some(StoreError))
    ensures var m := ph.moments[i];
            && (Abandoned(ph.skippedIo, ph.moments, ph.deadline, i) <==> m.cancelled || m.now >= ph.deadline || stop.Some?)
            && (if m.io then stop else Some(StoreError)) == if AllWrote(Ios(ph)[..|plans| + 1]) then None else Some(StoreError)
  {
    TurnMeaning(ph, i);
  }

  lemma StoodStep(ph: Circumstances, outcome: TurnRule, names: seq<Choice>, plans: seq<SymbolPlan>, parts: seq<seq<Contract>>,
                  flat: seq<Contract>, stop: Option<Reason>, incomplete: bool, i: nat, plan: SymbolPlan, part: seq<Contract>)
    requires NamesDistinct(names) && Stood(ph, outcome, names, plans, parts, flat, stop, incomplete)
    requires i < |ph.moments| && |plans| == |ph.skippedIo| + i
    requires plan.symbol == names[|plans|].symbol && plan.planned == |part| && OwnContracts(part, plan.symbol, i, ph.today)
    requires plan.status == NotDiscovered <==> ph.moments[i].cancelled || ph.moments[i].now >= ph.deadline || stop.Some?
    requires outcome(names[|plans|], i, plan, part)
    ensures Stood(ph, outcome, names, plans + [plan], parts + [part], flat + part,
                  if ph.moments[i].io then stop else Some(StoreError), incomplete || plan.status == NotDiscovered)
  {
    StopMeaning(ph, plans, i, stop);
    JudgedStep(ph, outcome, names, plans, parts, plan, part);
    GapStep(ph, i);
    LaidNext(names, plans, flat, plan, part);
    FlattenAppend(parts, part);
  }

  lemma LaidNext(names: seq<Choice>, plans: seq<SymbolPlan>, flat: seq<Contract>, plan: SymbolPlan, part: seq<Contract>)
    requires NamesDistinct(names) && Follows(names, plans) && |plans| < |names| && Laid(plans, flat)
    requires plan.symbol == names[|plans|].symbol && plan.planned == |part| && ContractKeysDistinct(part)
    requires forall i :: 0 <= i < |part| ==> part[i].symbol == plan.symbol
    ensures Follows(names, plans + [plan]) && Laid(plans + [plan], flat + part)
  {
    NextName(names, plans);
    LaidStep(plans, flat, plan, part);
  }

  lemma StandingStart(ph: Circumstances, names: seq<Choice>, skipped: seq<Choice>, plans: seq<SymbolPlan>)
    requires |names| == |ph.skippedIo| + |ph.moments| && skipped <= names && |skipped| == |ph.skippedIo|
    requires plans == MapSeq(skipped, Skip()) && Laid(plans, [])
    ensures Standing(ph, names, plans, seq(|skipped|, _ => []), [],
                     if AllWrote(Ios(ph)[..|skipped|]) then None else Some(StoreError), false)
  {
    NothingFlattened(|skipped|);
  }

  lemma {:induction false} NothingFlattened(n: nat)
    ensures Flatten(seq<seq<Contract>>(n, _ => [])) == []
  {
    if n > 0 {
      NothingFlattened(n - 1);
      assert seq<seq<Contract>>(n, _ => [])[1..] == seq<seq<Contract>>(n - 1, _ => []);
    }
  }

  /** The end of a turn: the plan is recorded. */
  method RecordTurn(store: Store, run: nat, i: nat, ph: Circumstances, ghost outcome: TurnRule, ghost plans: seq<SymbolPlan>,
                    stop: Option<Reason>, ghost before: seq<StoredSymbol>, ghost names: seq<Choice>, ghost parts: seq<seq<Contract>>,
                    ghost flat: seq<Contract>, ghost incomplete: bool, plan: SymbolPlan, ghost more: seq<Contract>)
    returns (stopped: Option<Reason>)
    requires store.Valid() && NamesDistinct(names) && forall k :: 0 <= k < |before| ==> before[k].run != run
    requires i < |ph.moments| && |plans| == |ph.skippedIo| + i < |names|
    requires Stood(ph, outcome, names, plans, parts, flat, stop, incomplete) && Tabled(before, store.symbols, run, plans, Ios(ph))
    requires plan.symbol == names[|plans|].symbol && plan.planned == |more| && OwnContracts(more, plan.symbol, i, ph.today)
    requires plan.status == NotDiscovered <==> ph.moments[i].cancelled || ph.moments[i].now >= ph.deadline || stop.Some?
    requires outcome(names[|plans|], i, plan, more)
    modifies store`symbols
    ensures Stood(ph, outcome, names, plans + [plan], parts + [more], flat + more, stopped,
                  incomplete || plan.status == NotDiscovered)
    ensures store.Valid() && Tabled(before, store.symbols, run, plans + [plan], Ios(ph))
  {
    StoodStep(ph, outcome, names, plans, parts, flat, stop, incomplete, i, plan, more);
    assert Ios(ph)[|plans|] == ph.moments[i].io;
    stopped := RecordPlan(store, run, plan, ph.moments[i].io, stop, before, names, plans, Ios(ph));
  }

  /** The loop over the selected symbols, the skipped ones being recorded. */
  method DiscoverSelected(store: Store, run: nat, selected: seq<Choice>, ph: Circumstances,
                          plans0: seq<SymbolPlan>, stop0: Option<Reason>,
                          ghost before: seq<StoredSymbol>, ghost names: seq<Choice>, ghost parts0: seq<seq<Contract>>)
    returns (found: seq<Contract>, plans: seq<SymbolPlan>, stop: Option<Reason>, incomplete: bool, ghost parts: seq<seq<Contract>>)
    requires store.Valid() && NamesDistinct(names) && forall i :: 0 <= i < |before| ==> before[i].run != run
    requires |ph.moments| == |selected| && |plans0| == |ph.skippedIo| && |names| == |plans0| + |selected|
    requires names[|plans0|..] == selected
    requires Standing(ph, names, plans0, parts0, [], stop0, false)
    requires Tabled(before, store.symbols, run, plans0, Ios(ph))
    modifies store`symbols
    ensures |plans| == |names| && Standing(ph, names, plans, parts, found, stop, incomplete)
    ensures store.Valid() && Tabled(before, store.symbols, run, plans, Ios(ph))
  {
    found, plans, stop, incomplete, parts := [], plans0, stop0, false, parts0;
    for i := 0 to |selected|
      invariant |plans| == |plans0| + i && Stood(ph, OutcomeIn(ph), names, plans, parts, found, stop, incomplete)
      invariant store.Valid() && Tabled(before, store.symbols, run, plans, Ios(ph))
    {
      assert names[|plans0| + i] == names[|plans0|..][i];
      var plan, more := DiscoverOne(selected[i], i, ph, stop);
      var stopped := RecordTurn(store, run, i, ph, OutcomeIn(ph), plans, stop, before, names, parts, found, incomplete,
                                plan, more);
      if plan.status == NotDiscovered {
        incomplete := true;
      }
      plans, found, parts, stop := plans + [plan], found + more, parts + [more], stopped;
    }
  }

  /** Discovery over all symbols: the skipped ones are recorded first, every record meets the
      store's constraint, and the work is the ordered union of what the symbols contributed. */
  method DiscoverAll(store: Store, run: nat, selected: seq<Choice>, skipped: seq<Choice>, ph: Circumstances)
    returns (work: seq<Contract>, plans: seq<SymbolPlan>, stop: Option<Reason>, incomplete: bool,
             ghost parts: seq<seq<Contract>>, ghost flat: seq<Contract>)
    requires store.Valid() && forall i :: 0 <= i < |store.symbols| ==> store.symbols[i].run != run
    requires |ph.skippedIo| == |skipped| && |ph.moments| == |selected|
    requires NamesDistinct(skipped) && NamesDistinct(skipped + selected)
    modifies store`symbols
    ensures |plans| == |skipped + selected| && Standing(ph, skipped + selected, plans, parts, flat, stop, incomplete)
    ensures store.Valid() && Tabled(old(store.symbols), store.symbols, run, plans, Ios(ph))
    ensures work == OrderContracts(flat)
  {
    ghost var names := skipped + selected;
    var skips, failed := SkipSymbols(store, run, skipped, Ios(ph));
    ghost var nothing: seq<seq<Contract>> := seq(|skipped|, _ => []);
    StandingStart(ph, names, skipped, skips);
    assert names[|skips|..] == selected;
    var found;
    found, plans, stop, incomplete, parts :=
      DiscoverSelected(store, run, selected, ph, skips, failed, old(store.symbols), names, nothing);
    flat := found;
    work := OrderContracts(found);
  }

  /** The answers of the world fix every plan and the work itself. */
  lemma WorkDetermined(ph: Circumstances, names: seq<Choice>,
                       a: seq<SymbolPlan>, x: seq<seq<Contract>>, f: seq<Contract>, s: Option<Reason>, p: bool,
                       b: seq<SymbolPlan>, y: seq<seq<Contract>>, g: seq<Contract>, t: Option<Reason>, q: bool)
    requires Standing(ph, names, a, x, f, s, p) && Standing(ph, names, b, y, g, t, q) && |a| == |b| == |names|
    ensures a == b && OrderContracts(f) == OrderContracts(g) && s == t && p == q
  {
    JudgedDetermined(ph, names, a, x, b, y);
  }

  lemma JudgedDetermined(ph: Circumstances, names: seq<Choice>, a: seq<SymbolPlan>, x: seq<seq<Contract>>,
                         b: seq<SymbolPlan>, y: seq<seq<Contract>>)
    requires Judged(ph, OutcomeIn(ph), names, a, x) && Judged(ph, OutcomeIn(ph), names, b, y) && |a| == |b| == |names|
    ensures x == y && a == b
  {
    var n := |ph.skippedIo|;
    forall k | n <= k < |names| ensures a[k] == b[k] && x[k] == y[k] {
      TurnDetermined(ph, names[k], k - n, a[k], x[k], b[k], y[k]);
    }
    forall k | 0 <= k < |x| ensures x[k] == y[k] && a[k] == b[k] {
    }
  }

  lemma TurnDetermined(ph: Circumstances, choice: Choice, i: nat, a: SymbolPlan, x: seq<Contract>,
                       b: SymbolPlan, y: seq<Contract>)
    requires i < |ph.moments| && TurnTaken(ph, OutcomeIn(ph), choice, i, a, x) && TurnTaken(ph, OutcomeIn(ph), choice, i, b, y)
    ensures a == b && x == y
  {
    if a.status != NotDiscovered {
      DiscoveryDetermined(choice.symbol, i, ph.moments[i].probe, ph.today, ph.days, a, x, b, y);
    }
  }

  /** Symbols resolve selected first and are recorded skipped first. */
  lemma RecordingOrder(selected: seq<Choice>, skipped: seq<Choice>)
    requires NamesDistinct(selected + skipped)
    ensures NamesDistinct(skipped) && NamesDistinct(skipped + selected)
  {
    var a, b := selected + skipped, skipped + selected;
    assert forall i :: 0 <= i < |selected| ==> a[i] == selected[i];
    assert forall i :: 0 <= i < |skipped| ==> a[|selected| + i] == skipped[i];
    assert forall i :: 0 <= i < |b| ==> b[i] == if i < |skipped| then a[|selected| + i] else a[i - |skipped|];
  }

  // ----- The whole run -----

  /** A run from its first symbol to any moment of quoting: the constraint of the store never
      costs it a batch, the coverage read back adds up wherever the process stopped, and once
      closed with its store intact the reported outcome is the one read back, complete exactly
      when every contract was attempted and no selected symbol was abandoned. */
  lemma WholeRun(ph: Circumstances, names: seq<Choice>, plans: seq<SymbolPlan>, parts: seq<seq<Contract>>, flat: seq<Contract>,
                 stop: Option<Reason>, cfg: Config, start: State, es: seq<Event>, rs: seq<SymbolResult>, total: ChainCoverage, held: bool)
    requires |plans| == |names| && Standing(ph, names, plans, parts, flat, stop, cfg.undiscovered)
    requires cfg.work == OrderContracts(flat) && cfg.deadline == ph.deadline
    requires Initial(cfg, start) && start.shared.stop == stop && Possible(cfg, start, es)
    requires Filled(After(cfg, start, es).persisted, Written(plans, Ios(ph)), rs, total)
    ensures var s := After(cfg, start, es);
            && Stores(s, true)
            && (forall k :: 0 <= k < |rs| ==> rs[k].coverage.attempted + rs[k].coverage.notAttempted == rs[k].coverage.planned)
            && total.attempted + total.notAttempted == total.planned
            && (s.closed && s.shared.stop != Some(StoreError) ==>
                  var out := Closing(s.shared, held);
                  && out.planned == total.planned && out.attempted == total.attempted && out.quoted == total.quoted
                  && (out.status == RunComplete <==>
                        && |cfg.work| >= 1 && (forall k: nat :: k < |cfg.work| ==> Attempted(s, k))
                        && !Gap(ph, |ph.moments|)))
  {
    var s, ios := After(cfg, start, es), Ios(ph);
    assert ios[..|plans|] == ios;
    PlanHandedOver(plans, ios, flat, cfg);
    StoredPrefixGrows(cfg, start, es);
    UniquenessNeverFails(cfg, s, true);
    CoverageAtEveryCrash(cfg, s, Written(plans, ios), rs, total);
    if s.closed && s.shared.stop != Some(StoreError) {
      NeverRecovers(cfg, start, es);
      StoreAgreesWithOutcome(cfg, s, Written(plans, ios), rs, total, held);
      StatusMeans(cfg, s, held);
    }
  }

  /** A run whose process dies inside discovery, after any number of symbols: each record that was
      written carries what its symbol contributed, all of it counts as not attempted, and the
      totals are the sums. */
  lemma CrashInDiscovery(ph: Circumstances, names: seq<Choice>, plans: seq<SymbolPlan>,
                         parts: seq<seq<Contract>>, flat: seq<Contract>,
                         stop: Option<Reason>, incomplete: bool, rs: seq<SymbolResult>, total: ChainCoverage)
    requires Standing(ph, names, plans, parts, flat, stop, incomplete)
    requires Filled([], Written(plans, Ios(ph)), rs, total)
    ensures RecordsDistinct(Written(plans, Ios(ph)))
    ensures forall k :: 0 <= k < |Written(plans, Ios(ph))| ==>
              var r := Written(plans, Ios(ph))[k];
              && rs[k].symbol == r.symbol && r.planned == Count(flat, IsSymbol(r.symbol))
              && rs[k].coverage.attempted == 0 && rs[k].coverage.notAttempted == rs[k].coverage.planned == r.planned
    ensures total.attempted == 0 && total.notAttempted == total.planned
  {
    var w := Written(plans, Ios(ph));
    CoverageWithoutRows(w, rs, total);
    WrittenDistinct(plans, Ios(ph));
    WrittenFrom(plans, Ios(ph));
    forall k | 0 <= k < |w| ensures w[k].planned == Count(flat, IsSymbol(w[k].symbol)) {
      assert FromPlan(plans, w[k]);
      var j :| 0 <= j < |plans| && w[k] == RecordFor(plans[j]);
    }
  }

  /** A run whose store failed ends with that reason. */
  lemma {:induction false} NeverRecovers(cfg: Config, s: State, es: seq<Event>)
    requires Possible(cfg, s, es)
    ensures s.shared.stop == Some(StoreError) ==> After(cfg, s, es).shared.stop == Some(StoreError)
    decreases |es|
  {
    if es != [] {
      StopClimbs(cfg, s, es[0]);
      NeverRecovers(cfg, Apply(cfg, s, es[0]), es[1..]);
    }
  }
}
