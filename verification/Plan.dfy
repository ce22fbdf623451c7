/** Discovery: from the resolved symbols to the ordered work and its stored plan. */
module Plan {
  import opened Sequences
  import opened Contracts
  import opened Calendar
  import opened Sorting
  import opened Strikes
  import opened Expiries
  import opened Coverage
  import opened RecorderRuns

  const STRIKE_WINDOW_PCT: real := 0.20

  /** What the bulk contract resolution proved about one contract. */
  datatype Proof = Listed | Unlisted | Unproved

  type Resolution = (string, int, real, Right) -> Proof

  /** Everything the broker answers about one symbol; a missing answer was an error. */
  datatype Probe = Probe(listed: Option<seq<ListedExpiry>>, spot: Option<real>, resolution: Resolution)

  datatype SymbolStatus = SymbolPlanned | ChainUnavailable | SpotUnavailable | NoExpiries | SkippedCap | NotDiscovered

  datatype PlannedExpiry = PlannedExpiry(
    date: int, tradingClass: string, slot: Slot, inWindow: nat, selected: nat, contracts: nat)

  datatype SymbolPlan = SymbolPlan(symbol: string, status: SymbolStatus, expiries: seq<PlannedExpiry>, planned: nat)

  /** A contract is kept unless the resolution proved it unlisted. */
  predicate Kept(r: Resolution, e: SelectedExpiry, k: real, right: Right)
  {
    r(e.tradingClass, e.date, k, right) != Unlisted
  }

  function ContractFor(symbol: string, sym: nat, e: SelectedExpiry, k: real, right: Right, rank: nat): Contract
  {
    Contract(symbol, e.tradingClass, e.date, e.slot, k, right, rank, sym)
  }

  /** The call and the put of one strike, as far as they are kept. */
  function StrikePair(symbol: string, sym: nat, e: SelectedExpiry, r: Resolution, k: real, rank: nat): seq<Contract>
  {
    (if Kept(r, e, k, Call) then [ContractFor(symbol, sym, e, k, Call, rank)] else [])
    + (if Kept(r, e, k, Put) then [ContractFor(symbol, sym, e, k, Put, rank)] else [])
  }

  function ExpiryContracts(symbol: string, sym: nat, e: SelectedExpiry, r: Resolution, chosen: seq<real>,
                           ranks: map<real, nat>): seq<Contract>
    requires forall k :: k in chosen ==> k in ranks
  {
    if chosen == [] then []
    else
      var n := |chosen| - 1;
      assert chosen[n] in chosen;
      ExpiryContracts(symbol, sym, e, r, chosen[..n], ranks) + StrikePair(symbol, sym, e, r, chosen[n], ranks[chosen[n]])
  }

  /** Every contract names this symbol and expiry and one of these strikes. */
  ghost predicate From(cs: seq<Contract>, symbol: string, sym: nat, e: SelectedExpiry, strikes: seq<real>)
  {
    forall i :: 0 <= i < |cs| ==>
      && cs[i].symbol == symbol && cs[i].sym == sym && cs[i].expiry == e.date && cs[i].tradingClass == e.tradingClass
      && cs[i].slot == e.slot && cs[i].strike in strikes
  }

  /** Distinct keys survive joining with contracts whose keys are elsewhere. */
  lemma KeysJoin(a: seq<Contract>, b: seq<Contract>)
    requires ContractKeysDistinct(a) && ContractKeysDistinct(b)
    requires forall i, j :: 0 <= i < |a| && 0 <= j < |b| ==> KeyOf(a[i]) != KeyOf(b[j])
    ensures ContractKeysDistinct(a + b)
  {
  }

  lemma {:induction false} ExpiryKeys(symbol: string, sym: nat, e: SelectedExpiry, r: Resolution,
                                      chosen: seq<real>, ranks: map<real, nat>)
    requires StrictlyAscending(chosen) && forall k :: k in chosen ==> k in ranks
    ensures var cs := ExpiryContracts(symbol, sym, e, r, chosen, ranks);
            ContractKeysDistinct(cs) && From(cs, symbol, sym, e, chosen)
  {
    if chosen != [] {
      var n := |chosen| - 1;
      ExpiryKeys(symbol, sym, e, r, chosen[..n], ranks);
      assert chosen[n] in chosen;
      var a, b := ExpiryContracts(symbol, sym, e, r, chosen[..n], ranks), StrikePair(symbol, sym, e, r, chosen[n], ranks[chosen[n]]);
      forall i | 0 <= i < |a| ensures a[i].strike in chosen && a[i].strike != chosen[n] {
        assert a[i].strike in chosen[..n];
      }
      KeysJoin(a, b);
    }
  }

  /** The kept contracts of the chosen strikes, and nothing else. */
  lemma {:induction false} ExpiryComplete(symbol: string, sym: nat, e: SelectedExpiry, r: Resolution,
                                          chosen: seq<real>, ranks: map<real, nat>, k: real, right: Right)
    requires forall x :: x in chosen ==> x in ranks
    requires k in chosen
    ensures ContractFor(symbol, sym, e, k, right, ranks[k]) in ExpiryContracts(symbol, sym, e, r, chosen, ranks)
            <==> Kept(r, e, k, right)
  {
    var n := |chosen| - 1;
    assert chosen == chosen[..n] + [chosen[n]];
    assert chosen[n] in chosen;
    if k in chosen[..n] {
      ExpiryComplete(symbol, sym, e, r, chosen[..n], ranks, k, right);
    } else {
      ExpiryOnly(symbol, sym, e, r, chosen[..n], ranks);
    }
  }

  lemma {:induction false} ExpiryOnly(symbol: string, sym: nat, e: SelectedExpiry, r: Resolution,
                                      chosen: seq<real>, ranks: map<real, nat>)
    requires forall x :: x in chosen ==> x in ranks
    ensures forall c :: c in ExpiryContracts(symbol, sym, e, r, chosen, ranks) ==> c.strike in chosen
  {
    if chosen != [] {
      var n := |chosen| - 1;
      assert chosen[n] in chosen;
      ExpiryOnly(symbol, sym, e, r, chosen[..n], ranks);
    }
  }

  /** Strikes of which at least one side is kept. */
  function Candidate(r: Resolution, e: SelectedExpiry): real -> bool
  {
    (k: real) => Kept(r, e, k, Call) || Kept(r, e, k, Put)
  }

  function AsListing(s: seq<real>): seq<Listing> { MapSeq(s, (k: real) => Finite(k)) }

  /** The strikes planned for one expiry and how many the window held. */
  ghost predicate ExpiryPlanned(symbol: string, sym: nat, e: SelectedExpiry, spot: real, r: Resolution,
                                pe: PlannedExpiry, w: Working)
  {
    var Working(chosen, ranks, cs) := w;
    && Selected(AsListing(Filter(e.strikes, Candidate(r, e))), spot, 0.20, 40, chosen, pe.inWindow)
    && (forall k :: k in ranks <==> k in chosen)
    && (forall k :: k in chosen ==> ranks[k] == Count(chosen, BeforeStrike(spot, k)))
    && cs == ExpiryContracts(symbol, sym, e, r, chosen, ranks)
    && pe == PlannedExpiry(e.date, e.tradingClass, e.slot, pe.inWindow, |chosen|, |cs|)
  }

  method ListContracts(symbol: string, sym: nat, e: SelectedExpiry, r: Resolution, chosen: seq<real>, ranks: map<real, nat>)
    returns (cs: seq<Contract>)
    requires forall k :: k in chosen ==> k in ranks
    ensures cs == ExpiryContracts(symbol, sym, e, r, chosen, ranks)
  {
    cs := [];
    for i := 0 to |chosen|
      invariant cs == ExpiryContracts(symbol, sym, e, r, chosen[..i], ranks)
    {
      assert chosen[..i + 1][..i] == chosen[..i];
      assert chosen[i] in chosen;
      var k := chosen[i];
      var pair := [];
      if Kept(r, e, k, Call) {
        pair := pair + [Contract(symbol, e.tradingClass, e.date, e.slot, k, Call, ranks[k], sym)];
      }
      if Kept(r, e, k, Put) {
        pair := pair + [Contract(symbol, e.tradingClass, e.date, e.slot, k, Put, ranks[k], sym)];
      }
      cs := cs + pair;
    }
    assert chosen[..|chosen|] == chosen;
  }

  method PlanExpiry(symbol: string, sym: nat, e: SelectedExpiry, spot: real, r: Resolution)
    returns (pe: PlannedExpiry, cs: seq<Contract>, ghost w: Working)
    requires spot > 0.0
    ensures ExpiryPlanned(symbol, sym, e, spot, r, pe, w) && w.contracts == cs
    ensures ContractKeysDistinct(cs) && From(cs, symbol, sym, e, w.chosen)
  {
    var candidates := Keep(e.strikes, Candidate(r, e));
    var picked, inWindow := SelectStrikes(AsListing(candidates), spot, STRIKE_WINDOW_PCT, MAX_STRIKES_PER_EXPIRY);
    var rank := AtmRanks(picked, spot);
    cs := ListContracts(symbol, sym, e, r, picked, rank);
    ExpiryKeys(symbol, sym, e, r, picked, rank);
    w := Working(picked, rank, cs);
    pe := PlannedExpiry(e.date, e.tradingClass, e.slot, inWindow, |picked|, |cs|);
  }

  /** All contracts of one symbol, with distinct keys, in expiries of a list. */
  ghost predicate SymbolContracts(cs: seq<Contract>, symbol: string, sym: nat, dates: seq<int>)
  {
    && ContractKeysDistinct(cs)
    && forall i :: 0 <= i < |cs| ==> cs[i].symbol == symbol && cs[i].sym == sym && cs[i].expiry in dates
  }

  function DatesOf(es: seq<SelectedExpiry>): seq<int> { MapSeq(es, (e: SelectedExpiry) => e.date) }

  function ContractsIn(): PlannedExpiry -> nat { (p: PlannedExpiry) => p.contracts }

  /** How one expiry was planned: the strikes chosen, their ranks and the contracts kept. */
  datatype Working = Working(chosen: seq<real>, ranks: map<real, nat>, contracts: seq<Contract>)

  function Gathered(ws: seq<Working>): seq<Contract>
  {
    if ws == [] then [] else Gathered(ws[..|ws| - 1]) + ws[|ws| - 1].contracts
  }

  /** Every selected expiry is planned, in order. */
  ghost predicate ExpiriesPlanned(symbol: string, sym: nat, es: seq<SelectedExpiry>, spot: real, r: Resolution,
                                  pes: seq<PlannedExpiry>, ws: seq<Working>)
  {
    |pes| == |ws| == |es| && forall i :: 0 <= i < |es| ==> ExpiryPlanned(symbol, sym, es[i], spot, r, pes[i], ws[i])
  }

  lemma PlannedNext(symbol: string, sym: nat, es: seq<SelectedExpiry>, i: nat, spot: real, r: Resolution,
                    pes: seq<PlannedExpiry>, ws: seq<Working>, pe: PlannedExpiry, w: Working)
    requires i < |es| && ExpiriesPlanned(symbol, sym, es[..i], spot, r, pes, ws)
    requires ExpiryPlanned(symbol, sym, es[i], spot, r, pe, w)
    ensures ExpiriesPlanned(symbol, sym, es[..i + 1], spot, r, pes + [pe], ws + [w])
  {
    forall k | 0 <= k < i ensures ExpiryPlanned(symbol, sym, es[..i + 1][k], spot, r, (pes + [pe])[k], (ws + [w])[k]) {
      assert ExpiryPlanned(symbol, sym, es[..i][k], spot, r, pes[k], ws[k]);
    }
  }

  lemma GatheredNext(ws: seq<Working>, w: Working)
    ensures Gathered(ws + [w]) == Gathered(ws) + w.contracts
  {
    assert (ws + [w])[..|ws|] == ws;
  }

  method PlanExpiries(symbol: string, sym: nat, es: seq<SelectedExpiry>, spot: real, r: Resolution)
    returns (pes: seq<PlannedExpiry>, cs: seq<Contract>, ghost ws: seq<Working>)
    requires spot > 0.0 && DatesAscend(es)
    ensures SymbolContracts(cs, symbol, sym, DatesOf(es))
    ensures Sum(pes, ContractsIn()) == |cs| && cs == Gathered(ws) && ExpiriesPlanned(symbol, sym, es, spot, r, pes, ws)
  {
    pes, cs, ws := [], [], [];
    for i := 0 to |es|
      invariant SymbolContracts(cs, symbol, sym, DatesOf(es[..i]))
      invariant |pes| == |ws| == i && Sum(pes, ContractsIn()) == |cs| && cs == Gathered(ws)
      invariant ExpiriesPlanned(symbol, sym, es[..i], spot, r, pes, ws)
    {
      ghost var w;
      var pe, more;
      pe, more, w := PlanExpiry(symbol, sym, es[i], spot, r);
      JoinExpiry(cs, more, symbol, sym, es, i);
      SumAppend(pes, pe, ContractsIn());
      GatheredNext(ws, w);
      PlannedNext(symbol, sym, es, i, spot, r, pes, ws, pe, w);
      cs, pes, ws := cs + more, pes + [pe], ws + [w];
    }
    assert es[..|es|] == es;
  }

  lemma JoinExpiry(cs: seq<Contract>, more: seq<Contract>, symbol: string, sym: nat, es: seq<SelectedExpiry>, i: nat)
    requires DatesAscend(es) && i < |es| && SymbolContracts(cs, symbol, sym, DatesOf(es[..i])) && ContractKeysDistinct(more)
    requires forall j :: 0 <= j < |more| ==> more[j].symbol == symbol && more[j].sym == sym && more[j].expiry == es[i].date
    ensures SymbolContracts(cs + more, symbol, sym, DatesOf(es[..i + 1]))
  {
    assert es[..i + 1] == es[..i] + [es[i]];
    assert DatesOf(es[..i + 1]) == DatesOf(es[..i]) + [es[i].date];
    forall j | 0 <= j < |cs| ensures cs[j].expiry != es[i].date {
      var k :| 0 <= k < i && DatesOf(es[..i])[k] == cs[j].expiry;
    }
    KeysJoin(cs, more);
  }

  /** Why a symbol got the status it has. */
  function StatusFor(probe: Probe, es: seq<SelectedExpiry>): SymbolStatus
  {
    if probe.listed.None? || probe.listed.value == [] then ChainUnavailable
    else if es == [] then NoExpiries
    else if probe.spot.None? || probe.spot.value <= 0.0 then SpotUnavailable
    else SymbolPlanned
  }

  /** The plan and the contracts a probe yields: those kept of the selected strikes of the
      selected expiries, and nothing for a symbol that cannot be planned. */
  ghost predicate Finds(symbol: string, sym: nat, probe: Probe, today: int, days: Sessions, plan: SymbolPlan, cs: seq<Contract>,
                        es: seq<SelectedExpiry>, sel: Selection, ws: seq<Working>)
  {
    && (probe.listed.Some? && probe.listed.value != [] ==> Selects(symbol, probe.listed.value, today, days, es, sel))
    && plan == SymbolPlan(symbol, StatusFor(probe, es), plan.expiries, |cs|)
    && (plan.status != SymbolPlanned ==> cs == [] && plan.expiries == [])
    && (plan.status == SymbolPlanned ==>
          cs == Gathered(ws) && ExpiriesPlanned(symbol, sym, es, probe.spot.value, probe.resolution, plan.expiries, ws))
  }

  ghost predicate DiscoveredAs(symbol: string, sym: nat, probe: Probe, today: int, days: Sessions,
                               plan: SymbolPlan, cs: seq<Contract>)
  {
    exists es, sel, ws :: Finds(symbol, sym, probe, today, days, plan, cs, es, sel, ws)
  }

  /** One symbol's contracts: distinct keys, its name and number, expiries after today. */
  ghost predicate OwnContracts(cs: seq<Contract>, symbol: string, sym: nat, today: int)
  {
    ContractKeysDistinct(cs) && forall i :: 0 <= i < |cs| ==> cs[i].symbol == symbol && cs[i].sym == sym && cs[i].expiry > today
  }

  /** One symbol's plan; a symbol that cannot be planned contributes nothing. */
  method Discover(symbol: string, sym: nat, probe: Probe, today: int, days: Sessions)
    returns (plan: SymbolPlan, cs: seq<Contract>)
    ensures DiscoveredAs(symbol, sym, probe, today, days, plan, cs)
    ensures plan.symbol == symbol && plan.planned == |cs| == Sum(plan.expiries, ContractsIn())
    ensures OwnContracts(cs, symbol, sym, today) && plan.status !in {SkippedCap, NotDiscovered}
    ensures plan.status == ChainUnavailable <==> probe.listed.None? || probe.listed.value == []
    ensures plan.status == SpotUnavailable ==> probe.spot.None? || probe.spot.value <= 0.0
    ensures plan.status == SymbolPlanned ==> plan.expiries != [] && probe.spot.Some? && probe.spot.value > 0.0
    ensures plan.status != SymbolPlanned ==> plan.expiries == [] && cs == []
  {
    cs := [];
    ghost var none := Selection(map[], map[], "", [], [], None);
    if probe.listed.None? || probe.listed.value == [] {
      plan := SymbolPlan(symbol, ChainUnavailable, [], 0);
      assert Finds(symbol, sym, probe, today, days, plan, cs, [], none, []);
      return;
    }
    ghost var sel;
    var es;
    es, sel := SelectExpiries(symbol, probe.listed.value, today, days);
    if es == [] {
      plan := SymbolPlan(symbol, NoExpiries, [], 0);
      assert Finds(symbol, sym, probe, today, days, plan, cs, es, sel, []);
      return;
    }
    if probe.spot.None? || probe.spot.value <= 0.0 {
      plan := SymbolPlan(symbol, SpotUnavailable, [], 0);
      assert Finds(symbol, sym, probe, today, days, plan, cs, es, sel, []);
      return;
    }
    var pes;
    ghost var ws;
    pes, cs, ws := PlanExpiries(symbol, sym, es, probe.spot.value, probe.resolution);
    OwnByDates(cs, symbol, sym, today, es);
    plan := SymbolPlan(symbol, SymbolPlanned, pes, |cs|);
    assert Finds(symbol, sym, probe, today, days, plan, cs, es, sel, ws);
  }

  lemma OwnByDates(cs: seq<Contract>, symbol: string, sym: nat, today: int, es: seq<SelectedExpiry>)
    requires SymbolContracts(cs, symbol, sym, DatesOf(es)) && forall i :: 0 <= i < |es| ==> es[i].date > today
    ensures OwnContracts(cs, symbol, sym, today)
  {
    forall i | 0 <= i < |cs| ensures cs[i].expiry > today {
      var k :| 0 <= k < |es| && DatesOf(es)[k] == cs[i].expiry;
    }
  }

  /** What is planned for one expiry: for every chosen strike the call and the put, unless proved
      unlisted, ranked by the number of chosen strikes nearer the money; and nothing else. */
  lemma ExpiryMeans(symbol: string, sym: nat, e: SelectedExpiry, spot: real, r: Resolution, pe: PlannedExpiry, w: Working, c: Contract)
    requires ExpiryPlanned(symbol, sym, e, spot, r, pe, w)
    ensures c in w.contracts <==>
            && c.symbol == symbol && c.sym == sym && c.tradingClass == e.tradingClass && c.expiry == e.date && c.slot == e.slot
            && c.strike in w.chosen && r(e.tradingClass, e.date, c.strike, c.right) != Unlisted
            && c.rank == Count(w.chosen, BeforeStrike(spot, c.strike))
  {
    ContractMeans(symbol, sym, e, r, w.chosen, w.ranks, c);
  }

  lemma PairMeans(symbol: string, sym: nat, e: SelectedExpiry, r: Resolution, k: real, rank: nat, c: Contract)
    ensures c in StrikePair(symbol, sym, e, r, k, rank) <==>
            && c.symbol == symbol && c.sym == sym && c.tradingClass == e.tradingClass && c.expiry == e.date && c.slot == e.slot
            && c.strike == k && r(e.tradingClass, e.date, k, c.right) != Unlisted && c.rank == rank
  {
    var call, put := ContractFor(symbol, sym, e, k, Call, rank), ContractFor(symbol, sym, e, k, Put, rank);
    assert c in StrikePair(symbol, sym, e, r, k, rank) <==> (c == call && Kept(r, e, k, Call)) || (c == put && Kept(r, e, k, Put));
    assert c.right == Call || c.right == Put;
  }

  lemma {:induction false} ContractMeans(symbol: string, sym: nat, e: SelectedExpiry, r: Resolution, chosen: seq<real>,
                                         ranks: map<real, nat>, c: Contract)
    requires forall x :: x in chosen ==> x in ranks
    ensures c in ExpiryContracts(symbol, sym, e, r, chosen, ranks) <==>
            && c.symbol == symbol && c.sym == sym && c.tradingClass == e.tradingClass && c.expiry == e.date && c.slot == e.slot
            && c.strike in chosen && r(e.tradingClass, e.date, c.strike, c.right) != Unlisted
            && c.rank == ranks[c.strike]
  {
    if chosen != [] {
      var n := |chosen| - 1;
      var init, k := chosen[..n], chosen[n];
      ContractMeans(symbol, sym, e, r, init, ranks, c);
      assert chosen == init + [k];
      assert k in chosen;
      PairMeans(symbol, sym, e, r, k, ranks[k], c);
      assert c.strike in chosen <==> c.strike in init || c.strike == k;
    }
  }

  /** A strike is offered to the selection when one of its sides is not proved unlisted. */
  lemma CandidateMeans(r: Resolution, e: SelectedExpiry, k: real)
    ensures k in Filter(e.strikes, Candidate(r, e)) <==>
            k in e.strikes && (r(e.tradingClass, e.date, k, Call) != Unlisted || r(e.tradingClass, e.date, k, Put) != Unlisted)
  {
    FilterMembers(e.strikes, Candidate(r, e));
    assert k in Filter(e.strikes, Candidate(r, e)) <==> k in e.strikes && Candidate(r, e)(k);
  }

  // ----- The plan is determined -----

  lemma RanksDetermined(chosen: seq<real>, spot: real, a: map<real, nat>, b: map<real, nat>)
    requires (forall k :: k in a <==> k in chosen) && (forall k :: k in b <==> k in chosen)
    requires forall k :: k in chosen ==> a[k] == Count(chosen, BeforeStrike(spot, k)) == b[k]
    ensures a == b
  {
    forall k ensures k in a <==> k in b {
      assert k in a <==> k in chosen;
    }
    forall k | k in a ensures a[k] == b[k] {
      assert k in chosen;
    }
  }

  lemma ExpiryDetermined(symbol: string, sym: nat, e: SelectedExpiry, spot: real, r: Resolution,
                         p: PlannedExpiry, v: Working, q: PlannedExpiry, w: Working)
    requires ExpiryPlanned(symbol, sym, e, spot, r, p, v) && ExpiryPlanned(symbol, sym, e, spot, r, q, w)
    ensures p == q && v == w
  {
    assert v.chosen == w.chosen;
    RanksDetermined(v.chosen, spot, v.ranks, w.ranks);
  }

  lemma ExpiriesDetermined(symbol: string, sym: nat, es: seq<SelectedExpiry>, spot: real, r: Resolution,
                           ps: seq<PlannedExpiry>, vs: seq<Working>, qs: seq<PlannedExpiry>, ws: seq<Working>)
    requires ExpiriesPlanned(symbol, sym, es, spot, r, ps, vs) && ExpiriesPlanned(symbol, sym, es, spot, r, qs, ws)
    ensures ps == qs && vs == ws
  {
    forall i | 0 <= i < |es| ensures ps[i] == qs[i] && vs[i] == ws[i] {
      ExpiryDetermined(symbol, sym, es[i], spot, r, ps[i], vs[i], qs[i], ws[i]);
    }
  }

  /** What the broker answered fixes the plan and the contracts of a symbol. */
  lemma DiscoveryDetermined(symbol: string, sym: nat, probe: Probe, today: int, days: Sessions,
                            p: SymbolPlan, cs: seq<Contract>, q: SymbolPlan, ds: seq<Contract>)
    requires DiscoveredAs(symbol, sym, probe, today, days, p, cs) && DiscoveredAs(symbol, sym, probe, today, days, q, ds)
    ensures p == q && cs == ds
  {
    var es, s, vs :| Finds(symbol, sym, probe, today, days, p, cs, es, s, vs);
    var fs, t, ws :| Finds(symbol, sym, probe, today, days, q, ds, fs, t, ws);
    if probe.listed.Some? && probe.listed.value != [] {
      SelectionDetermined(symbol, probe.listed.value, today, days, es, s, fs, t);
      if p.status == SymbolPlanned {
        ExpiriesDetermined(symbol, sym, es, probe.spot.value, probe.resolution, p.expiries, vs, q.expiries, ws);
      }
    }
  }
}
