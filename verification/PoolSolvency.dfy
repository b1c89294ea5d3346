/** When the Stability Pool can pay everyone. All can withdraw exactly when the readings add up to no
    more than the pool's BPD, its RBTC and the stakes of the front ends. The first two can fail by
    rounding: deposits stay covered as long as every offset cuts them by at least the fraction the
    pool itself loses, and in every run they are covered up to one BPD-wei per BPD of the largest pool
    that was offset, the gains accordingly. */
module PoolSolvency {
  import opened Arithmetic
  import opened Sums
  import opened Units
  import opened VaultList
  import opened PoolModel
  import opened PoolRuns
  import opened PoolWithdrawals

  /** Deposits never add up to more than the pool's BPD. */
  ghost predicate DepositsCovered(p: Pool) {
    Valid(p) && TotalHeld(p) <= p.bpd as real
  }

  /** Gains, with the carried remainder, never add up to more than the pool's RBTC. */
  ghost predicate GainsCovered(p: Pool) {
    Valid(p) && TotalOwed(p) <= p.rbtc as real - p.errColl as real / PRECISION as real
  }

  ghost predicate Solvent(p: Pool) { DepositsCovered(p) && GainsCovered(p) }

  lemma GenesisSolvent()
    ensures Solvent(Genesis)
  {
  }

  lemma OneOfTotal(p: Pool, a: Address)
    requires Valid(p)
    ensures 0.0 <= Compounded(p, a) as real <= Held(p, a) <= TotalHeld(p)
    ensures 0.0 <= Gain(p, a) as real <= Owed(p, a) <= TotalOwed(p)
  {
    forall b: Address ensures Held(p, b) >= 0.0 && Owed(p, b) >= 0.0 {
      HeldBounds(p, b);
      GainAtMostOwed(p, b);
    }
    HeldBounds(p, a);
    GainAtMostOwed(p, a);
    var keys, rest, zero := p.deposits.Keys, p.deposits.Keys - {a}, (b: Address) => 0.0;
    SumZero<Address>(rest);
    SumLeq(rest, zero, HeldBy(p));
    SumLeq(rest, zero, OwedTo(p));
    if a in p.deposits {
      SumRemove(keys, HeldBy(p), a);
      SumRemove(keys, OwedTo(p), a);
    } else {
      assert rest == keys;
    }
  }

  /** An update that pays out the gain and moves the pool's BPD as much as the deposit. */
  lemma UpdateStaysSolvent(p: Pool, q: Pool, a: Address, value: nat)
    requires Solvent(p) && Updated(p, q, a, value) && FrontEndsOk(q)
    requires q.rbtc == p.rbtc - Gain(p, a) && q.bpd == p.bpd - Compounded(p, a) + value
    ensures Solvent(q) && Compounded(q, a) == value && Gain(q, a) == 0
    ensures forall b :: b != a ==> (b in q.deposits <==> b in p.deposits) && Compounded(q, b) == Compounded(p, b) && Gain(q, b) == Gain(p, b)
  {
    OneOfTotal(p, a);
    UpdateTotals(p, q, a, value);
    UpdateSelf(p, q, a, value);
    forall b | b != a
      ensures (b in q.deposits <==> b in p.deposits) && Compounded(q, b) == Compounded(p, b) && Gain(q, b) == Gain(p, b)
    {
      UpdateOthers(p, q, a, value, b);
    }
  }

  /** A solvent pool accepts every deposit and stays solvent. */
  lemma ProvideStaysSolvent(p: Pool, a: Address, amount: nat, tag: Address)
    requires Solvent(p) && amount > 0 && a !in p.frontEnds.registered && (tag == NULL || tag in p.frontEnds.registered)
    ensures Provide(p, a, amount, tag).Ok? && Solvent(Provide(p, a, amount, tag).pool)
    ensures Compounded(Provide(p, a, amount, tag).pool, a) == Compounded(p, a) + amount
  {
    hide Compounded, Gain, StakeOf, TotalHeld, TotalOwed, Held, Owed, Updated;
    OneOfTotal(p, a);
    QuotientMonotone(0.0, p.errColl as real, PRECISION as real);
    ApplyIsUpdate(p, ProvideOp(a, amount, tag));
    UpdateStaysSolvent(p, Provide(p, a, amount, tag).pool, a, Compounded(p, a) + amount);
  }

  /** It honours a withdrawal exactly when the front end's stake covers it, pays exactly what the depositor
      could read beforehand, and stays solvent. */
  lemma WithdrawStaysSolvent(p: Pool, a: Address, amount: nat)
    requires Solvent(p) && a in p.deposits
    ensures Withdraw(p, a, amount).Ok? <==> Min(amount, Compounded(p, a)) <= StakeOf(p, TagOf(p, a))
    ensures var r := Withdraw(p, a, amount);
            r.Ok? ==>
              && Solvent(r.pool) && Compounded(r.pool, a) == Compounded(p, a) - Min(amount, Compounded(p, a)) && Gain(r.pool, a) == 0
              && (amount >= Compounded(p, a) ==> a !in r.pool.deposits)
              && (forall b :: b != a ==> (b in r.pool.deposits <==> b in p.deposits) && Compounded(r.pool, b) == Compounded(p, b) && Gain(r.pool, b) == Gain(p, b))
  {
    hide Compounded, Gain, StakeOf, TotalHeld, TotalOwed, Held, Owed, Updated;
    OneOfTotal(p, a);
    QuotientMonotone(0.0, p.errColl as real, PRECISION as real);
    if Withdraw(p, a, amount).Ok? {
      ApplyIsUpdate(p, WithdrawOp(a, amount));
      UpdateStaysSolvent(p, Withdraw(p, a, amount).pool, a, Compounded(p, a) - Min(amount, Compounded(p, a)));
    }
  }

  lemma ClaimStaysSolvent(p: Pool, a: Address)
    requires Solvent(p) && a in p.deposits && Gain(p, a) > 0
    ensures ClaimGain(p, a).Ok? && Solvent(ClaimGain(p, a).pool)
    ensures Compounded(ClaimGain(p, a).pool, a) == Compounded(p, a)
  {
    OneOfTotal(p, a);
    ApplyIsUpdate(p, ClaimOp(a));
    UpdateStaysSolvent(p, ClaimGain(p, a).pool, a, Compounded(p, a));
  }

  /** The readings of some depositors, against the totals. */
  lemma {:induction false} SumsWithinTotals(p: Pool, order: seq<Address>)
    requires Valid(p) && Distinct(order) && forall i :: 0 <= i < |order| ==> order[i] in p.deposits
    ensures SumCompounded(p, order) as real <= Sum(Members(order), HeldBy(p)) && SumGains(p, order) as real <= Sum(Members(order), OwedTo(p))
    decreases |order|
  {
    if order == [] {
      assert Members(order) == {};
    } else {
      var a, rest := order[0], order[1..];
      SumsWithinTotals(p, rest);
      assert Members(order) - {a} == Members(rest);
      SumRemove(Members(order), HeldBy(p), a);
      SumRemove(Members(order), OwedTo(p), a);
      HeldBounds(p, a);
      GainAtMostOwed(p, a);
    }
  }

  lemma PartOfTotal(p: Pool, ids: set<Address>)
    requires Valid(p) && ids <= p.deposits.Keys
    ensures Sum(ids, HeldBy(p)) <= TotalHeld(p) && Sum(ids, OwedTo(p)) <= TotalOwed(p)
  {
    forall b: Address ensures Held(p, b) >= 0.0 && Owed(p, b) >= 0.0 {
      HeldBounds(p, b);
      GainAtMostOwed(p, b);
    }
    SumSubset(ids, p.deposits.Keys, HeldBy(p));
    SumSubset(ids, p.deposits.Keys, OwedTo(p));
  }

  /** In a solvent pool only the stakes of the front ends can stand in the way. */
  lemma SolventPays(p: Pool, order: seq<Address>)
    requires Solvent(p) && Distinct(order) && forall i :: 0 <= i < |order| ==> order[i] in p.deposits
    ensures SumCompounded(p, order) <= p.bpd && SumGains(p, order) <= p.rbtc
  {
    SumsWithinTotals(p, order);
    PartOfTotal(p, Members(order));
  }

  // --------------------------------------------------------------- offsets

  function ScaleUnit(P: nat, factor: nat): nat {
    if ScaleStep(P, factor) == 1 then SCALE_FACTOR else 1
  }

  /** The offset would cut a deposit as large as the pool at least down to what the pool keeps.
      It can be worked out before the call from `P`, the pool's BPD, the carried remainder and the debt. */
  predicate FavoursPool(p: Pool, debt: nat)
    requires CanOffset(p, debt)
  {
    Partial(p, debt) ==> NextP(p.P, FactorOf(p, debt)) * p.bpd <= p.P * ScaleUnit(p.P, FactorOf(p, debt)) * (p.bpd - debt)
  }

  lemma GuardIsCut(p: Pool, debt: nat)
    requires p.P > 0 && CanOffset(p, debt) && Partial(p, debt)
    ensures FavoursPool(p, debt) <==> Times(Cut(p.P, FactorOf(p, debt)), p.bpd as real) <= (p.bpd - debt) as real
  {
    var factor := FactorOf(p, debt);
    ScaleOf(p.P, factor);
    var m := p.P * ScaleUnit(p.P, factor);
    assert m as real == p.P as real * ScalePow(ScaleStep(p.P, factor));
    QuotientTimes(NextP(p.P, factor), m, p.bpd, p.bpd - debt);
  }

  lemma CoveredAfterOffset(p: Pool, debt: nat, coll: nat)
    requires DepositsCovered(p) && CanOffset(p, debt) && Offset(p, debt, coll).Ok? && FavoursPool(p, debt)
    ensures DepositsCovered(Offset(p, debt, coll).pool)
  {
    OffsetTotals(p, debt, coll);
    if Partial(p, debt) {
      CutBounds(p.P, FactorOf(p, debt));
      GuardIsCut(p, debt);
      TimesMono(Cut(p.P, FactorOf(p, debt)), TotalHeld(p), p.bpd as real);
    }
  }

  /** What an offset credits in all, at the rate it adds to `S`, is the collateral it brings
      up to the change of the carried remainder. */
  lemma CreditedExactly(p: Pool, debt: nat, coll: nat)
    requires CanOffset(p, debt) && Offset(p, debt, coll).Ok?
    ensures Times(PerUnit(p, coll), p.bpd as real)
            == coll as real + p.errColl as real / PRECISION as real - Offset(p, debt, coll).pool.errColl as real / PRECISION as real
  {
    RemainderArithmetic(GainPerUnit(p, coll), p.bpd, coll, p.errColl, Offset(p, debt, coll).pool.errColl);
  }

  lemma RemainderArithmetic(perUnit: nat, bpd: nat, coll: nat, err: nat, err': nat)
    requires perUnit * bpd == coll * PRECISION + err - err'
    ensures Times(perUnit as real / PRECISION as real, bpd as real)
            == coll as real + err as real / PRECISION as real - err' as real / PRECISION as real
  {
    var w := PRECISION as real;
    var u := perUnit as real / w;
    ProductAsReal(perUnit, bpd);
    assert u * w == perUnit as real;
    assert (u * bpd as real) * w == perUnit as real * bpd as real;
    SameQuotient(coll as real * w + err as real - err' as real, w, u * bpd as real);
  }

  /** What those who still earn hold: deposits past a second scale change are credited nothing. */
  ghost function Earning(p: Pool): Address -> real
    requires Valid(p)
  {
    (a: Address) => if a in p.deposits && !(p.snapshots[a].epoch == p.epoch && p.scale - p.snapshots[a].scale > 1) then Held(p, a) else 0.0
  }

  ghost function TotalEarning(p: Pool): real
    requires Valid(p)
  {
    Sum(p.deposits.Keys, Earning(p))
  }

  /** What the pool's RBTC, less the carried remainder, holds beyond the gains. */
  ghost function GainSlack(p: Pool): real
    requires Valid(p)
  {
    p.rbtc as real - p.errColl as real / PRECISION as real - TotalOwed(p)
  }

  lemma OffsetCreditsOne(p: Pool, q: Pool, debt: nat, coll: nat, a: Address)
    requires Valid(p) && Valid(q) && CanOffset(p, debt) && Offset(p, debt, coll) == Ok(q) && a in p.deposits
    ensures Owed(q, a) == Owed(p, a) + Times(PerUnit(p, coll), Earning(p)(a))
  {
    hide GainPerUnit, CarriedColl, LossPerUnit, NextP, PerUnit, HeldFrom, OwedFrom, LossOf, FrontEndsOk;
    assert SnapOk(p, p.snapshots[a]);
    OffsetOwed(p, debt, coll, p.deposits[a], p.snapshots[a]);
  }

  /** An offset credits its rate on what the earners hold, and takes it from what it brings. */
  lemma OffsetCredits(p: Pool, q: Pool, debt: nat, coll: nat)
    requires Valid(p) && Valid(q) && CanOffset(p, debt) && Offset(p, debt, coll) == Ok(q)
    ensures TotalOwed(q) == TotalOwed(p) + Times(PerUnit(p, coll), TotalEarning(p))
    ensures GainSlack(q) == GainSlack(p) + Times(PerUnit(p, coll), p.bpd as real) - Times(PerUnit(p, coll), TotalEarning(p))
  {
    hide GainPerUnit, CarriedColl, LossPerUnit, NextP, PerUnit, Owed, LossOf, Valid;
    forall a | a in p.deposits ensures OwedTo(q)(a) == OwedTo(p)(a) + Times(PerUnit(p, coll), Earning(p)(a)) {
      OffsetCreditsOne(p, q, debt, coll, a);
    }
    SumScale(p.deposits.Keys, OwedTo(q), OwedTo(p), Earning(p), PerUnit(p, coll));
    CreditedExactly(p, debt, coll);
  }

  /** Exactly when the gains are covered after an offset, whatever the deposits: what it credits
      beyond the pool's own BPD must fit what the RBTC had to spare. */
  lemma OffsetKeepsGainsCovered(p: Pool, debt: nat, coll: nat)
    requires Valid(p) && CanOffset(p, debt) && Offset(p, debt, coll).Ok?
    ensures GainsCovered(Offset(p, debt, coll).pool) <==> Times(PerUnit(p, coll), TotalEarning(p)) <= Times(PerUnit(p, coll), p.bpd as real) + GainSlack(p)
  {
    OffsetKeepsValid(p, debt, coll);
    hide Valid, TotalOwed, TotalEarning, PerUnit;
    OffsetCredits(p, Offset(p, debt, coll).pool, debt, coll);
  }

  /** In particular covered gains stay covered as long as the earners hold no more than the pool. */
  lemma GainsCoveredAfterOffset(p: Pool, debt: nat, coll: nat)
    requires GainsCovered(p) && TotalEarning(p) <= p.bpd as real && CanOffset(p, debt) && Offset(p, debt, coll).Ok?
    ensures GainsCovered(Offset(p, debt, coll).pool)
  {
    OffsetKeepsGainsCovered(p, debt, coll);
    TimesMono(PerUnit(p, coll), TotalEarning(p), p.bpd as real);
  }

  lemma EarningAtMostHeld(p: Pool)
    requires Valid(p)
    ensures TotalEarning(p) <= TotalHeld(p)
  {
    forall a: Address ensures Earning(p)(a) <= Held(p, a) {
      HeldBounds(p, a);
    }
    SumLeq(p.deposits.Keys, Earning(p), HeldBy(p));
  }

  ghost predicate SameTrackers(p: Pool, q: Pool) {
    q == p.(deposits := q.deposits, snapshots := q.snapshots, frontEnds := q.frontEnds)
  }

  lemma UncoveredAfter(q: Pool, debt: nat, coll: nat)
    requires Valid(q) && CanOffset(q, debt) && Offset(q, debt, coll).Ok? && !FavoursPool(q, debt)
    requires TotalHeld(q) == q.bpd as real
    ensures !DepositsCovered(Offset(q, debt, coll).pool)
  {
    OffsetTotals(q, debt, coll);
    GuardIsCut(q, debt);
    hide FavoursPool, TotalHeld, TotalOwed, Valid, Cut, NextP, LossPerUnit, GainPerUnit, CarriedColl;
  }

  lemma UncoveredBook(p: Pool, debt: nat, coll: nat) returns (q: Pool)
    requires Valid(p) && CanOffset(p, debt) && Offset(p, debt, coll).Ok? && !FavoursPool(p, debt)
    ensures SameTrackers(p, q) && DepositsCovered(q) && !DepositsCovered(Offset(q, debt, coll).pool)
  {
    q := p.(deposits := map[1 := p.bpd], snapshots := map[1 := Fresh(p)], frontEnds := FrontEnds({}, map[1 := NULL], map[]));
    LoneDepositor(p, q);
    GuardReadsTrackersOnly(p, q, debt, coll);
    UncoveredAfter(q, debt, coll);
  }

  /** Exactly when an offset keeps every possible set of covered deposits covered: the
      right-hand side does not depend on the deposits. */
  lemma OffsetKeepsEveryBookCovered(p: Pool, debt: nat, coll: nat)
    requires Valid(p) && CanOffset(p, debt) && Offset(p, debt, coll).Ok?
    ensures (forall q: Pool :: SameTrackers(p, q) && DepositsCovered(q) ==> DepositsCovered(Offset(q, debt, coll).pool))
            <==> FavoursPool(p, debt)
  {
    if FavoursPool(p, debt) {
      forall q: Pool | SameTrackers(p, q) && DepositsCovered(q) ensures DepositsCovered(Offset(q, debt, coll).pool) {
        GuardReadsTrackersOnly(p, q, debt, coll);
        CoveredAfterOffset(q, debt, coll);
      }
    } else {
      var q := UncoveredBook(p, debt, coll);
    }
  }

  lemma GuardReadsTrackersOnly(p: Pool, q: Pool, debt: nat, coll: nat)
    requires SameTrackers(p, q) && CanOffset(p, debt) && Offset(p, debt, coll).Ok?
    ensures CanOffset(q, debt) && Offset(q, debt, coll).Ok? && (FavoursPool(p, debt) <==> FavoursPool(q, debt))
  {
  }

  /** One depositor who owns the whole pool. */
  lemma LoneDepositor(p: Pool, q: Pool)
    requires Valid(p) && p.bpd > 0
    requires q == p.(deposits := map[1 := p.bpd], snapshots := map[1 := Fresh(p)], frontEnds := FrontEnds({}, map[1 := NULL], map[]))
    ensures SameTrackers(p, q) && Valid(q) && TotalHeld(q) == p.bpd as real && DepositsCovered(q)
  {
    assert (p.epoch, p.scale + 1) !in p.sums;
    FreshReads(q, p.bpd);
    assert Fresh(q) == Fresh(p);
    SumRemove(q.deposits.Keys, HeldBy(q), 1);
    assert q.deposits.Keys - {1} == {};
  }

  /** It does so whenever the carried remainder does not shrink, so in particular when none is carried. */
  lemma GrowingRemainderFavoursPool(p: Pool, debt: nat)
    requires p.P > 0 && CanOffset(p, debt)
    requires p.errLoss <= LossPerUnit(p.bpd, p.errLoss, debt).1 || debt == p.bpd
    ensures FavoursPool(p, debt)
  {
    if Partial(p, debt) {
      LossAtMostOne(p.bpd, p.errLoss, debt);
      var factor := FactorOf(p, debt);
      CutBounds(p.P, factor);
      GuardIsCut(p, debt);
      assert factor * p.bpd <= (p.bpd - debt) * PRECISION;
      QuotientTimes(factor, PRECISION, p.bpd, p.bpd - debt);
      FirstMono(Cut(p.P, factor), factor as real / PRECISION as real, p.bpd as real);
    }
  }

  // -------------------------------------------------- every run whatsoever

  /** Largest pool any offset of the run met, at least `sofar`. */
  function Peak(p: Pool, ops: seq<Op>, sofar: nat): (m: nat)
    requires Valid(p)
    ensures m >= sofar
    decreases |ops|
  {
    if ops == [] then sofar
    else Peak(Next(p, ops[0]), ops[1..], if ops[0].OffsetOp? && p.bpd > sofar then p.bpd else sofar)
  }

  /** Deposits and the carried remainder exceed the pool by at most `peak / 10^18`. */
  ghost predicate CoveredUpTo(p: Pool, peak: nat) {
    && Valid(p) && p.errLoss <= peak
    && TotalHeld(p) + p.errLoss as real / PRECISION as real <= p.bpd as real + peak as real / PRECISION as real
  }

  lemma OffsetCoveredUpTo(p: Pool, debt: nat, coll: nat, peak: nat)
    requires CoveredUpTo(p, peak) && CanOffset(p, debt) && Offset(p, debt, coll).Ok? && p.bpd <= peak
    ensures CoveredUpTo(Offset(p, debt, coll).pool, peak)
  {
    OffsetTotals(p, debt, coll);
    LossAtMostOne(p.bpd, p.errLoss, debt);
    var err' := LossPerUnit(p.bpd, p.errLoss, debt).1;
    var q := Offset(p, debt, coll).pool;
    assert q.bpd == p.bpd - debt && q.errLoss == err';
    QuotientMonotone(err' as real, peak as real, PRECISION as real);
    if Partial(p, debt) {
      PartialLeavesSlack(p, debt, peak);
    }
    hide TotalHeld, TotalOwed, LossPerUnit, Cut, Times, Valid, Offset, Partial, FactorOf;
  }

  lemma PartialLeavesSlack(p: Pool, debt: nat, peak: nat)
    requires CoveredUpTo(p, peak) && CanOffset(p, debt) && Partial(p, debt)
    ensures Times(Cut(p.P, FactorOf(p, debt)), TotalHeld(p)) + LossPerUnit(p.bpd, p.errLoss, debt).1 as real / PRECISION as real
            <= (p.bpd - debt) as real + peak as real / PRECISION as real
  {
    LossAtMostOne(p.bpd, p.errLoss, debt);
    var factor, err' := FactorOf(p, debt), LossPerUnit(p.bpd, p.errLoss, debt).1;
    CutBounds(p.P, factor);
    OneOfTotal(p, 0);
    hide TotalHeld, LossPerUnit, Cut, Times, Valid;
    FirstMono(Cut(p.P, factor), factor as real / PRECISION as real, TotalHeld(p));
    CutLeavesSlack(factor, TotalHeld(p), p.bpd, debt, p.errLoss, err', peak);
  }

  lemma CutLeavesSlack(factor: nat, held: real, bpd: nat, debt: nat, err: nat, err': nat, peak: nat)
    requires factor <= PRECISION && debt <= bpd && err <= peak
    requires held + err as real / PRECISION as real <= bpd as real + peak as real / PRECISION as real
    requires (PRECISION - factor) * bpd + err == debt * PRECISION + err'
    ensures Times(factor as real / PRECISION as real, held) + err' as real / PRECISION as real
            <= (bpd - debt) as real + peak as real / PRECISION as real
  {
    var w := PRECISION as real;
    var f, slack, most := factor as real / w, (peak - err) as real / w, bpd as real + (peak - err) as real / w;
    assert held <= most;
    TimesMono(f, held, most);
    assert 0.0 <= f <= 1.0;
    FirstMono(f, 1.0, slack);
    assert Times(f, most) == Times(f, bpd as real) + Times(f, slack);
    assert factor * bpd == (bpd - debt) * PRECISION + err - err';
    assert (factor * bpd) as real == factor as real * bpd as real;
    assert Times(f, bpd as real) * w == factor as real * bpd as real;
    assert ((bpd - debt) * PRECISION) as real == (bpd - debt) as real * w;
    assert Times(f, bpd as real) == (bpd - debt) as real + err as real / w - err' as real / w;
  }

  lemma DepositorCoveredUpTo(p: Pool, op: Op, peak: nat)
    requires CoveredUpTo(p, peak) && ByDepositor(op) && Apply(p, op).Ok?
    ensures CoveredUpTo(Apply(p, op).pool, peak)
  {
    OneOfTotal(p, op.a);
    ApplyIsUpdate(p, op);
    UpdateTotals(p, Apply(p, op).pool, op.a, NewValue(p, op));
  }

  lemma NextCoveredUpTo(p: Pool, op: Op, peak: nat)
    requires CoveredUpTo(p, peak) && (op.OffsetOp? ==> p.bpd <= peak)
    ensures CoveredUpTo(Next(p, op), peak)
  {
    if Apply(p, op).Ok? {
      if ByDepositor(op) {
        DepositorCoveredUpTo(p, op, peak);
      } else if op.RegisterOp? {
        RegisteringChangesNothing(p, op.frontEnd);
      } else if CanOffset(p, op.debt) {
        OffsetCoveredUpTo(p, op.debt, op.coll, peak);
      }
    }
  }

  lemma {:induction false} RunCoveredUpTo(p: Pool, ops: seq<Op>, sofar: nat)
    requires CoveredUpTo(p, sofar)
    ensures CoveredUpTo(Run(p, ops), Peak(p, ops, sofar))
    decreases |ops|
  {
    if ops != [] {
      var peak := if ops[0].OffsetOp? && p.bpd > sofar then p.bpd else sofar;
      QuotientMonotone(sofar as real, peak as real, PRECISION as real);
      NextCoveredUpTo(p, ops[0], peak);
      RunCoveredUpTo(Next(p, ops[0]), ops[1..], peak);
    }
  }

  /** In every reachable state, whatever was deposited, withdrawn, liquidated or reverted, all
      deposits together exceed the pool by at most one BPD-wei per BPD of the largest pool offset. */
  lemma ShortfallIsBounded(ops: seq<Op>)
    ensures TotalHeld(Run(Genesis, ops)) <= Run(Genesis, ops).bpd as real + Peak(Genesis, ops, 0) as real / PRECISION as real
  {
    assert CoveredUpTo(Genesis, 0);
    RunCoveredUpTo(Genesis, ops, 0);
    var q := Run(Genesis, ops);
    QuotientMonotone(0.0, q.errLoss as real, PRECISION as real);
  }

  // ---------------------------------------------------- the gains, likewise

  /** One BPD-wei per BPD of `peak`. */
  function ShortBy(peak: nat): real { peak as real / PRECISION as real }

  lemma ShortByMono(now: nat, peak: nat)
    requires now <= peak
    ensures 0.0 <= ShortBy(now) <= ShortBy(peak)
  {
    QuotientMonotone(now as real, peak as real, PRECISION as real);
  }

  /** RBTC per BPD credited by the offsets of a run that take effect. */
  ghost function Credited(p: Pool, ops: seq<Op>): real
    requires Valid(p)
    decreases |ops|
  {
    if ops == [] then 0.0
    else (if ops[0].OffsetOp? && CanOffset(p, ops[0].debt) && Apply(p, ops[0]).Ok? then PerUnit(p, ops[0].coll) else 0.0) + Credited(Next(p, ops[0]), ops[1..])
  }

  lemma {:induction false} CreditedNonneg(p: Pool, ops: seq<Op>)
    requires Valid(p)
    ensures Credited(p, ops) >= 0.0
    decreases |ops|
  {
    if ops != [] {
      CreditedNonneg(Next(p, ops[0]), ops[1..]);
    }
  }

  /** An offset of a pool at most `peak` short loses at most its rate times that. */
  lemma OffsetSlack(p: Pool, debt: nat, coll: nat, peak: nat)
    requires CoveredUpTo(p, peak) && CanOffset(p, debt) && Offset(p, debt, coll).Ok?
    ensures Valid(Offset(p, debt, coll).pool)
    ensures GainSlack(Offset(p, debt, coll).pool) >= GainSlack(p) - Times(PerUnit(p, coll), ShortBy(peak))
  {
    hide GainPerUnit, PerUnit, GainSlack, TotalHeld, TotalEarning, Offset, Valid;
    OffsetKeepsValid(p, debt, coll);
    OffsetCredits(p, Offset(p, debt, coll).pool, debt, coll);
    EarningAtMostHeld(p);
    QuotientMonotone(0.0, p.errLoss as real, PRECISION as real);
    PerUnitNonneg(p, coll);
    TimesMono(PerUnit(p, coll), TotalEarning(p), p.bpd as real + ShortBy(peak));
    Distribute(PerUnit(p, coll), p.bpd as real, ShortBy(peak));
  }

  lemma PerUnitNonneg(p: Pool, coll: nat)
    requires p.bpd > 0
    ensures PerUnit(p, coll) >= 0.0
  {
    QuotientMonotone(0.0, GainPerUnit(p, coll) as real, PRECISION as real);
  }

  /** A depositor's transaction, or a registration, never costs the others. */
  lemma OthersSlack(p: Pool, op: Op)
    requires Valid(p) && !op.OffsetOp? && Apply(p, op).Ok?
    ensures Valid(Apply(p, op).pool) && GainSlack(Apply(p, op).pool) >= GainSlack(p)
  {
    if ByDepositor(op) {
      GainAtMostOwed(p, op.a);
      ApplyIsUpdate(p, op);
      UpdateTotals(p, Apply(p, op).pool, op.a, NewValue(p, op));
    } else {
      RegisteringChangesNothing(p, op.frontEnd);
    }
  }

  /** One transaction, given the largest pool `peak` and what it credits. */
  lemma NextSlack(p: Pool, op: Op, peak: nat)
    requires CoveredUpTo(p, peak)
    ensures GainSlack(Next(p, op)) >= GainSlack(p) - Times(Credited(p, [op]), ShortBy(peak))
  {
    hide GainSlack, PerUnit, Valid, LossPerUnit, NextP, GainPerUnit, Provide, Withdraw, ClaimGain;
    assert Credited(Next(p, op), [op][1..]) == 0.0;
    if Apply(p, op).Ok? {
      if !op.OffsetOp? {
        OthersSlack(p, op);
      } else if CanOffset(p, op.debt) {
        OffsetSlack(p, op.debt, op.coll, peak);
      }
    }
  }

  lemma {:induction false} RunSlack(p: Pool, ops: seq<Op>, sofar: nat)
    requires CoveredUpTo(p, sofar)
    ensures GainSlack(Run(p, ops)) >= GainSlack(p) - Times(Credited(p, ops), ShortBy(Peak(p, ops, sofar)))
    decreases |ops|
  {
    assert Valid(p);
    CreditedNothing(p);
    hide Times, GainSlack, PerUnit, Apply, Next, Valid, CoveredUpTo, ShortBy, Credited;
    if ops == [] {
      NoSlackLost(GainSlack(p), sofar);
    } else {
      var op, rest, q := ops[0], ops[1..], Next(p, ops[0]);
      var now := if op.OffsetOp? && p.bpd > sofar then p.bpd else sofar;
      assert Run(p, ops) == Run(q, rest) && Peak(p, ops, sofar) == Peak(q, rest, now);
      CoveredMore(p, sofar, now);
      NextCoveredUpTo(p, op, now);
      RunSlack(q, rest, now);
      NextSlack(p, op, now);
      CreditedNonneg(p, [op]);
      CreditedFirst(p, ops);
      SlackAddsUp(GainSlack(p), GainSlack(q), GainSlack(Run(p, ops)), Credited(p, ops), Credited(p, [op]), Credited(q, rest), now, Peak(p, ops, sofar));
    }
  }

  lemma NoSlackLost(s: real, peak: nat)
    ensures s >= s - Times(0.0, ShortBy(peak))
  {
  }

  lemma SlackAddsUp(s0: real, s1: real, s2: real, c: real, c1: real, c2: real, now: nat, peak: nat)
    requires s1 >= s0 - Times(c1, ShortBy(now)) && s2 >= s1 - Times(c2, ShortBy(peak))
    requires c == c1 + c2 && c1 >= 0.0 && now <= peak
    ensures s2 >= s0 - Times(c, ShortBy(peak))
  {
    ShortByMono(now, peak);
    TimesMono(c1, ShortBy(now), ShortBy(peak));
    DistributeFirst(c1, c2, ShortBy(peak));
  }

  lemma CreditedNothing(p: Pool)
    requires Valid(p)
    ensures Credited(p, []) == 0.0
  {
  }

  lemma CreditedFirst(p: Pool, ops: seq<Op>)
    requires Valid(p) && ops != []
    ensures Credited(p, ops) == Credited(p, [ops[0]]) + Credited(Next(p, ops[0]), ops[1..])
  {
    assert [ops[0]][1..] == [];
  }

  lemma CoveredMore(p: Pool, sofar: nat, now: nat)
    requires CoveredUpTo(p, sofar) && sofar <= now
    ensures CoveredUpTo(p, now)
  {
    QuotientMonotone(sofar as real, now as real, PRECISION as real);
  }

  /** In every reachable state the gains together exceed the pool's RBTC by at most what the run's
      offsets credited per BPD, for one BPD-wei per BPD of the largest pool offset. */
  lemma GainShortfallIsBounded(ops: seq<Op>)
    ensures TotalOwed(Run(Genesis, ops))
            <= Run(Genesis, ops).rbtc as real + Times(Credited(Genesis, ops), ShortBy(Peak(Genesis, ops, 0)))
  {
    assert CoveredUpTo(Genesis, 0);
    assert GainSlack(Genesis) == 0.0;
    RunSlack(Genesis, ops, 0);
    QuotientMonotone(0.0, Run(Genesis, ops).errColl as real, PRECISION as real);
  }

  /** Every offset of the run that takes effect passes the guard. */
  ghost predicate Guarded(p: Pool, ops: seq<Op>)
    requires Valid(p)
    decreases |ops|
  {
    ops == [] || ((ops[0].OffsetOp? && CanOffset(p, ops[0].debt) ==> FavoursPool(p, ops[0].debt)) && Guarded(Next(p, ops[0]), ops[1..]))
  }

  lemma NextStaysSolvent(p: Pool, op: Op)
    requires Solvent(p) && (op.OffsetOp? && CanOffset(p, op.debt) ==> FavoursPool(p, op.debt))
    ensures Solvent(Next(p, op))
  {
    if Apply(p, op).Ok? {
      if ByDepositor(op) {
        ApplyIsUpdate(p, op);
        UpdateStaysSolvent(p, Apply(p, op).pool, op.a, NewValue(p, op));
      } else if op.RegisterOp? {
        RegisteringChangesNothing(p, op.frontEnd);
      } else if CanOffset(p, op.debt) {
        CoveredAfterOffset(p, op.debt, op.coll);
        EarningAtMostHeld(p);
        GainsCoveredAfterOffset(p, op.debt, op.coll);
      }
    }
  }

  lemma {:induction false} GuardedRunStaysSolvent(p: Pool, ops: seq<Op>)
    requires Solvent(p) && Guarded(p, ops)
    ensures Solvent(Run(p, ops))
    decreases |ops|
  {
    if ops != [] {
      NextStaysSolvent(p, ops[0]);
      GuardedRunStaysSolvent(Next(p, ops[0]), ops[1..]);
    }
  }

  lemma SolventEveryone(p: Pool, order: seq<Address>)
    requires Solvent(p) && Distinct(order) && forall a :: a in order <==> a in p.deposits
    ensures var r := WithdrawAll(p, order);
            && (r.Ok? <==> forall f :: SumTagged(p, order, f) <= StakeOf(p, f))
            && (r.Ok? ==> r.pool.deposits.Keys == {})
  {
    assert p.deposits.Keys - Members(order) == {};
    SolventPays(p, order);
    EveryoneCanWithdraw(p, order);
    hide Solvent, Valid, StakeOf, SumTagged, WithdrawAll, SumCompounded, SumGains;
  }

  /** After any run whose offsets pass the guard everyone can withdraw everything, in any order, exactly
      when every front end's stake covers the deposits tagged with it. */
  lemma EveryoneCanWithdrawAfter(ops: seq<Op>, order: seq<Address>)
    requires Guarded(Genesis, ops)
    requires Distinct(order) && forall a :: a in order <==> a in Run(Genesis, ops).deposits
    ensures var p := Run(Genesis, ops); var r := WithdrawAll(p, order);
            && (r.Ok? <==> forall f :: SumTagged(p, order, f) <= StakeOf(p, f))
            && (r.Ok? ==> r.pool.deposits.Keys == {})
  {
    GenesisSolvent();
    GuardedRunStaysSolvent(Genesis, ops);
    hide Solvent, Run, WithdrawAll;
    SolventEveryone(Run(Genesis, ops), order);
  }
}
