/** How far the contract's readings can drift from the ledger in terms of the deposits and offsets of a run
    alone, without its products, sums and snapshots. */
module PoolSlip {
  import opened Arithmetic
  import opened Units
  import opened VaultList
  import opened PoolModel
  import opened PoolRuns
  import opened PoolSolvency
  import opened PoolRefinement
  import opened PoolStakes
  import opened PoolLedger

  /** What a run is known to keep to, as seen by one depositor: the largest deposit recorded, the smallest and
      the largest pool offset, the most RBTC an offset brings for each BPD, and whether the deposit never
      goes out of reading. */
  datatype Bounds = Bounds(deposit: nat, least: nat, peak: nat, perBpd: real, timely: bool)

  ghost predicate KeepsTo(p: Pool, a: Address, b: Bounds)
    requires Valid(p)
  {
    a in p.deposits ==> p.deposits[a] <= b.deposit && (b.timely ==> Current(p, a))
  }

  ghost predicate Meets(p: Pool, op: Op, a: Address, b: Bounds)
    requires Valid(p)
  {
    && KeepsTo(p, a, b)
    && (Offsets(p, op) ==> 0 < b.least <= p.bpd <= b.peak && Fraction(op.coll, p.bpd) <= b.perBpd)
  }

  ghost predicate MeetsAll(p: Pool, ops: seq<Op>, a: Address, b: Bounds)
    requires Valid(p)
    decreases |ops|
  {
    if ops == [] then KeepsTo(p, a, b) else Meets(p, ops[0], a, b) && MeetsAll(Next(p, ops[0]), ops[1..], a, b)
  }

  // ------------------------------------------------------ one offset at most

  /** The deviation of an offset's fraction: the carried remainder, one rounding up, and one unit of `P`,
      which is never more than a billionth. */
  function CutAtMost(b: Bounds): real
    requires b.least > 0
  {
    RateAtMost(b) + Fraction(1, SCALE_FACTOR)
  }

  function RateAtMost(b: Bounds): real
    requires b.least > 0
  {
    Fraction(b.peak, PRECISION * b.least) + Fraction(1, PRECISION)
  }

  lemma FractionMono(n: nat, d: nat, n': nat, d': nat)
    requires 0 < d' <= d && n <= n'
    ensures 0.0 <= Fraction(n, d) <= Fraction(n', d')
  {
    var x, y := n as real, n' as real;
    QuotientMonotone(0.0, x, d as real);
    QuotientMonotone(x, y, d as real);
    QuotientMonotone(0.0, y, d' as real);
    ProductMonotone(y / d' as real, d' as real, d as real);
    RealMulMono(y / d as real, y / d' as real, d as real);
  }

  lemma UnitDivisor(P: nat, factor: nat)
    requires P > 0 && factor <= PRECISION
    ensures P * (if ScaleStep(P, factor) == 1 then SCALE_FACTOR else 1) >= SCALE_FACTOR
  {
    if ScaleStep(P, factor) == 1 {
      MulMono(1, P, SCALE_FACTOR);
    } else {
      var n := P * factor;
      MulMono(factor, PRECISION, P);
      assert n <= PRECISION * P;
      DivBounds(n, PRECISION);
      QuotientBelow(n, PRECISION, P + 1);
      assert SCALE_FACTOR <= n / PRECISION;
    }
  }

  lemma UnitAtMost(P: nat, factor: nat)
    requires P > 0 && factor <= PRECISION
    ensures UnitOf(P, factor) <= Fraction(1, SCALE_FACTOR)
  {
    ScaleOf(P, factor);
    UnitDivisor(P, factor);
    var k := if ScaleStep(P, factor) == 1 then SCALE_FACTOR else 1;
    assert ScalePow(ScaleStep(P, factor)) == k as real;
    ProductAsReal(P, k);
    hide ScaleStep, ScalePow;
    FractionMono(1, P * k, 1, SCALE_FACTOR);
  }

  lemma DeviationsAtMost(p: Pool, debt: nat, b: Bounds)
    requires p.P > 0 && CanOffset(p, debt) && 0 < b.least <= p.bpd && p.errLoss <= b.peak && p.errColl <= b.peak
    ensures CutDeviation(p, debt) <= CutAtMost(b) && 0.0 <= RateDeviation(p) <= RateAtMost(b)
  {
    MulMono(b.least, p.bpd, PRECISION);
    FractionMono(p.errLoss, PRECISION * p.bpd, b.peak, PRECISION * b.least);
    FractionMono(p.errColl, PRECISION * p.bpd, b.peak, PRECISION * b.least);
    FractionNonneg(1, PRECISION);
    FractionNonneg(1, SCALE_FACTOR);
    if Partial(p, debt) {
      UnitAtMost(p.P, FactorOf(p, debt));
    }
    hide Fraction, UnitOf, Partial, FactorOf;
  }

  /** The carried remainders never exceed the pool that left them. */
  lemma RemaindersAtMost(p: Pool, op: Op, a: Address, b: Bounds)
    requires Valid(p) && Meets(p, op, a, b) && p.errLoss <= b.peak && p.errColl <= b.peak
    ensures Next(p, op).errLoss <= b.peak && Next(p, op).errColl <= b.peak
  {
    if Apply(p, op).Ok? {
      if ByDepositor(op) {
        ApplyIsUpdate(p, op);
      } else if op.OffsetOp? && CanOffset(p, op.debt) {
        assert Offsets(p, op);
        LossAtMostOne(p.bpd, p.errLoss, op.debt);
        hide LossPerUnit, GainPerUnit, NextP, Valid;
      }
    }
  }

  // ---------------------------------------------------- one reading at most

  /** What a transaction of the depositor's own may cost the deposit: a rounding, or what a cutoff hides;
      all of it if the deposit may have gone out of reading. */
  function ReadingAtMost(b: Bounds): nat { if b.timely then Unread(b.deposit) else b.deposit }

  /** And what it may cost the gain, which is rounded twice. */
  function GainAtMost(b: Bounds): real { 1.0 + Fraction(b.deposit, PRECISION) }

  lemma GainCeiling(d: nat, first: nat, next: nat, P0: nat)
    requires P0 > 0
    ensures Earned(d as real, first as real + next as real / SCALE_FACTOR as real, P0 as real)
            <= (d * (first + next / SCALE_FACTOR) / P0 / PRECISION) as real + 1.0 + Fraction(d, PRECISION)
  {
    var whole := first + next / SCALE_FACTOR;
    var s := first as real + next as real / SCALE_FACTOR as real;
    FloorOfQuotient(next, SCALE_FACTOR);
    EarnedMono(d as real, s, whole as real + 1.0, P0 as real);
    EarnedSplit(d as real, whole as real, 1.0, P0 as real);
    EarnedFloor(d, whole, P0);
    EarnedOne(d, P0);
    hide Earned, Fraction;
  }

  lemma EarnedMono(d: real, s: real, t: real, P0: real)
    requires d >= 0.0 && s <= t && P0 > 0.0
    ensures Earned(d, s, P0) <= Earned(d, t, P0)
  {
    ProductMonotone(d, s, t);
    QuotientMonotone(d * s, d * t, P0 * PRECISION as real);
  }

  lemma EarnedSplit(d: real, s: real, t: real, P0: real)
    requires P0 > 0.0
    ensures Earned(d, s + t, P0) == Earned(d, s, P0) + Earned(d, t, P0)
  {
    assert d * (s + t) == d * s + d * t;
    QuotientOfSum(d * s, d * t, P0 * PRECISION as real);
  }

  lemma EarnedFloor(d: nat, whole: nat, P0: nat)
    requires P0 > 0
    ensures Earned(d as real, whole as real, P0 as real) <= (d * whole / P0 / PRECISION) as real + 1.0
  {
    NestedDivision(d * whole, P0, PRECISION);
    FloorOfQuotient(d * whole, PRECISION * P0);
    ProductAsReal(d, whole);
    ProductAsReal(PRECISION, P0);
  }

  lemma EarnedOne(d: nat, P0: nat)
    requires P0 > 0
    ensures Earned(d as real, 1.0, P0 as real) <= Fraction(d, PRECISION)
  {
    MulMono(1, P0, PRECISION);
    ProductAsReal(PRECISION, P0);
    FractionMono(d, PRECISION * P0, d, PRECISION);
  }

  lemma ReadingsLose(p: Pool, a: Address, b: Bounds)
    requires Valid(p) && KeepsTo(p, a, b)
    ensures 0.0 <= Held(p, a) - Compounded(p, a) as real <= ReadingAtMost(b) as real
    ensures 0.0 <= Owed(p, a) - Gain(p, a) as real <= GainAtMost(b)
    ensures 0.0 <= Held(p, a) <= b.deposit as real
  {
    HeldBounds(p, a);
    GainAtMostOwed(p, a);
    FractionNonneg(b.deposit, PRECISION);
    if a in p.deposits {
      var d, snap := p.deposits[a], p.snapshots[a];
      assert SnapOk(p, snap);
      ReadingLoses(p, d, snap);
      UnreadMono(d, b.deposit);
      GainCeiling(d, SumAt(p, snap.epoch, snap.scale) - snap.S, SumAt(p, snap.epoch, snap.scale + 1), snap.P);
      FractionMono(d, PRECISION, b.deposit, PRECISION);
      hide CompoundedFrom, HeldFrom, Earned, SumAt, Fraction, Unread;
    }
  }

  // ------------------------------------------------------------- whole runs

  function OwnCount(ops: seq<Op>, a: Address): nat {
    if ops == [] then 0 else (if ByDepositor(ops[0]) && ops[0].a == a then 1 else 0) + OwnCount(ops[1..], a)
  }

  function OffsetCount(ops: seq<Op>): nat {
    if ops == [] then 0 else (if ops[0].OffsetOp? then 1 else 0) + OffsetCount(ops[1..])
  }

  /** What `own` transactions and `offsets` offsets can make of the deposit's slip. */
  ghost function HeldAtMost(b: Bounds, own: nat, offsets: nat): real
    requires b.least > 0
  {
    Times(own as real, ReadingAtMost(b) as real) + Times(offsets as real, Times(CutAtMost(b), b.deposit as real))
  }

  /** What one offset can make of the gain's slip while the deposit's is at most `held`; a deposit out of
      reading is credited nothing at all. */
  ghost function CreditAtMost(b: Bounds, held: real): real
    requires b.least > 0
  {
    Times(b.perBpd, held) + Times(RateAtMost(b), b.deposit as real)
    + if b.timely then 0.0 else Times(b.perBpd + RateAtMost(b), b.deposit as real)
  }

  ghost function GainedAtMost(b: Bounds, own: nat, offsets: nat, held: real): real
    requires b.least > 0
  {
    Times(own as real, GainAtMost(b)) + Times(offsets as real, CreditAtMost(b, held))
  }

  lemma UncreditedAtMost(p: Pool, op: Op, a: Address, b: Bounds)
    requires Valid(p) && Meets(p, op, a, b) && Offsets(p, op) && p.errColl <= b.peak && p.errLoss <= b.peak
    ensures 0.0 <= Uncredited(p, op.coll, a) <= if b.timely then 0.0 else Times(b.perBpd + RateAtMost(b), b.deposit as real)
  {
    ReadingsLose(p, a, b);
    RateIsClose(p, op.coll);
    PerUnitNonneg(p, op.coll);
    DeviationsAtMost(p, op.debt, b);
    NonnegProduct(PerUnit(p, op.coll), Held(p, a));
    FractionNonneg(op.coll, p.bpd);
    hide Held, PerUnit, Fraction, RateAtMost, RateDeviation, Times, Valid;
    if Uncredited(p, op.coll, a) != 0.0 {
      FirstMono(PerUnit(p, op.coll), b.perBpd + RateAtMost(b), Held(p, a));
      TimesMono(b.perBpd + RateAtMost(b), Held(p, a), b.deposit as real);
    } else {
      NonnegProduct(b.perBpd + RateAtMost(b), b.deposit as real);
    }
  }

  lemma OffsetSlipAtMost(p: Pool, op: Op, a: Address, b: Bounds, e: Slip, held: real)
    requires Valid(p) && Meets(p, op, a, b) && Offsets(p, op) && p.errColl <= b.peak && p.errLoss <= b.peak && 0.0 <= e.held <= held
    ensures var e' := SlipAfter(p, op, a, e);
            && 0.0 <= e'.held <= e.held + Times(CutAtMost(b), b.deposit as real)
            && e'.gained <= e.gained + CreditAtMost(b, held)
  {
    ReadingsLose(p, a, b);
    DeviationNonneg(p, op.debt);
    DeviationsAtMost(p, op.debt, b);
    UncreditedAtMost(p, op, a, b);
    FractionNonneg(op.coll, p.bpd);
    NonnegProduct(CutDeviation(p, op.debt), Held(p, a));
    hide Held, Fraction, RateAtMost, CutAtMost, RateDeviation, CutDeviation, Times, Valid, Uncredited;
    FirstMono(CutDeviation(p, op.debt), CutAtMost(b), Held(p, a));
    TimesMono(CutAtMost(b), Held(p, a), b.deposit as real);
    FirstMono(RateDeviation(p), RateAtMost(b), Held(p, a));
    TimesMono(RateAtMost(b), Held(p, a), b.deposit as real);
    FirstMono(Fraction(op.coll, p.bpd), b.perBpd, e.held);
    TimesMono(b.perBpd, e.held, held);
  }

  lemma OwnSlipAtMost(p: Pool, op: Op, a: Address, b: Bounds, e: Slip)
    requires Valid(p) && Meets(p, op, a, b) && !Offsets(p, op) && e.held >= 0.0
    ensures var e' := SlipAfter(p, op, a, e); var own := if ByDepositor(op) && op.a == a then 1.0 else 0.0;
            && 0.0 <= e'.held <= e.held + Times(own, ReadingAtMost(b) as real)
            && e'.gained <= e.gained + Times(own, GainAtMost(b))
  {
    ReadingsLose(p, a, b);
    OnceTimes(ReadingAtMost(b) as real);
    OnceTimes(GainAtMost(b));
    NothingTimes(ReadingAtMost(b) as real);
    NothingTimes(GainAtMost(b));
    hide Times, Held, Owed, Compounded, Gain, GainAtMost, ReadingAtMost;
  }

  /** The closed bound: the deposit's slip grows by a reading for each own transaction and by the deviation
      of each offset, the gain's accordingly. */
  lemma {:induction false} SlipAtMost(p: Pool, ops: seq<Op>, a: Address, b: Bounds, e: Slip, held: real)
    requires Valid(p) && MeetsAll(p, ops, a, b) && b.least > 0 && b.perBpd >= 0.0 && p.errColl <= b.peak && p.errLoss <= b.peak
    requires e.held >= 0.0 && e.held + HeldAtMost(b, OwnCount(ops, a), OffsetCount(ops)) <= held
    ensures var e' := SlipRun(p, ops, a, e);
            && 0.0 <= e'.held <= e.held + HeldAtMost(b, OwnCount(ops, a), OffsetCount(ops))
            && e'.gained <= e.gained + GainedAtMost(b, OwnCount(ops, a), OffsetCount(ops), held)
            && KeepsTo(Run(p, ops), a, b)
    decreases |ops|
  {
    if ops == [] {
      NothingAtMost(b, held);
    } else {
      var op, rest := ops[0], ops[1..];
      var e1 := SlipAfter(p, op, a, e);
      hide HeldAtMost, GainedAtMost, SlipAfter, Meets, KeepsTo, Valid, Next;
      SlipStep(p, op, a, b, e, held, OwnCount(rest, a), OffsetCount(rest));
      RemaindersAtMost(p, op, a, b);
      SlipAtMost(Next(p, op), rest, a, b, e1, held);
    }
  }

  lemma NothingAtMost(b: Bounds, held: real)
    requires b.least > 0
    ensures HeldAtMost(b, 0, 0) == 0.0 && GainedAtMost(b, 0, 0, held) == 0.0
  {
    NothingTimes(ReadingAtMost(b) as real);
    NothingTimes(GainAtMost(b));
    NothingTimes(Times(CutAtMost(b), b.deposit as real));
    NothingTimes(CreditAtMost(b, held));
  }

  lemma SlipStep(p: Pool, op: Op, a: Address, b: Bounds, e: Slip, held: real, own: nat, offsets: nat)
    requires Valid(p) && Meets(p, op, a, b) && b.least > 0 && b.perBpd >= 0.0 && p.errColl <= b.peak && p.errLoss <= b.peak
    requires var own', offsets' := own + (if ByDepositor(op) && op.a == a then 1 else 0), offsets + (if op.OffsetOp? then 1 else 0);
             0.0 <= e.held && e.held + HeldAtMost(b, own', offsets') <= held
    ensures var e1 := SlipAfter(p, op, a, e);
            var own', offsets' := own + (if ByDepositor(op) && op.a == a then 1 else 0), offsets + (if op.OffsetOp? then 1 else 0);
            && 0.0 <= e1.held && e1.held + HeldAtMost(b, own, offsets) <= e.held + HeldAtMost(b, own', offsets')
            && e1.gained + GainedAtMost(b, own, offsets, held) <= e.gained + GainedAtMost(b, own', offsets', held)
  {
    var reading, cut, gain, credit := ReadingAtMost(b) as real, Times(CutAtMost(b), b.deposit as real), GainAtMost(b), CreditAtMost(b, held);
    AtMostNonneg(b, own + 1, offsets + 1, held);
    AtMostNonneg(b, own, offsets + 1, held);
    AtMostNonneg(b, own + 1, offsets, held);
    AtMostNonneg(b, own, offsets, held);
    OneMoreTimes(own, reading);
    OneMoreTimes(own, gain);
    OneMoreTimes(offsets, cut);
    OneMoreTimes(offsets, credit);
    OnceTimes(reading);
    OnceTimes(gain);
    NothingTimes(reading);
    NothingTimes(gain);
    hide Times, SlipAfter, ReadingAtMost, CutAtMost, GainAtMost, CreditAtMost, Meets, KeepsTo, Valid;
    if Offsets(p, op) {
      OffsetSlipAtMost(p, op, a, b, e, held);
    } else {
      OwnSlipAtMost(p, op, a, b, e);
    }
  }

  lemma OneMoreTimes(n: nat, x: real)
    ensures Times((n + 1) as real, x) == Times(n as real, x) + x
  {
  }

  lemma AtMostNonneg(b: Bounds, own: nat, offsets: nat, held: real)
    requires b.least > 0 && b.perBpd >= 0.0
    ensures HeldAtMost(b, own, offsets) >= 0.0 && Times(CutAtMost(b), b.deposit as real) >= 0.0
    ensures held >= 0.0 ==> CreditAtMost(b, held) >= 0.0
  {
    FractionNonneg(b.peak, PRECISION * b.least);
    FractionNonneg(1, PRECISION);
    FractionNonneg(1, SCALE_FACTOR);
    NonnegProduct(RateAtMost(b), b.deposit as real);
    NonnegProduct(CutAtMost(b), b.deposit as real);
    NonnegProduct(b.perBpd + RateAtMost(b), b.deposit as real);
    NonnegProduct(own as real, ReadingAtMost(b) as real);
    NonnegProduct(offsets as real, Times(CutAtMost(b), b.deposit as real));
    if held >= 0.0 {
      NonnegProduct(b.perBpd, held);
    }
  }

  /** From the empty pool on, the contract's readings are within a bound of the ledger that is stated in the
      deposits, offsets and their number alone. */
  lemma ReadingsStayClose(ops: seq<Op>, a: Address, b: Bounds)
    requires b.least > 0 && b.perBpd >= 0.0 && MeetsAll(Genesis, ops, a, b)
    ensures var p, l := Run(Genesis, ops), Books(Genesis, map[], ops);
            var held := HeldAtMost(b, OwnCount(ops, a), OffsetCount(ops));
            var gained := GainedAtMost(b, OwnCount(ops, a), OffsetCount(ops), held);
            && EntryOf(l, a).held - held - ReadingAtMost(b) as real <= Compounded(p, a) as real <= EntryOf(l, a).held + held
            && EntryOf(l, a).gained - gained - GainAtMost(b) <= Gain(p, a) as real <= EntryOf(l, a).gained + gained
  {
    TheLoopIsTracked(ops, a);
    SlipAtMost(Genesis, ops, a, b, Slip(0.0, 0.0), HeldAtMost(b, OwnCount(ops, a), OffsetCount(ops)));
    hide HeldAtMost, GainedAtMost, MeetsAll, SlipRun, KeepsTo, Valid, Held, Compounded, Gain, Owed, ReadingAtMost, GainAtMost;
    ReadingsLose(Run(Genesis, ops), a, b);
  }
}
