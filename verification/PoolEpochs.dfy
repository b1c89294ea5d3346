/** Where epochs and scales start, and how much of a deposit has to be left for it to stay readable. */
module PoolEpochs {
  import opened Arithmetic
  import opened Units
  import opened VaultList
  import opened PoolModel
  import opened PoolRuns
  import opened PoolSolvency
  import opened PoolRefinement
  import opened PoolStakes
  import opened PoolLedger
  import opened PoolOperations
  import opened PoolSlip

  /** Emptying the pool starts a new epoch at one whole, at scale 0, with nothing carried. */
  lemma EmptyingStartsAfresh(p: Pool, coll: nat)
    requires p.bpd > 0
    ensures var r := Offset(p, p.bpd, coll);
            && r.Ok? && r.pool.epoch == p.epoch + 1 && r.pool.scale == 0 && r.pool.P == 1_000_000_000_000_000_000
            && r.pool.bpd == 0 && r.pool.errLoss == 0 && r.pool.rbtc == p.rbtc + coll
  {
    var loss, after, gain := OffsetExactly(p, p.bpd, coll);
  }

  /** The first deposit after that is read as it was made, until the next offset. */
  lemma FirstOfAnEpoch(p: Pool, coll: nat, a: Address, amount: nat)
    requires Valid(p) && p.bpd > 0 && amount > 0 && a !in p.frontEnds.registered
    ensures var q := Next(p, OffsetOp(p.bpd, coll));
            (forall b :: Compounded(q, b) == 0)
            && (Provide(q, a, amount, NULL).Ok? ==>
                 Compounded(Provide(q, a, amount, NULL).pool, a) == amount && a in Provide(q, a, amount, NULL).pool.deposits
                 && Provide(q, a, amount, NULL).pool.snapshots[a].P == 1_000_000_000_000_000_000)
  {
    EmptyingStartsAfresh(p, coll);
    var q := Offset(p, p.bpd, coll).pool;
    OffsetKeepsValid(p, p.bpd, coll);
    OffsetKeepsRecords(p, q, p.bpd, coll);
    forall b ensures Compounded(q, b) == 0 {
      if b in q.deposits { assert SnapOk(p, p.snapshots[b]); }
    }
    ProvideExactly(q, a, amount, NULL);
    if Provide(q, a, amount, NULL).Ok? {
      ApplyIsUpdate(q, ProvideOp(a, amount, NULL));
    }
    hide Provide, Offset;
  }

  // --------------------------------------------------------------- the product

  /** The product is at most one whole, and below it from the first scale change of an epoch on. */
  predicate BelowOne(p: Pool) {
    p.P <= 1_000_000_000_000_000_000 && (p.scale > 0 ==> p.P < 1_000_000_000_000_000_000)
  }

  lemma OffsetBelowOne(p: Pool, debt: nat, coll: nat)
    requires BelowOne(p) && Offset(p, debt, coll).Ok?
    ensures BelowOne(Offset(p, debt, coll).pool)
  {
    if p.bpd > 0 && debt > 0 {
      var loss, after, gain := OffsetExactly(p, debt, coll);
      var q, factor: nat := Offset(p, debt, coll).pool, PRECISION - loss;
      hide Offset, Credits, LossIs;
      if factor > 0 {
        StaysBelow(p.P, factor, q.P, p.P * factor);
      }
    } else {
      OffsetOfNothing(p, debt, coll);
    }
  }

  lemma StaysBelow(P: nat, factor: nat, P': nat, n: nat)
    requires factor <= PRECISION && n == P * factor
    ensures P' * 1_000_000_000 <= n < 1_000_000_000_000_000_000_000_000_000 ==> P' < 1_000_000_000_000_000_000
    ensures P' * 1_000_000_000_000_000_000 <= n ==> P' <= P
  {
    MulMono(factor, PRECISION, P);
    MulMono(P + 1, P', PRECISION);
  }

  lemma {:induction false} RunBelowOne(p: Pool, ops: seq<Op>)
    requires Valid(p) && BelowOne(p)
    ensures BelowOne(Run(p, ops))
    decreases |ops|
  {
    if ops != [] {
      NextBelowOne(p, ops[0]);
      RunBelowOne(Next(p, ops[0]), ops[1..]);
    }
  }

  lemma NextBelowOne(p: Pool, op: Op)
    requires Valid(p) && BelowOne(p)
    ensures BelowOne(Next(p, op))
  {
    if Apply(p, op).Ok? {
      if ByDepositor(op) {
        ApplyIsUpdate(p, op);
      } else if op.OffsetOp? {
        OffsetBelowOne(p, op.debt, op.coll);
      } else {
        RegisterExactly(p, op.frontEnd);
      }
    }
    hide Provide, Withdraw, ClaimGain, Offset, Valid;
  }

  // ------------------------------------------------------ staying in reading

  lemma TwoScales(k: nat)
    requires k >= 2
    ensures ScalePow(k) >= 1_000_000_000_000_000_000.0
  {
    if k == 2 {
      assert ScalePow(1) == Times(SCALE_FACTOR as real, ScalePow(0)) && ScalePow(2) == Times(SCALE_FACTOR as real, ScalePow(1));
    } else {
      TwoScales(k - 1);
      FirstMono(1.0, SCALE_FACTOR as real, ScalePow(k - 1));
    }
  }

  lemma WorthAgainst(d: real, P: real, P0: real, pow: real, whole: real)
    requires P < whole <= pow && d > 0.0 && P0 > 0.0 && P > 0.0
    ensures Times(P0, Worth(d, P, P0, pow)) < d
  {
    var w := Worth(d, P, P0, pow);
    var x := Times(P0, w);
    assert w * (P0 * pow) == d * P;
    assert x * pow == d * P by { assert x == P0 * w; }
    PositiveTimes(d, pow - P);
    assert d * pow > d * P by { assert Times(d, pow - P) == d * pow - d * P; }
    RealMulMono(d, x, pow);
  }

  /** A deposit whose exact value is at least `1 / P_0` of what was recorded has seen at most one scale
      change in its epoch. */
  lemma CurrentWhileWorth(p: Pool, a: Address)
    requires Valid(p) && BelowOne(p) && a in p.deposits
    ensures Times(p.snapshots[a].P as real, Held(p, a)) >= p.deposits[a] as real ==> Current(p, a)
  {
    var d, snap := p.deposits[a], p.snapshots[a];
    assert SnapOk(p, snap) && d > 0;
    if snap.epoch == p.epoch && p.scale - snap.scale >= 2 {
      TwoScales(p.scale - snap.scale);
      WorthAgainst(d as real, p.P as real, snap.P as real, ScalePow(p.scale - snap.scale), PRECISION as real);
    }
    NothingTimes(snap.P as real);
    assert snap.epoch < p.epoch ==> Held(p, a) == 0.0;
    hide Worth, Times;
  }

  /** What is left of a deposit through offsets, at the least: the product of the shares that survive each,
      less the sum of their deviations. */
  ghost function LeftAtLeast(p: Pool, ops: seq<Op>, a: Address): real
    requires Valid(p) && OnlyOffsets(p, ops)
  {
    Times(Shares(p, ops), Held(p, a)) - Times(Deviations(p, ops), Held(p, a))
  }

  /** So a deposit stays readable through any number of offsets as long as that is at least `1 / P_0` of what
      was recorded - 10^-18 of it for one recorded at one whole, as every first one of an epoch is - and
      then the contract reads the product of the surviving shares, up to their deviations and one
      reading. */
  lemma StaysReadable(past: seq<Op>, ops: seq<Op>, a: Address)
    requires var p := Run(Genesis, past);
             a in p.deposits && OnlyOffsets(p, ops) && Times(p.snapshots[a].P as real, LeftAtLeast(p, ops, a)) >= p.deposits[a] as real
    ensures var p := Run(Genesis, past); var q := Run(p, ops);
            && a in q.deposits && Current(q, a)
            && LeftAtLeast(p, ops, a) - Unread(p.deposits[a]) as real <= Compounded(q, a) as real
                 <= Times(Shares(p, ops), Held(p, a)) + Times(Deviations(p, ops), Held(p, a))
  {
    var p := Run(Genesis, past);
    var q := Run(p, ops);
    assert BelowOne(Genesis);
    RunBelowOne(Genesis, past);
    RunBelowOne(p, ops);
    OffsetsKeepTheShare(p, ops, a);
    OffsetsKeepRecord(p, ops, a);
    TimesMono(p.snapshots[a].P as real, LeftAtLeast(p, ops, a), Held(q, a));
    CurrentWhileWorth(q, a);
    assert SnapOk(q, q.snapshots[a]);
    ReadingLoses(q, q.deposits[a], q.snapshots[a]);
    hide Run, Shares, Deviations, Times, OnlyOffsets;
  }

  lemma {:induction false} OffsetsKeepRecord(p: Pool, ops: seq<Op>, a: Address)
    requires Valid(p) && OnlyOffsets(p, ops) && a in p.deposits
    ensures var q := Run(p, ops); a in q.deposits && q.deposits[a] == p.deposits[a] && q.snapshots[a] == p.snapshots[a]
    decreases |ops|
  {
    if ops != [] {
      OffsetKeepsRecords(p, Next(p, ops[0]), ops[0].debt, ops[0].coll);
      OffsetsKeepRecord(Next(p, ops[0]), ops[1..], a);
    }
  }

  /** The deviations of a run of offsets in the smallest and the largest pool it meets alone. */
  lemma {:induction false} DeviationsInAmounts(p: Pool, ops: seq<Op>, a: Address, b: Bounds)
    requires Valid(p) && OnlyOffsets(p, ops) && MeetsAll(p, ops, a, b) && b.least > 0 && p.errLoss <= b.peak && p.errColl <= b.peak
    ensures Deviations(p, ops) <= Times(|ops| as real, CutAtMost(b))
    decreases |ops|
  {
    NothingTimes(CutAtMost(b));
    if ops != [] {
      var op, rest := ops[0], ops[1..];
      hide Valid, Meets, CutDeviation, CutAtMost, Next, Offsets;
      assert Meets(p, op, a, b) && Offsets(p, op);
      MeetsOffset(p, op, a, b);
      DeviationsAtMost(p, op.debt, b);
      RemaindersAtMost(p, op, a, b);
      DeviationsInAmounts(Next(p, op), rest, a, b);
      OneMoreTimes(|rest|, CutAtMost(b));
    }
  }

  lemma MeetsOffset(p: Pool, op: Op, a: Address, b: Bounds)
    requires Valid(p) && Meets(p, op, a, b) && Offsets(p, op)
    ensures p.P > 0 && CanOffset(p, op.debt) && b.least <= p.bpd && op.OffsetOp?
  {
  }

  /** The surviving share, less for each offset the largest pool per 10^18 of the smallest and a little more
      than a billionth. */
  ghost function ShareAtLeast(p: Pool, ops: seq<Op>, b: Bounds): real
    requires Valid(p) && OnlyOffsets(p, ops) && b.least > 0
  {
    Shares(p, ops) - Times(|ops| as real, CutAtMost(b))
  }

  lemma LeftInAmounts(p: Pool, ops: seq<Op>, a: Address, b: Bounds)
    requires Valid(p) && OnlyOffsets(p, ops) && MeetsAll(p, ops, a, b) && b.least > 0 && p.errLoss <= b.peak && p.errColl <= b.peak
    ensures Times(ShareAtLeast(p, ops, b), Held(p, a)) <= LeftAtLeast(p, ops, a)
  {
    hide Times, Shares, Deviations, OnlyOffsets, MeetsAll, Valid, CutAtMost, Held, HeldFrom;
    HeldBounds(p, a);
    DeviationsInAmounts(p, ops, a, b);
    LessTimes(Shares(p, ops), Deviations(p, ops), Times(|ops| as real, CutAtMost(b)), Held(p, a));
  }

  lemma LessTimes(shares: real, devs: real, most: real, h: real)
    requires devs <= most && h >= 0.0
    ensures Times(shares - most, h) <= Times(shares, h) - Times(devs, h)
  {
    FirstMono(shares - most, shares - devs, h);
    DistributeFirst(shares - devs, devs, h);
  }

  /** So whether a deposit stays readable can be told from the offsets: that share of it is at least 1 / P_0. */
  lemma StaysReadableInAmounts(past: seq<Op>, ops: seq<Op>, a: Address, b: Bounds)
    requires var p := Run(Genesis, past);
             && a in p.deposits && OnlyOffsets(p, ops) && MeetsAll(p, ops, a, b) && b.least > 0 && p.errLoss <= b.peak && p.errColl <= b.peak
             && Times(p.snapshots[a].P as real, Times(ShareAtLeast(p, ops, b), Held(p, a))) >= p.deposits[a] as real
    ensures var q := Run(Run(Genesis, past), ops); a in q.deposits && Current(q, a)
  {
    var p := Run(Genesis, past);
    LeftInAmounts(p, ops, a, b);
    TimesMono(p.snapshots[a].P as real, Times(ShareAtLeast(p, ops, b), Held(p, a)), LeftAtLeast(p, ops, a));
    hide Times, ShareAtLeast, LeftAtLeast, Run, OnlyOffsets, MeetsAll;
    StaysReadable(past, ops, a);
  }
}
