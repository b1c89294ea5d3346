/** Concrete runs of the Stability Pool in which rounding stands between depositors and what they
    read: one where the pool's BPD falls short, one where its RBTC does, one where a front end's
    stake does although every offset passes the guard on deposits. */
module PoolShortfall {
  import opened Arithmetic
  import opened Units
  import opened VaultList
  import opened PoolModel
  import opened PoolRuns
  import opened PoolWithdrawals
  import opened PoolSolvency


  // ------------------------------------------------------------- single steps

  /** A deposit without front end, from what is read before it. */
  lemma Provides(p: Pool, q: Pool, a: Address, amount: nat)
    requires Valid(p) && a !in p.frontEnds.registered && amount > 0 && (a in p.deposits ==> TagOf(p, a) == NULL) && Gain(p, a) <= p.rbtc
    requires q == Settled(p, a, p.bpd + amount, p.rbtc - Gain(p, a), Compounded(p, a) + amount, NULL, StakeOf(p, NULL) + amount)
    ensures Valid(q) && Next(p, ProvideOp(a, amount, NULL)) == q
  {
    hide Compounded, Gain, StakeOf, Valid;
    assert Settle(p, a, p.bpd + amount, p.rbtc - Gain(p, a), Compounded(p, a) + amount, NULL, StakeOf(p, NULL) + amount) == q;
  }

  /** A full withdrawal without front end. */
  lemma Withdraws(p: Pool, q: Pool, a: Address, amount: nat)
    requires Valid(p) && a in p.deposits && TagOf(p, a) == NULL && amount >= Compounded(p, a)
    requires Compounded(p, a) <= StakeOf(p, NULL) && Compounded(p, a) <= p.bpd && Gain(p, a) <= p.rbtc
    requires q == Settled(p, a, p.bpd - Compounded(p, a), p.rbtc - Gain(p, a), 0, NULL, StakeOf(p, NULL) - Compounded(p, a))
    ensures Valid(q) && Next(p, WithdrawOp(a, amount)) == q
  {
    hide Compounded, Gain, StakeOf, Valid;
    assert Settle(p, a, p.bpd - Compounded(p, a), p.rbtc - Gain(p, a), 0, NULL, StakeOf(p, NULL) - Compounded(p, a)) == q;
  }

  /** An offset worked out from its rounded quantities. */
  lemma EvaluateOffset(p: Pool, q: Pool, debt: nat, coll: nat, loss: nat, err': nat, P': nat, perUnit: nat)
    requires Valid(p) && CanOffset(p, debt) && LossPerUnit(p.bpd, p.errLoss, debt) == (loss, err') && 0 < loss < PRECISION
    requires P' == NextP(p.P, PRECISION - loss) > 0 && ScaleStep(p.P, PRECISION - loss) == 0
    requires perUnit == GainPerUnit(p, coll) && perUnit * p.bpd <= coll * PRECISION + p.errColl
    requires q == p.(rbtc := p.rbtc + coll, bpd := p.bpd - debt, P := P',
      sums := p.sums[(p.epoch, p.scale) := SumAt(p, p.epoch, p.scale) + perUnit * p.P],
      errColl := coll * PRECISION + p.errColl - perUnit * p.bpd, errLoss := err')
    ensures Valid(q) && Offset(p, debt, coll) == Ok(q) && Next(p, OffsetOp(debt, coll)) == q
  {
    hide LossPerUnit, NextP, ScaleStep, GainPerUnit, SumAt, Valid;
    OffsetKeepsValid(p, debt, coll);
  }

  lemma RunOne(p: Pool, op: Op, rest: seq<Op>, q: Pool)
    requires Valid(p) && Valid(q) && Next(p, op) == q
    ensures Run(p, [op] + rest) == Run(q, rest)
    ensures (op.OffsetOp? && CanOffset(p, op.debt) ==> FavoursPool(p, op.debt)) ==> (Guarded(p, [op] + rest) <==> Guarded(q, rest))
  {
    hide Valid, FavoursPool, Next, CanOffset;
    assert ([op] + rest)[0] == op && ([op] + rest)[1..] == rest;
  }

  // -------------------------------------------- the pool's BPD falls short

  ghost function WhaleIn(): Pool {
    Pool(0, 10000000 * U, map[1 := 10000000 * U], map[1 := Snapshot(0, U, 0, 0)],
                U, 0, 0, map[], 0, 0,
                FrontEnds({}, map[1 := 0], map[0 := Stake(10000000 * U, Snapshot(0, U, 0, 0))]))
  }

  ghost function WhaleCut(): Pool {
    Pool(100 * U, 9998000 * U, map[1 := 10000000 * U], map[1 := Snapshot(0, U, 0, 0)],
                999_799_999_999_999_999, 0, 0, map[(0, 0) := 10000000000000 * U], 0, 10000000 * U,
                FrontEnds({}, map[1 := 0], map[0 := Stake(10000000 * U, Snapshot(0, U, 0, 0))]))
  }

  ghost function WhaleOut(): Pool {
    Pool(0, 10_000_000, map[], map[],
                999_799_999_999_999_999, 0, 0, map[(0, 0) := 10000000000000 * U], 0, 10000000 * U,
                FrontEnds({}, map[], map[]))
  }

  ghost function SmallIn(): Pool {
    Pool(0, 3_000_000_000_000_010_000_000, map[2 := 3000 * U], map[2 := Snapshot(10000000000000 * U, 999_799_999_999_999_999, 0, 0)],
                999_799_999_999_999_999, 0, 0, map[(0, 0) := 10000000000000 * U], 0, 10000000 * U,
                FrontEnds({}, map[2 := 0], map[0 := Stake(3000 * U, Snapshot(0, 999_799_999_999_999_999, 0, 0))]))
  }

  ghost function SmallCut(): Pool {
    Pool(100 * U, 1_000_000_000_000_010_000_000, map[2 := 3000 * U], map[2 := Snapshot(10000000000000 * U, 999_799_999_999_999_999, 0, 0)],
                333_266_666_666_672_219, 0, 0, map[(0, 0) := 33_336_666_666_666_555_322_266_666_666_666_778], 666_666_666_667_780_000_000, 2_666_666_666_611_120_000_000,
                FrontEnds({}, map[2 := 0], map[0 := Stake(3000 * U, Snapshot(0, 999_799_999_999_999_999, 0, 0))]))
  }

  lemma ReadsGenesis(p: Pool)
    requires p == Genesis && Valid(p)
    ensures Compounded(p, 1) == 0 && Gain(p, 1) == 0 && StakeOf(p, NULL) == 0
  {
  }

  lemma ToWhaleIn(p: Pool, q: Pool)
    requires p == Genesis && Valid(p) && q == WhaleIn()
    ensures Valid(q) && Next(p, ProvideOp(1, 10000000 * U, NULL)) == q
  {
    ReadsGenesis(p);
    hide Compounded, Gain, StakeOf, Valid;
    Provides(p, q, 1, 10000000 * U);
  }

  lemma NumbersWhaleCut()
    ensures LossPerUnit(10000000 * U, 0, 2000 * U) == (200_000_000_000_001, 10000000 * U)
    ensures NextP(U, PRECISION - 200_000_000_000_001) == 999_799_999_999_999_999 && ScaleStep(U, PRECISION - 200_000_000_000_001) == 0
    ensures (100 * U * PRECISION + 0) / (10000000 * U) == 10_000_000_000_000
  {
  }

  lemma TrackersWhaleCut(p: Pool, q: Pool)
    requires p == WhaleIn() && q == WhaleCut()
    ensures p.bpd == 10000000 * U && p.errLoss == 0 && p.P == U && p.errColl == 0
    ensures q == p.(rbtc := p.rbtc + 100 * U, bpd := p.bpd - 2000 * U, P := 999_799_999_999_999_999,
      sums := p.sums[(p.epoch, p.scale) := SumAt(p, p.epoch, p.scale) + 10_000_000_000_000 * p.P],
      errColl := 100 * U * PRECISION + p.errColl - 10_000_000_000_000 * p.bpd, errLoss := 10000000 * U)
  {
  }

  lemma ToWhaleCut(p: Pool, q: Pool)
    requires p == WhaleIn() && Valid(p) && q == WhaleCut()
    ensures Valid(q) && CanOffset(p, 2000 * U) && Next(p, OffsetOp(2000 * U, 100 * U)) == q
  {
    NumbersWhaleCut();
    TrackersWhaleCut(p, q);
    hide WhaleIn, WhaleCut, LossPerUnit, NextP, ScaleStep, SumAt, Valid;
    EvaluateOffset(p, q, 2000 * U, 100 * U, 200_000_000_000_001, 10000000 * U, 999_799_999_999_999_999, 10_000_000_000_000);
  }

  lemma ReadsWhaleCut(p: Pool)
    requires p == WhaleCut() && Valid(p)
    ensures Compounded(p, 1) == 9_997_999_999_999_999_990_000_000 && Gain(p, 1) == 100 * U && StakeOf(p, NULL) == 9_997_999_999_999_999_990_000_000
  {
    assert CompoundedFrom(p, p.deposits[1], p.snapshots[1]) == 9_997_999_999_999_999_990_000_000 && GainFrom(p, p.deposits[1], p.snapshots[1]) == 100 * U;
    assert CompoundedFrom(p, p.frontEnds.stakes[NULL].value, p.frontEnds.stakes[NULL].snap) == 9_997_999_999_999_999_990_000_000;
  }

  lemma ToWhaleOut(p: Pool, q: Pool)
    requires p == WhaleCut() && Valid(p) && q == WhaleOut()
    ensures Valid(q) && Next(p, WithdrawOp(1, U * U)) == q
  {
    ReadsWhaleCut(p);
    hide Compounded, Gain, StakeOf, Valid;
    Withdraws(p, q, 1, U * U);
  }

  lemma ReadsWhaleOut(p: Pool)
    requires p == WhaleOut() && Valid(p)
    ensures Compounded(p, 2) == 0 && Gain(p, 2) == 0 && StakeOf(p, NULL) == 0
  {
  }

  lemma ToSmallIn(p: Pool, q: Pool)
    requires p == WhaleOut() && Valid(p) && q == SmallIn()
    ensures Valid(q) && Next(p, ProvideOp(2, 3000 * U, NULL)) == q
  {
    ReadsWhaleOut(p);
    hide Compounded, Gain, StakeOf, Valid;
    Provides(p, q, 2, 3000 * U);
  }

  lemma NumbersSmallCut()
    ensures LossPerUnit(3_000_000_000_000_010_000_000, 10000000 * U, 2000 * U) == (666_666_666_666_661_112, 2_666_666_666_611_120_000_000)
    ensures NextP(999_799_999_999_999_999, PRECISION - 666_666_666_666_661_112) == 333_266_666_666_672_219 && ScaleStep(999_799_999_999_999_999, PRECISION - 666_666_666_666_661_112) == 0
    ensures (100 * U * PRECISION + 0) / (3_000_000_000_000_010_000_000) == 33_333_333_333_333_222
  {
  }

  lemma TrackersSmallCut(p: Pool, q: Pool)
    requires p == SmallIn() && q == SmallCut()
    ensures p.bpd == 3_000_000_000_000_010_000_000 && p.errLoss == 10000000 * U && p.P == 999_799_999_999_999_999 && p.errColl == 0
    ensures q == p.(rbtc := p.rbtc + 100 * U, bpd := p.bpd - 2000 * U, P := 333_266_666_666_672_219,
      sums := p.sums[(p.epoch, p.scale) := SumAt(p, p.epoch, p.scale) + 33_333_333_333_333_222 * p.P],
      errColl := 100 * U * PRECISION + p.errColl - 33_333_333_333_333_222 * p.bpd, errLoss := 2_666_666_666_611_120_000_000)
  {
  }

  lemma ToSmallCut(p: Pool, q: Pool)
    requires p == SmallIn() && Valid(p) && q == SmallCut()
    ensures Valid(q) && CanOffset(p, 2000 * U) && Next(p, OffsetOp(2000 * U, 100 * U)) == q
  {
    NumbersSmallCut();
    TrackersSmallCut(p, q);
    hide SmallIn, SmallCut, LossPerUnit, NextP, ScaleStep, SumAt, Valid;
    EvaluateOffset(p, q, 2000 * U, 100 * U, 666_666_666_666_661_112, 2_666_666_666_611_120_000_000, 333_266_666_666_672_219, 33_333_333_333_333_222);
  }

  lemma ReadsSmallCut(p: Pool)
    requires p == SmallCut() && Valid(p)
    ensures Compounded(p, 2) == 1_000_000_000_000_016_661_332 && Gain(p, 2) == 99_999_999_999_999_666_000 && StakeOf(p, NULL) == 1_000_000_000_000_016_661_332
  {
    assert CompoundedFrom(p, p.deposits[2], p.snapshots[2]) == 1_000_000_000_000_016_661_332 && GainFrom(p, p.deposits[2], p.snapshots[2]) == 99_999_999_999_999_666_000;
    assert CompoundedFrom(p, p.frontEnds.stakes[NULL].value, p.frontEnds.stakes[NULL].snap) == 1_000_000_000_000_016_661_332;
  }

  lemma GenesisIsValid()
    ensures Valid(Genesis)
  {
  }

  /** A depositor of ten million BPD absorbs a 2000 BPD vault and leaves. */
  function WhaleRun(): seq<Op> {
    [ProvideOp(1, 10000000 * U, NULL), OffsetOp(2000 * U, 100 * U), WithdrawOp(1, U * U)]
  }

  lemma AfterWhale(rest: seq<Op>)
    ensures Valid(Genesis) && Valid(WhaleOut()) && Run(Genesis, WhaleRun() + rest) == Run(WhaleOut(), rest)
  {
    hide Genesis, WhaleIn, WhaleCut, WhaleOut, Valid, Next;
    GenesisIsValid();
    ToWhaleIn(Genesis, WhaleIn());
    ToWhaleCut(WhaleIn(), WhaleCut());
    ToWhaleOut(WhaleCut(), WhaleOut());
    RunOne(Genesis, ProvideOp(1, 10000000 * U, NULL), [OffsetOp(2000 * U, 100 * U)] + ([WithdrawOp(1, U * U)] + rest), WhaleIn());
    RunOne(WhaleIn(), OffsetOp(2000 * U, 100 * U), [WithdrawOp(1, U * U)] + rest, WhaleCut());
    RunOne(WhaleCut(), WithdrawOp(1, U * U), rest, WhaleOut());
    assert WhaleRun() + rest == [ProvideOp(1, 10000000 * U, NULL)] + ([OffsetOp(2000 * U, 100 * U)] + ([WithdrawOp(1, U * U)] + rest));
  }

  function SmallDeposit(): seq<Op> { [ProvideOp(2, 3000 * U, NULL)] + [] }

  lemma SmallSteps()
    ensures Valid(WhaleOut()) && Valid(SmallIn()) && Valid(SmallCut())
    ensures Run(WhaleOut(), SmallDeposit()) == SmallIn() && CanOffset(SmallIn(), 2000 * U) && Next(SmallIn(), OffsetOp(2000 * U, 100 * U)) == SmallCut()
  {
    hide WhaleOut, SmallIn, SmallCut, Valid, Next, CanOffset;
    AfterWhale([]);
    ToSmallIn(WhaleOut(), SmallIn());
    ToSmallCut(SmallIn(), SmallCut());
    RunOne(WhaleOut(), ProvideOp(2, 3000 * U, NULL), [], SmallIn());
  }

  lemma SmallUnguarded(p: Pool)
    requires p == SmallIn() && CanOffset(p, 2000 * U)
    ensures !FavoursPool(p, 2000 * U)
  {
    NumbersSmallCut();
  }

  /** The guard can fail. The remainder carried from the whale's large pool makes the next 2000 BPD
      vault cut the next depositor's 3000 BPD by too little: 6661332 BPD-wei more are owed than the pool
      holds, and the full withdrawal reverts. */
  lemma RoundingCanBlockAWithdrawal(p: Pool)
    requires p == Genesis
    ensures Valid(p)
    ensures var m := Run(p, WhaleRun() + SmallDeposit()); var q := Next(m, OffsetOp(2000 * U, 100 * U));
            && CanOffset(m, 2000 * U) && !FavoursPool(m, 2000 * U)
            && 2 in q.deposits && Compounded(q, 2) == q.bpd + 6_661_332 && Withdraw(q, 2, Compounded(q, 2)) == Revert
  {
    AfterWhale(SmallDeposit());
    SmallSteps();
    SmallUnguarded(SmallIn());
    ReadsSmallCut(SmallCut());
    CannotPay(SmallCut(), 2);
  }

  /** Every transaction of the depositor reverts. */
  ghost predicate NothingPaid(q: Pool, a: Address)
    requires Valid(q)
  {
    && ClaimGain(q, a) == Revert
    && (forall amount :: Withdraw(q, a, amount) == Revert)
    && (forall amount, tag :: Provide(q, a, amount, tag) == Revert)
  }

  /** More is read than the pool's BPD, its RBTC or the null front end's stake. */
  lemma CannotPay(q: Pool, a: Address)
    requires Valid(q) && a in q.deposits && TagOf(q, a) == NULL
    requires Compounded(q, a) > q.bpd || Gain(q, a) > q.rbtc || Compounded(q, a) > StakeOf(q, NULL)
    ensures Withdraw(q, a, Compounded(q, a)) == Revert
    ensures Gain(q, a) > q.rbtc ==> NothingPaid(q, a)
  {
    hide Compounded, Gain, StakeOf, Valid;
    if Gain(q, a) > q.rbtc {
      forall amount ensures Withdraw(q, a, amount) == Revert {
      }
      forall amount, tag ensures Provide(q, a, amount, tag) == Revert {
      }
    }
  }

  // ------------------------------------------- the pool's RBTC falls short

  ghost function LargeIn(): Pool {
    Pool(0, 10_500_000_000_000_010_000_000, map[2 := 10500 * U], map[2 := Snapshot(10000000000000 * U, 999_799_999_999_999_999, 0, 0)],
                999_799_999_999_999_999, 0, 0, map[(0, 0) := 10000000000000 * U], 0, 10000000 * U,
                FrontEnds({}, map[2 := 0], map[0 := Stake(10500 * U, Snapshot(0, 999_799_999_999_999_999, 0, 0))]))
  }

  ghost function LargeCut(): Pool {
    Pool(350 * U, 3_500_000_000_000_010_000_000, map[2 := 10500 * U], map[2 := Snapshot(10000000000000 * U, 999_799_999_999_999_999, 0, 0)],
                333_266_666_666_668_252, 0, 0, map[(0, 0) := 33_336_666_666_666_634_306_466_666_666_666_699], 6_166_666_666_666_990_000_000, 6_666_666_666_650_800_000_000,
                FrontEnds({}, map[2 := 0], map[0 := Stake(10500 * U, Snapshot(0, 999_799_999_999_999_999, 0, 0))]))
  }

  ghost function LargeCutAgain(): Pool {
    Pool(650 * U, 500_000_000_000_010_000_000, map[2 := 10500 * U], map[2 := Snapshot(10000000000000 * U, 999_799_999_999_999_999, 0, 0)],
                47_609_523_809_524_852, 0, 0, map[(0, 0) := 61_902_380_952_380_974_827_447_619_047_233_391], 523_809_523_812_280_000_000, 95_238_095_197_720_000_000,
                FrontEnds({}, map[2 := 0], map[0 := Stake(10500 * U, Snapshot(0, 999_799_999_999_999_999, 0, 0))]))
  }

  lemma ToLargeIn(p: Pool, q: Pool)
    requires p == WhaleOut() && Valid(p) && q == LargeIn()
    ensures Valid(q) && Next(p, ProvideOp(2, 10500 * U, NULL)) == q
  {
    ReadsWhaleOut(p);
    hide Compounded, Gain, StakeOf, Valid;
    Provides(p, q, 2, 10500 * U);
  }

  lemma NumbersLargeCut()
    ensures LossPerUnit(10_500_000_000_000_010_000_000, 10000000 * U, 7000 * U) == (666_666_666_666_665_080, 6_666_666_666_650_800_000_000)
    ensures NextP(999_799_999_999_999_999, PRECISION - 666_666_666_666_665_080) == 333_266_666_666_668_252 && ScaleStep(999_799_999_999_999_999, PRECISION - 666_666_666_666_665_080) == 0
    ensures (350 * U * PRECISION + 0) / (10_500_000_000_000_010_000_000) == 33_333_333_333_333_301
  {
  }

  lemma TrackersLargeCut(p: Pool, q: Pool)
    requires p == LargeIn() && q == LargeCut()
    ensures p.bpd == 10_500_000_000_000_010_000_000 && p.errLoss == 10000000 * U && p.P == 999_799_999_999_999_999 && p.errColl == 0
    ensures q == p.(rbtc := p.rbtc + 350 * U, bpd := p.bpd - 7000 * U, P := 333_266_666_666_668_252,
      sums := p.sums[(p.epoch, p.scale) := SumAt(p, p.epoch, p.scale) + 33_333_333_333_333_301 * p.P],
      errColl := 350 * U * PRECISION + p.errColl - 33_333_333_333_333_301 * p.bpd, errLoss := 6_666_666_666_650_800_000_000)
  {
  }

  lemma ToLargeCut(p: Pool, q: Pool)
    requires p == LargeIn() && Valid(p) && q == LargeCut()
    ensures Valid(q) && CanOffset(p, 7000 * U) && Next(p, OffsetOp(7000 * U, 350 * U)) == q
  {
    NumbersLargeCut();
    TrackersLargeCut(p, q);
    hide LargeIn, LargeCut, LossPerUnit, NextP, ScaleStep, SumAt, Valid;
    EvaluateOffset(p, q, 7000 * U, 350 * U, 666_666_666_666_665_080, 6_666_666_666_650_800_000_000, 333_266_666_666_668_252, 33_333_333_333_333_301);
  }

  lemma NumbersLargeCutAgain()
    ensures LossPerUnit(3_500_000_000_000_010_000_000, 6_666_666_666_650_800_000_000, 3000 * U) == (857_142_857_142_854_692, 95_238_095_197_720_000_000)
    ensures NextP(333_266_666_666_668_252, PRECISION - 857_142_857_142_854_692) == 47_609_523_809_524_852 && ScaleStep(333_266_666_666_668_252, PRECISION - 857_142_857_142_854_692) == 0
    ensures (300 * U * PRECISION + 6_166_666_666_666_990_000_000) / (3_500_000_000_000_010_000_000) == 85_714_285_714_285_471
  {
  }

  lemma TrackersLargeCutAgain(p: Pool, q: Pool)
    requires p == LargeCut() && q == LargeCutAgain()
    ensures p.bpd == 3_500_000_000_000_010_000_000 && p.errLoss == 6_666_666_666_650_800_000_000 && p.P == 333_266_666_666_668_252 && p.errColl == 6_166_666_666_666_990_000_000
    ensures q == p.(rbtc := p.rbtc + 300 * U, bpd := p.bpd - 3000 * U, P := 47_609_523_809_524_852,
      sums := p.sums[(p.epoch, p.scale) := SumAt(p, p.epoch, p.scale) + 85_714_285_714_285_471 * p.P],
      errColl := 300 * U * PRECISION + p.errColl - 85_714_285_714_285_471 * p.bpd, errLoss := 95_238_095_197_720_000_000)
  {
  }

  lemma ToLargeCutAgain(p: Pool, q: Pool)
    requires p == LargeCut() && Valid(p) && q == LargeCutAgain()
    ensures Valid(q) && CanOffset(p, 3000 * U) && Next(p, OffsetOp(3000 * U, 300 * U)) == q
  {
    NumbersLargeCutAgain();
    TrackersLargeCutAgain(p, q);
    hide LargeCut, LargeCutAgain, LossPerUnit, NextP, ScaleStep, SumAt, Valid;
    EvaluateOffset(p, q, 3000 * U, 300 * U, 857_142_857_142_854_692, 95_238_095_197_720_000_000, 47_609_523_809_524_852, 85_714_285_714_285_471);
  }

  lemma ReadsLargeCutAgain(p: Pool)
    requires p == LargeCutAgain() && Valid(p)
    ensures Compounded(p, 2) == 500_000_000_000_010_948_689 && Gain(p, 2) == 650_000_000_000_000_236_385 && StakeOf(p, NULL) == 500_000_000_000_010_948_689
  {
    assert CompoundedFrom(p, p.deposits[2], p.snapshots[2]) == 500_000_000_000_010_948_689 && GainFrom(p, p.deposits[2], p.snapshots[2]) == 650_000_000_000_000_236_385;
    assert CompoundedFrom(p, p.frontEnds.stakes[NULL].value, p.frontEnds.stakes[NULL].snap) == 500_000_000_000_010_948_689;
  }

  function LargeRun(): seq<Op> {
    [ProvideOp(2, 10500 * U, NULL)] + ([OffsetOp(7000 * U, 350 * U)] + ([OffsetOp(3000 * U, 300 * U)] + []))
  }

  lemma LargeSteps()
    ensures Valid(WhaleOut()) && Valid(LargeCutAgain()) && Run(WhaleOut(), LargeRun()) == LargeCutAgain()
  {
    hide WhaleOut, LargeIn, LargeCut, LargeCutAgain, Valid, Next;
    AfterWhale([]);
    ToLargeIn(WhaleOut(), LargeIn());
    ToLargeCut(LargeIn(), LargeCut());
    ToLargeCutAgain(LargeCut(), LargeCutAgain());
    RunOne(WhaleOut(), ProvideOp(2, 10500 * U, NULL), [OffsetOp(7000 * U, 350 * U)] + ([OffsetOp(3000 * U, 300 * U)] + []), LargeIn());
    RunOne(LargeIn(), OffsetOp(7000 * U, 350 * U), [OffsetOp(3000 * U, 300 * U)] + [], LargeCut());
    RunOne(LargeCut(), OffsetOp(3000 * U, 300 * U), [], LargeCutAgain());
  }

  lemma LargeIsStuck(q: Pool)
    requires q == LargeCutAgain() && Valid(q)
    ensures 2 in q.deposits && Gain(q, 2) == q.rbtc + 236_385 && NothingPaid(q, 2)
  {
    ReadsLargeCutAgain(q);
    CannotPay(q, 2);
  }

  /** After the whale, a depositor of 10500 BPD sees two offsets: more RBTC is owed than the pool holds,
      and every transaction of that depositor reverts, a withdrawal of nothing included. */
  lemma RoundingCanBlockEveryPayout(p: Pool)
    requires p == Genesis
    ensures Valid(p)
    ensures var q := Run(p, WhaleRun() + LargeRun());
            2 in q.deposits && Gain(q, 2) == q.rbtc + 236_385 && NothingPaid(q, 2)
  {
    AfterWhale(LargeRun());
    LargeSteps();
    LargeIsStuck(LargeCutAgain());
    hide Genesis, WhaleOut, LargeCutAgain, Valid, WhaleRun, LargeRun;
  }

  // ---------------------------------------- a front end's stake falls short

  ghost function OneIn(): Pool {
    Pool(0, 3_000_000_000_000_000_000_007, map[1 := 3_000_000_000_000_000_000_007], map[1 := Snapshot(0, U, 0, 0)],
                U, 0, 0, map[], 0, 0,
                FrontEnds({}, map[1 := 0], map[0 := Stake(3_000_000_000_000_000_000_007, Snapshot(0, U, 0, 0))]))
  }

  ghost function BothIn(): Pool {
    Pool(0, 7_000_000_000_000_000_000_007, map[1 := 3_000_000_000_000_000_000_007, 2 := 4000 * U], map[1 := Snapshot(0, U, 0, 0), 2 := Snapshot(0, U, 0, 0)],
                U, 0, 0, map[], 0, 0,
                FrontEnds({}, map[1 := 0, 2 := 0], map[0 := Stake(7_000_000_000_000_000_000_007, Snapshot(0, U, 0, 0))]))
  }

  ghost function BothCut(): Pool {
    Pool(100 * U, 5_000_000_000_000_000_000_007, map[1 := 3_000_000_000_000_000_000_007, 2 := 4000 * U], map[1 := Snapshot(0, U, 0, 0), 2 := Snapshot(0, U, 0, 0)],
                714_285_714_285_714_285, 0, 0, map[(0, 0) := 14285714285714285 * U], 4_999_900_000_000_000_000_005, 5_002_000_000_000_000_000_005,
                FrontEnds({}, map[1 := 0, 2 := 0], map[0 := Stake(7_000_000_000_000_000_000_007, Snapshot(0, U, 0, 0))]))
  }

  ghost function ToppedUp(): Pool {
    Pool(42_857_142_857_142_860_000, 5_700_000_000_000_000_000_007, map[1 := 3_000_000_000_000_000_000_007, 2 := 3_557_142_857_142_857_140_000], map[1 := Snapshot(0, U, 0, 0), 2 := Snapshot(14285714285714285 * U, 714_285_714_285_714_285, 0, 0)],
                714_285_714_285_714_285, 0, 0, map[(0, 0) := 14285714285714285 * U], 4_999_900_000_000_000_000_005, 5_002_000_000_000_000_000_005,
                FrontEnds({}, map[1 := 0, 2 := 0], map[0 := Stake(5_699_999_999_999_999_995_004, Snapshot(0, 714_285_714_285_714_285, 0, 0))]))
  }

  ghost function CutAgain(): Pool {
    Pool(142_857_142_857_142_860_000, 3_700_000_000_000_000_000_007, map[1 := 3_000_000_000_000_000_000_007, 2 := 3_557_142_857_142_857_140_000], map[1 := Snapshot(0, U, 0, 0), 2 := Snapshot(14285714285714285 * U, 714_285_714_285_714_285, 0, 0)],
                463_659_147_869_674_185, 0, 0, map[(0, 0) := 26_817_042_606_516_289_987_468_671_679_197_995], 5_099_777_192_982_456_140_356, 3_004_456_140_350_877_192_985,
                FrontEnds({}, map[1 := 0, 2 := 0], map[0 := Stake(5_699_999_999_999_999_995_004, Snapshot(0, 714_285_714_285_714_285, 0, 0))]))
  }

  ghost function OneOut(): Pool {
    Pool(62_406_015_037_593_990_038, 2_309_022_556_390_977_445_004, map[2 := 3_557_142_857_142_857_140_000], map[2 := Snapshot(14285714285714285 * U, 714_285_714_285_714_285, 0, 0)],
                463_659_147_869_674_185, 0, 0, map[(0, 0) := 26_817_042_606_516_289_987_468_671_679_197_995], 5_099_777_192_982_456_140_356, 3_004_456_140_350_877_192_985,
                FrontEnds({}, map[2 := 0], map[0 := Stake(2_309_022_556_390_977_441_753, Snapshot(0, 463_659_147_869_674_185, 0, 0))]))
  }

  lemma ToOneIn(p: Pool, q: Pool)
    requires p == Genesis && Valid(p) && q == OneIn()
    ensures Valid(q) && Next(p, ProvideOp(1, 3_000_000_000_000_000_000_007, NULL)) == q
  {
    ReadsGenesis(p);
    hide Compounded, Gain, StakeOf, Valid;
    Provides(p, q, 1, 3_000_000_000_000_000_000_007);
  }

  lemma ReadsOneIn(p: Pool)
    requires p == OneIn() && Valid(p)
    ensures Compounded(p, 2) == 0 && Gain(p, 2) == 0 && StakeOf(p, NULL) == 3_000_000_000_000_000_000_007
  {
    assert CompoundedFrom(p, p.frontEnds.stakes[NULL].value, p.frontEnds.stakes[NULL].snap) == 3_000_000_000_000_000_000_007;
  }

  lemma ToBothIn(p: Pool, q: Pool)
    requires p == OneIn() && Valid(p) && q == BothIn()
    ensures Valid(q) && Next(p, ProvideOp(2, 4000 * U, NULL)) == q
  {
    ReadsOneIn(p);
    hide Compounded, Gain, StakeOf, Valid;
    Provides(p, q, 2, 4000 * U);
  }

  lemma NumbersBothCut()
    ensures LossPerUnit(7_000_000_000_000_000_000_007, 0, 2000 * U) == (285_714_285_714_285_715, 5_002_000_000_000_000_000_005)
    ensures NextP(U, PRECISION - 285_714_285_714_285_715) == 714_285_714_285_714_285 && ScaleStep(U, PRECISION - 285_714_285_714_285_715) == 0
    ensures (100 * U * PRECISION + 0) / (7_000_000_000_000_000_000_007) == 14_285_714_285_714_285
  {
  }

  lemma TrackersBothCut(p: Pool, q: Pool)
    requires p == BothIn() && q == BothCut()
    ensures p.bpd == 7_000_000_000_000_000_000_007 && p.errLoss == 0 && p.P == U && p.errColl == 0
    ensures q == p.(rbtc := p.rbtc + 100 * U, bpd := p.bpd - 2000 * U, P := 714_285_714_285_714_285,
      sums := p.sums[(p.epoch, p.scale) := SumAt(p, p.epoch, p.scale) + 14_285_714_285_714_285 * p.P],
      errColl := 100 * U * PRECISION + p.errColl - 14_285_714_285_714_285 * p.bpd, errLoss := 5_002_000_000_000_000_000_005)
  {
  }

  lemma ToBothCut(p: Pool, q: Pool)
    requires p == BothIn() && Valid(p) && q == BothCut()
    ensures Valid(q) && CanOffset(p, 2000 * U) && Next(p, OffsetOp(2000 * U, 100 * U)) == q
  {
    NumbersBothCut();
    TrackersBothCut(p, q);
    hide BothIn, BothCut, LossPerUnit, NextP, ScaleStep, SumAt, Valid;
    EvaluateOffset(p, q, 2000 * U, 100 * U, 285_714_285_714_285_715, 5_002_000_000_000_000_000_005, 714_285_714_285_714_285, 14_285_714_285_714_285);
  }

  lemma ReadsBothCut(p: Pool)
    requires p == BothCut() && Valid(p)
    ensures Compounded(p, 2) == 2_857_142_857_142_857_140_000 && Gain(p, 2) == 57_142_857_142_857_140_000 && StakeOf(p, NULL) == 4_999_999_999_999_999_995_004
  {
    assert CompoundedFrom(p, p.deposits[2], p.snapshots[2]) == 2_857_142_857_142_857_140_000 && GainFrom(p, p.deposits[2], p.snapshots[2]) == 57_142_857_142_857_140_000;
    assert CompoundedFrom(p, p.frontEnds.stakes[NULL].value, p.frontEnds.stakes[NULL].snap) == 4_999_999_999_999_999_995_004;
  }

  lemma SettledToppedUp(p: Pool, q: Pool)
    requires p == BothCut() && q == ToppedUp()
    ensures q == Settled(p, 2, 5_700_000_000_000_000_000_007, 42_857_142_857_142_860_000, 3_557_142_857_142_857_140_000, NULL, 5_699_999_999_999_999_995_004)
  {
    var r := Settled(p, 2, 5_700_000_000_000_000_000_007, 42_857_142_857_142_860_000, 3_557_142_857_142_857_140_000, NULL, 5_699_999_999_999_999_995_004);
    assert r.deposits == q.deposits;
    assert r.snapshots == q.snapshots;
    assert r.frontEnds.tags == q.frontEnds.tags;
    assert r.frontEnds.stakes == q.frontEnds.stakes;
  }

  lemma AmountsToppedUp(p: Pool)
    requires p == BothCut()
    ensures p.bpd == 5_000_000_000_000_000_000_007 && p.rbtc == 100 * U && p.frontEnds.registered == {} && TagOf(p, 2) == NULL && 2 in p.deposits
  {
  }

  lemma ToToppedUp(p: Pool, q: Pool)
    requires p == BothCut() && Valid(p) && q == ToppedUp()
    ensures Valid(q) && Next(p, ProvideOp(2, 700 * U, NULL)) == q
  {
    ReadsBothCut(p);
    SettledToppedUp(p, q);
    AmountsToppedUp(p);
    hide Compounded, Gain, StakeOf, Valid, Settled, TagOf, BothCut, ToppedUp;
    Provides(p, q, 2, 700 * U);
  }

  lemma NumbersCutAgain()
    ensures LossPerUnit(5_700_000_000_000_000_000_007, 5_002_000_000_000_000_000_005, 2000 * U) == (350_877_192_982_456_140, 3_004_456_140_350_877_192_985)
    ensures NextP(714_285_714_285_714_285, PRECISION - 350_877_192_982_456_140) == 463_659_147_869_674_185 && ScaleStep(714_285_714_285_714_285, PRECISION - 350_877_192_982_456_140) == 0
    ensures (100 * U * PRECISION + 4_999_900_000_000_000_000_005) / (5_700_000_000_000_000_000_007) == 17_543_859_649_122_807
  {
  }

  lemma TrackersCutAgain(p: Pool, q: Pool)
    requires p == ToppedUp() && q == CutAgain()
    ensures p.bpd == 5_700_000_000_000_000_000_007 && p.errLoss == 5_002_000_000_000_000_000_005 && p.P == 714_285_714_285_714_285 && p.errColl == 4_999_900_000_000_000_000_005
    ensures q == p.(rbtc := p.rbtc + 100 * U, bpd := p.bpd - 2000 * U, P := 463_659_147_869_674_185,
      sums := p.sums[(p.epoch, p.scale) := SumAt(p, p.epoch, p.scale) + 17_543_859_649_122_807 * p.P],
      errColl := 100 * U * PRECISION + p.errColl - 17_543_859_649_122_807 * p.bpd, errLoss := 3_004_456_140_350_877_192_985)
  {
  }

  lemma ToCutAgain(p: Pool, q: Pool)
    requires p == ToppedUp() && Valid(p) && q == CutAgain()
    ensures Valid(q) && CanOffset(p, 2000 * U) && Next(p, OffsetOp(2000 * U, 100 * U)) == q
  {
    NumbersCutAgain();
    TrackersCutAgain(p, q);
    hide ToppedUp, CutAgain, LossPerUnit, NextP, ScaleStep, SumAt, Valid;
    EvaluateOffset(p, q, 2000 * U, 100 * U, 350_877_192_982_456_140, 3_004_456_140_350_877_192_985, 463_659_147_869_674_185, 17_543_859_649_122_807);
  }

  /** A reading in the epoch and scale of its snapshot, from the numbers that go into it. */
  lemma EvaluateReading(p: Pool, initial: nat, snap: Snapshot, P: nat, sum: nat, value: nat, gain: nat)
    requires SnapOk(p, snap) && p.epoch == snap.epoch == 0 && p.scale == snap.scale == 0 && p.P == P
    requires SumAt(p, 0, 0) == sum && SumAt(p, 0, 1) == 0 && snap.S <= sum
    requires initial * P / snap.P == value >= initial / SCALE_FACTOR
    requires initial * (sum - snap.S) / snap.P / PRECISION == gain
    ensures CompoundedFrom(p, initial, snap) == value && GainFrom(p, initial, snap) == gain
  {
    assert sum - snap.S + 0 / SCALE_FACTOR == sum - snap.S;
  }

  lemma NumbersReadCutAgain()
    ensures 3_000_000_000_000_000_000_007 * 463_659_147_869_674_185 / U == 1_390_977_443_609_022_555_003 >= 3_000_000_000_000_000_000_007 / SCALE_FACTOR
    ensures 3_000_000_000_000_000_000_007 * 26_817_042_606_516_289_987_468_671_679_197_995 / U / PRECISION == 80_451_127_819_548_869_962
    ensures 5_699_999_999_999_999_995_004 * 463_659_147_869_674_185 / 714_285_714_285_714_285 == 3_699_999_999_999_999_996_756 >= 5_699_999_999_999_999_995_004 / SCALE_FACTOR
  {
  }

  lemma TrackersReadCutAgain(p: Pool)
    requires p == CutAgain()
    ensures p.epoch == 0 && p.scale == 0 && p.P == 463_659_147_869_674_185 && SumAt(p, 0, 0) == 26_817_042_606_516_289_987_468_671_679_197_995 && SumAt(p, 0, 1) == 0
    ensures 1 in p.deposits && p.deposits[1] == 3_000_000_000_000_000_000_007 && 1 in p.snapshots && p.snapshots[1] == Snapshot(0, U, 0, 0)
    ensures NULL in p.frontEnds.stakes && p.frontEnds.stakes[NULL] == Stake(5_699_999_999_999_999_995_004, Snapshot(0, 714_285_714_285_714_285, 0, 0))
  {
  }

  lemma ReadsCutAgain(p: Pool)
    requires p == CutAgain() && Valid(p)
    ensures Compounded(p, 1) == 1_390_977_443_609_022_555_003 && Gain(p, 1) == 80_451_127_819_548_869_962 && StakeOf(p, NULL) == 3_699_999_999_999_999_996_756
  {
    NumbersReadCutAgain();
    TrackersReadCutAgain(p);
    hide CutAgain, CompoundedFrom, GainFrom, SumAt;
    EvaluateReading(p, p.deposits[1], p.snapshots[1], 463_659_147_869_674_185, 26_817_042_606_516_289_987_468_671_679_197_995,
                    1_390_977_443_609_022_555_003, 80_451_127_819_548_869_962);
    var stake := p.frontEnds.stakes[NULL];
    EvaluateReading(p, stake.value, stake.snap, 463_659_147_869_674_185, 26_817_042_606_516_289_987_468_671_679_197_995,
                    3_699_999_999_999_999_996_756, stake.value * 26_817_042_606_516_289_987_468_671_679_197_995 / stake.snap.P / PRECISION);
  }

  lemma SettledGone(p: Pool, a: Address, bpd: nat, rbtc: nat, f: Address, stake: nat)
    requires stake > 0
    ensures Settled(p, a, bpd, rbtc, 0, f, stake)
            == p.(bpd := bpd, rbtc := rbtc, deposits := p.deposits - {a}, snapshots := p.snapshots - {a},
                  frontEnds := FrontEnds(p.frontEnds.registered, p.frontEnds.tags - {a},
                                         p.frontEnds.stakes[f := Stake(stake, Snapshot(0, p.P, p.scale, p.epoch))]))
  {
  }

  lemma DepositsOneOut(p: Pool, q: Pool)
    requires p == CutAgain() && q == OneOut()
    ensures p.deposits - {1} == q.deposits && p.snapshots - {1} == q.snapshots
    ensures q == p.(bpd := 2_309_022_556_390_977_445_004, rbtc := 62_406_015_037_593_990_038, deposits := q.deposits, snapshots := q.snapshots, frontEnds := q.frontEnds)
  {
  }

  lemma FrontEndsOneOut(p: Pool, q: Pool)
    requires p == CutAgain() && q == OneOut()
    ensures q.frontEnds == FrontEnds(p.frontEnds.registered, p.frontEnds.tags - {1},
                                     p.frontEnds.stakes[NULL := Stake(2_309_022_556_390_977_441_753, Snapshot(0, p.P, p.scale, p.epoch))])
  {
    assert p.frontEnds.tags - {1} == q.frontEnds.tags;
  }

  lemma SettledOneOut(p: Pool, q: Pool)
    requires p == CutAgain() && q == OneOut()
    ensures q == Settled(p, 1, 2_309_022_556_390_977_445_004, 62_406_015_037_593_990_038, 0, NULL, 2_309_022_556_390_977_441_753)
  {
    SettledGone(p, 1, 2_309_022_556_390_977_445_004, 62_406_015_037_593_990_038, NULL, 2_309_022_556_390_977_441_753);
    DepositsOneOut(p, q);
    FrontEndsOneOut(p, q);
    hide Settled, CutAgain, OneOut;
  }

  lemma AmountsOneOut(p: Pool)
    requires p == CutAgain()
    ensures p.bpd == 3_700_000_000_000_000_000_007 && p.rbtc == 142_857_142_857_142_860_000 && p.frontEnds.registered == {} && TagOf(p, 1) == NULL && 1 in p.deposits
  {
  }

  lemma ToOneOut(p: Pool, q: Pool)
    requires p == CutAgain() && Valid(p) && q == OneOut()
    ensures Valid(q) && Next(p, WithdrawOp(1, U * U)) == q
  {
    ReadsCutAgain(p);
    SettledOneOut(p, q);
    AmountsOneOut(p);
    hide Compounded, Gain, StakeOf, Valid, Settled, TagOf, CutAgain, OneOut;
    Withdraws(p, q, 1, U * U);
  }

  lemma ReadsOneOut(p: Pool)
    requires p == OneOut() && Valid(p)
    ensures Compounded(p, 2) == 2_309_022_556_390_977_441_754 && Gain(p, 2) == 62_406_015_037_593_984_849 && StakeOf(p, NULL) == 2_309_022_556_390_977_441_753
  {
    assert CompoundedFrom(p, p.deposits[2], p.snapshots[2]) == 2_309_022_556_390_977_441_754 && GainFrom(p, p.deposits[2], p.snapshots[2]) == 62_406_015_037_593_984_849;
    assert CompoundedFrom(p, p.frontEnds.stakes[NULL].value, p.frontEnds.stakes[NULL].snap) == 2_309_022_556_390_977_441_753;
  }

  lemma BothCutGuarded(p: Pool)
    requires p == BothIn() && CanOffset(p, 2000 * U)
    ensures FavoursPool(p, 2000 * U)
  {
    NumbersBothCut();
  }

  lemma CutAgainGuarded(p: Pool)
    requires p == ToppedUp() && CanOffset(p, 2000 * U)
    ensures FavoursPool(p, 2000 * U)
  {
    NumbersCutAgain();
  }

  /** Two untagged depositors, an offset, a top-up, another offset; then the first one leaves. */
  function StakeRun(): seq<Op> {
    [ProvideOp(1, 3000 * U + 7, NULL)] + FromOneIn()
  }
  function FromOneIn(): seq<Op> { [ProvideOp(2, 4000 * U, NULL)] + FromBothIn() }
  function FromBothIn(): seq<Op> { [OffsetOp(2000 * U, 100 * U)] + FromBothCut() }
  function FromBothCut(): seq<Op> { [ProvideOp(2, 700 * U, NULL)] + FromToppedUp() }
  function FromToppedUp(): seq<Op> { [OffsetOp(2000 * U, 100 * U)] + FromCutAgain() }
  function FromCutAgain(): seq<Op> { [WithdrawOp(1, U * U)] + [] }

  lemma FirstHalf()
    ensures Valid(Genesis) && Valid(BothCut()) && Run(Genesis, StakeRun()) == Run(BothCut(), FromBothCut())
    ensures Guarded(Genesis, StakeRun()) <==> Guarded(BothCut(), FromBothCut())
  {
    hide Genesis, OneIn, BothIn, BothCut, Valid, Next, CanOffset, FavoursPool, FromBothCut;
    GenesisIsValid();
    ToOneIn(Genesis, OneIn());
    ToBothIn(OneIn(), BothIn());
    ToBothCut(BothIn(), BothCut());
    BothCutGuarded(BothIn());
    RunOne(Genesis, ProvideOp(1, 3000 * U + 7, NULL), FromOneIn(), OneIn());
    RunOne(OneIn(), ProvideOp(2, 4000 * U, NULL), FromBothIn(), BothIn());
    RunOne(BothIn(), OffsetOp(2000 * U, 100 * U), FromBothCut(), BothCut());
  }

  lemma SecondHalf()
    requires Valid(BothCut())
    ensures Valid(OneOut()) && Run(BothCut(), FromBothCut()) == OneOut() && Guarded(BothCut(), FromBothCut())
  {
    hide BothCut, ToppedUp, CutAgain, OneOut, Valid, Next, CanOffset, FavoursPool;
    ToToppedUp(BothCut(), ToppedUp());
    ToCutAgain(ToppedUp(), CutAgain());
    ToOneOut(CutAgain(), OneOut());
    CutAgainGuarded(ToppedUp());
    RunOne(BothCut(), ProvideOp(2, 700 * U, NULL), FromToppedUp(), ToppedUp());
    RunOne(ToppedUp(), OffsetOp(2000 * U, 100 * U), FromCutAgain(), CutAgain());
    RunOne(CutAgain(), WithdrawOp(1, U * U), [], OneOut());
  }

  /** Every offset of this run passes the guard on deposits, and the pool's BPD and RBTC cover the
      second depositor; but the stake of the null front end, rounded down once more than the deposits,
      is one BPD-wei short, and the full withdrawal reverts. */
  lemma StakeCanBlockAWithdrawal(p: Pool)
    requires p == Genesis
    ensures Valid(p) && Guarded(p, StakeRun())
    ensures var q := Run(p, StakeRun());
            && 2 in q.deposits && Compounded(q, 2) <= q.bpd && Gain(q, 2) <= q.rbtc && Compounded(q, 2) == StakeOf(q, NULL) + 1
            && Withdraw(q, 2, Compounded(q, 2)) == Revert
  {
    FirstHalf();
    SecondHalf();
    ReadsOneOut(OneOut());
    CannotPay(OneOut(), 2);
  }
}
