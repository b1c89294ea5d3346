/** How near every stake stays to one common rate of stakes to collateral over whole runs of the
    contracts, and what that makes of the order of two vaults. */
module StakeRates {
  import opened Arithmetic
  import opened Sums
  import opened Units
  import opened VaultList
  import opened VaultAccounts
  import opened Liquidation
  import opened VaultRuns
  import opened OrderDrift
  import opened RewardDust

  /** Every stake is `rate` times its vault's entire collateral, give or take `units` and `share` times
      that collateral. */
  datatype Tolerance = Tolerance(rate: real, units: real, share: real)

  ghost predicate StakeFits(s: System, a: Address, e: Tolerance)
    requires SnapsOk(s) && a in s.vaults
  {
    StakeNear(s, a, e.rate, e.units + Times(e.share, Coll(s, a)))
  }

  /** The rate at which stakes are computed. */
  function SnapshotRate(s: System): real {
    if s.collSnapshot == 0 then 1.0 else s.stakesSnapshot as real / s.collSnapshot as real
  }

  ghost predicate StakesFit(s: System, e: Tolerance)
    requires SnapsOk(s)
  {
    && 0.0 <= e.rate <= 1.0 && e.units >= 1.0 && e.share >= 0.0
    && (forall a :: a in s.vaults ==> StakeFits(s, a, e))
    && -e.share <= SnapshotRate(s) - e.rate <= e.share
  }

  // ------------------------------------------------------- single operations

  lemma FreshStake(stake: real, rate: real, coll: real, e: Tolerance)
    requires Near(stake, rate, coll, 1.0) && -e.share <= rate - e.rate <= e.share && e.units >= 1.0 && coll >= 0.0
    ensures Near(stake, e.rate, coll, e.units + Times(e.share, coll))
  {
    WithinTimes(rate - e.rate, e.share, coll);
    DistributeFirst(rate - e.rate, e.rate, coll);
  }

  lemma NewStakeFits(s: System, t: System, a: Address, e: Tolerance)
    requires SnapsOk(s) && SnapsOk(t) && StakesFit(s, e) && CanStake(s) && a in t.vaults
    requires t.vaults[a].stake == NewStake(s, EntireColl(t, t.vaults[a]))
    ensures StakeFits(t, a, e)
  {
    NewStakeIsNear(s, EntireColl(t, t.vaults[a]));
    hide EntireColl, NewStake, Near, StakeFits;
    FreshStake(t.vaults[a].stake as real, SnapshotRate(s), Coll(t, a), e);
    assert Coll(t, a) == EntireColl(t, t.vaults[a]) as real;
    assert StakeFits(t, a, e) by { StakeFitsMeans(t, a, e); }
  }

  lemma StakeFitsMeans(s: System, a: Address, e: Tolerance)
    requires SnapsOk(s) && a in s.vaults
    ensures StakeFits(s, a, e) <==> Near(s.vaults[a].stake as real, e.rate, Coll(s, a), e.units + Times(e.share, Coll(s, a)))
  {
  }

  /** A vault whose stake and entire collateral are what they were. */
  lemma SameStakeFits(s: System, t: System, a: Address, e: Tolerance)
    requires SnapsOk(s) && SnapsOk(t) && a in s.vaults && a in t.vaults && StakeFits(s, a, e)
    requires t.vaults[a].stake == s.vaults[a].stake && EntireColl(t, t.vaults[a]) == EntireColl(s, s.vaults[a])
    ensures StakeFits(t, a, e)
  {
  }

  lemma OpenFits(s: System, id: Address, coll: nat, debt: nat, e: Tolerance)
    requires Valid(s) && StakesFit(s, e) && Open(s, id, coll, debt).Ok?
    ensures Valid(Open(s, id, coll, debt).system) && StakesFit(Open(s, id, coll, debt).system, e)
  {
    OpenKeeps(s, id, coll, debt);
    var t := Open(s, id, coll, debt).system;
    hide StakeFits, Valid, NewStake, Reward;
    forall a | a in t.vaults ensures StakeFits(t, a, e) {
      if a == id {
        NewStakeFits(s, t, id, e);
      } else {
        SameStakeFits(s, t, a, e);
      }
    }
  }

  lemma AdjustFits(s: System, id: Address, collChange: nat, isCollIncrease: bool, debtChange: nat, isDebtIncrease: bool, e: Tolerance)
    requires Valid(s) && StakesFit(s, e) && Adjust(s, id, collChange, isCollIncrease, debtChange, isDebtIncrease).Ok?
    ensures var t := Adjust(s, id, collChange, isCollIncrease, debtChange, isDebtIncrease).system; Valid(t) && StakesFit(t, e)
  {
    AdjustMovesExactly(s, id, collChange, isCollIncrease, debtChange, isDebtIncrease);
    var t := Adjust(s, id, collChange, isCollIncrease, debtChange, isDebtIncrease).system;
    assert CanStake(s) && t.accColl == s.accColl && SnapshotRate(t) == SnapshotRate(s);
    hide StakeFits, Valid, NewStake, Reward, Adjust;
    forall a | a in t.vaults ensures StakeFits(t, a, e) {
      if a == id {
        NewStakeFits(s, t, id, e);
      } else {
        SameStakeFits(s, t, a, e);
      }
    }
  }

  lemma ApplyFits(s: System, id: Address, e: Tolerance)
    requires Valid(s) && StakesFit(s, e) && ApplyPending(s, id).Ok?
    ensures Valid(ApplyPending(s, id).system) && StakesFit(ApplyPending(s, id).system, e)
  {
    ApplyKeeps(s, id, 0, 0);
    ApplyMovesNothing(s, id);
    var t := ApplyPending(s, id).system;
    hide StakeFits, Valid, Reward;
    forall a | a in t.vaults ensures StakeFits(t, a, e) {
      SameStakeFits(s, t, a, e);
    }
  }

  lemma CloseFits(s: System, id: Address, e: Tolerance)
    requires Valid(s) && StakesFit(s, e) && Close(s, id).Ok?
    ensures Valid(Close(s, id).system) && StakesFit(Close(s, id).system, e)
  {
    CloseKeeps(s, id);
    var t := Close(s, id).system;
    assert t.accColl == s.accColl && SnapshotRate(t) == SnapshotRate(s);
    CloseMovesExactly(s, id);
    hide StakeFits, Valid, Reward, Close;
    forall a | a in t.vaults ensures StakeFits(t, a, e) {
      SameStakeFits(s, t, a, e);
    }
  }

  // ------------------------------------------------------------ liquidations

  ghost predicate TotalsNear(stakes: real, rate: real, colls: real, n: nat, units: real, share: real) {
    Near(stakes, rate, colls, Times(n as real, units) + Times(share, colls))
  }

  lemma OneMoreNear(stake: real, stakes: real, rate: real, coll: real, colls: real, n: nat, units: real, share: real)
    requires Near(stake, rate, coll, units + Times(share, coll)) && TotalsNear(stakes, rate, colls, n, units, share)
    ensures TotalsNear(stake + stakes, rate, coll + colls, n + 1, units, share)
  {
    Distribute(rate, coll, colls);
    Distribute(share, coll, colls);
    DistributeFirst(n as real, 1.0, units);
    assert Times(1.0, units) == units;
    hide Times;
  }

  lemma {:induction false} SumsNear(s: System, ids: set<Address>, rate: real, units: real, share: real)
    requires SnapsOk(s) && ids <= s.vaults.Keys
    requires forall a :: a in ids ==> StakeFits(s, a, Tolerance(rate, units, share))
    ensures TotalsNear(AllStakes(s, ids) as real, rate, AllColls(s, ids) as real, |ids|, units, share)
    decreases |ids|
  {
    if ids != {} {
      var a :| a in ids;
      var rest := ids - {a};
      SumIntRemove(ids, (b: Address) => CollOf(s, b), a);
      SumIntRemove(ids, (b: Address) => StakeOf(s, b), a);
      SumsNear(s, rest, rate, units, share);
      assert StakeFits(s, a, Tolerance(rate, units, share));
      hide Times, TotalsNear, Near;
      OneMoreNear(s.vaults[a].stake as real, AllStakes(s, rest) as real, rate, Coll(s, a), AllColls(s, rest) as real, |rest|, units, share);
    } else {
      assert TotalsNear(0.0, rate, 0.0, 0, units, share);
    }
  }

  /** What the new snapshot rate may add to `share`. */
  ghost function RateShift(n: nat, units: real, rate: real, dust: int, coll: nat): real {
    if coll == 0 then 1.0 else (Times(n as real, units) + Times(rate, dust as real)) / coll as real
  }

  lemma SnapshotNear(stakes: nat, rate: real, colls: int, dust: int, coll: nat, n: nat, units: real, share: real)
    requires TotalsNear(stakes as real, rate, colls as real, n, units, share) && colls + dust == coll && dust >= 0
    requires 0.0 <= rate <= 1.0 && units >= 0.0 && share >= 0.0
    ensures RateShift(n, units, rate, dust, coll) >= 0.0
    ensures var now := if coll == 0 then 1.0 else stakes as real / coll as real;
            -(share + RateShift(n, units, rate, dust, coll)) <= now - rate <= share + RateShift(n, units, rate, dust, coll)
  {
    if coll > 0 {
      var c, shift := coll as real, Times(n as real, units) + Times(rate, dust as real);
      NonnegProduct(n as real, units);
      NonnegProduct(rate, dust as real);
      QuotientMonotone(0.0, shift, c);
      TimesQuotient(stakes as real, c);
      TimesQuotient(shift, c);
      var now, most := stakes as real / c, share + shift / c;
      Distribute(rate, colls as real, dust as real);
      TimesMono(share, colls as real, c);
      assert c == colls as real + dust as real;
      DistributeFirst(now - rate, rate, c);
      DistributeFirst(share, shift / c, c);
      DistributeFirst(-most, most, c);
      assert Times(0.0, c) == 0.0;
      assert Times(now - rate, c) <= Times(most, c) && -Times(most, c) <= Times(now - rate, c) by { hide Times; }
      RealMulMono(now - rate, most, c);
      RealMulMono(-most, now - rate, c);
    }
  }

  /** A stake that a liquidation spares, against the rate lowered by what it has earned. */
  lemma SparedStakeFits(s: System, t: System, a: Address, e: Tolerance)
    requires SnapsOk(s) && SnapsOk(t) && Spared(s, t, a) && StakeFits(s, a, e)
    requires 0.0 <= e.rate <= 1.0 && e.units >= 0.0 && e.share >= 0.0
    ensures 1.0 + Times(Earned(s, t), e.rate) >= 1.0 && 0.0 <= Lower(e.rate, Earned(s, t)) <= e.rate
    ensures StakeFits(t, a, Tolerance(Lower(e.rate, Earned(s, t)), e.units + e.rate, e.share))
  {
    var k := e.units + Times(e.share, Coll(s, a));
    NonnegProduct(e.share, Coll(s, a));
    AmountGrows(s, t, a);
    CollNeverFalls(s, t, a);
    TimesMono(e.share, Coll(s, a), Coll(t, a));
    hide Times, EntireColl, Grows, Earned;
    assert Earned(s, t) >= 0.0 by { EarnedNonneg(s, t); }
    NearAfter(Coll(s, a), Coll(t, a), s.vaults[a].stake as real, e.rate, k, Earned(s, t));
  }

  lemma EarnedNonneg(s: System, t: System)
    requires s.accColl <= t.accColl
    ensures Earned(s, t) >= 0.0
  {
  }

  lemma CollNeverFalls(s: System, t: System, a: Address)
    requires SnapsOk(s) && SnapsOk(t) && Spared(s, t, a)
    ensures Coll(s, a) <= Coll(t, a)
  {
    var v := s.vaults[a];
    assert SnapOk(s, v);
    RewardNeverFalls(v.stake, s.accColl, t.accColl, v.snapColl);
    hide Reward;
  }

  lemma RewardNeverFalls(stake: nat, acc: nat, acc': nat, snap: nat)
    requires snap <= acc <= acc'
    ensures Reward(stake, acc, snap) <= Reward(stake, acc', snap)
  {
    var n, m := stake * (acc - snap), stake * (acc' - snap);
    MulMono(acc - snap, acc' - snap, stake);
    DivBounds(m, PRECISION);
    QuotientBelow(n, PRECISION, m / PRECISION + 1);
  }

  /** The tolerance after a transaction: a liquidation lowers the rate by what every unit of stake has
      earned, costs one rounding, and computes the snapshot rate anew. */
  ghost function ToleranceAfter(s: System, op: Op, e: Tolerance): Tolerance
    requires Valid(s) && WellFormed(op) && e.rate >= 0.0
  {
    var t := Transact(s, op);
    if !op.BatchLiquidateVaults? || Attempt(s, op).Revert? then e
    else
      TransactKeeps(s, op);
      BatchEarns(s, op);
      NonnegProduct(Earned(s, t), e.rate);
      var rate, units := Lower(e.rate, Earned(s, t)), e.units + e.rate;
      Tolerance(rate, units, e.share + RateShift(|t.vaults|, units, rate, Dust(t), t.collSnapshot))
  }

  lemma BatchEarns(s: System, op: Op)
    requires SnapsOk(s) && WellFormed(op) && op.BatchLiquidateVaults? && Attempt(s, op).Ok?
    ensures Earned(s, Transact(s, op)) >= 0.0
  {
    BatchAdds(s, op.users, op.price, op.pool);
    EarnedNonneg(s, Transact(s, op));
  }

  /** Every stake that a batch spares, against the lowered rate. */
  lemma BatchSparesFit(s: System, op: Op, e: Tolerance)
    requires Valid(s) && StakesFit(s, e) && WellFormed(op) && op.BatchLiquidateVaults? && Attempt(s, op).Ok?
    ensures var t := Transact(s, op);
            && Valid(t) && Earned(s, t) >= 0.0 && 1.0 + Times(Earned(s, t), e.rate) >= 1.0 && 0.0 <= Lower(e.rate, Earned(s, t)) <= 1.0
            && forall a :: a in t.vaults ==> StakeFits(t, a, Tolerance(Lower(e.rate, Earned(s, t)), e.units + e.rate, e.share))
  {
    TransactKeeps(s, op);
    BatchEarns(s, op);
    var t := Transact(s, op);
    NonnegProduct(Earned(s, t), e.rate);
    SmallerQuotient(e.rate, 1.0 + Times(Earned(s, t), e.rate));
    hide Attempt, Transact, StakeFits, Earned, Times, Valid;
    forall a | a in t.vaults ensures StakeFits(t, a, Tolerance(Lower(e.rate, Earned(s, t)), e.units + e.rate, e.share)) {
      TransactSpares(s, op, a);
      SparedStakeFits(s, t, a, e);
    }
  }

  lemma BatchFits(s: System, op: Op, e: Tolerance)
    requires Valid(s) && StakesFit(s, e) && WellFormed(op) && op.BatchLiquidateVaults? && Attempt(s, op).Ok?
    ensures Valid(Transact(s, op)) && StakesFit(Transact(s, op), ToleranceAfter(s, op, e))
  {
    BatchSparesFit(s, op, e);
    BatchLiquidateKeeps(s, op.users, op.price, op.pool);
    var t := Transact(s, op);
    DustNonneg(t);
    assert t.collSnapshot == AllColls(t, t.vaults.Keys) + Dust(t) && t.stakesSnapshot == AllStakes(t, t.vaults.Keys);
    SnapshotFits(t, Tolerance(Lower(e.rate, Earned(s, t)), e.units + e.rate, e.share));
    hide BatchLiquidate, StakesFit, Valid, Lower, Earned;
  }

  lemma SnapshotFits(t: System, e: Tolerance)
    requires SnapsOk(t) && 0.0 <= e.rate <= 1.0 && e.units >= 1.0 && e.share >= 0.0 && Dust(t) >= 0
    requires t.collSnapshot == AllColls(t, t.vaults.Keys) + Dust(t) && t.stakesSnapshot == AllStakes(t, t.vaults.Keys)
    requires forall a :: a in t.vaults ==> StakeFits(t, a, e)
    ensures StakesFit(t, e.(share := e.share + RateShift(|t.vaults|, e.units, e.rate, Dust(t), t.collSnapshot)))
  {
    var shift := RateShift(|t.vaults|, e.units, e.rate, Dust(t), t.collSnapshot);
    assert |t.vaults.Keys| == |t.vaults|;
    hide StakeFits, Dust, AllColls, AllStakes, RateShift, TotalsNear;
    SumsNear(t, t.vaults.Keys, e.rate, e.units, e.share);
    SnapshotNear(t.stakesSnapshot, e.rate, AllColls(t, t.vaults.Keys), Dust(t), t.collSnapshot, |t.vaults.Keys|, e.units, e.share);
    forall a | a in t.vaults ensures StakeFits(t, a, e.(share := e.share + shift)) {
      WiderFits(t, a, e.rate, e.units, e.share, e.share + shift);
    }
  }

  lemma WiderFits(s: System, a: Address, rate: real, units: real, share: real, share': real)
    requires SnapsOk(s) && a in s.vaults && StakeFits(s, a, Tolerance(rate, units, share)) && share <= share'
    ensures StakeFits(s, a, Tolerance(rate, units, share'))
  {
    FirstMono(share, share', Coll(s, a));
  }

  // -------------------------------------------------------------- whole runs

  lemma TransactFits(s: System, op: Op, e: Tolerance)
    requires Valid(s) && StakesFit(s, e) && WellFormed(op)
    ensures Valid(Transact(s, op)) && StakesFit(Transact(s, op), ToleranceAfter(s, op, e))
  {
    if Attempt(s, op).Ok? {
      match op
      case OpenVault(id, coll, debt) => OpenFits(s, id, coll, debt, e);
      case AdjustVault(id, c, ci, d, di) => AdjustFits(s, id, c, ci, d, di, e);
      case ApplyRewards(id) => ApplyFits(s, id, e);
      case CloseVault(id) => CloseFits(s, id, e);
      case BatchLiquidateVaults(_, _, _) => BatchFits(s, op, e);
    }
  }

  /** The tolerance worked out along a run. */
  ghost function ToleranceRun(s: System, ops: seq<Op>, e: Tolerance): (e': Tolerance)
    requires Valid(s) && StakesFit(s, e) && AllWellFormed(ops)
    ensures StakesFit(Run(s, ops), e')
    decreases |ops|
  {
    if ops == [] then e
    else
      TransactFits(s, ops[0], e);
      ToleranceRun(Transact(s, ops[0]), ops[1..], ToleranceAfter(s, ops[0], e))
  }

  const Exact: Tolerance := Tolerance(1.0, 1.0, 0.0)

  lemma InitialFits(s: System)
    requires Initial(s)
    ensures Valid(s) && StakesFit(s, Exact)
  {
    InitialIsValid(s);
  }

  /** In every reachable state every stake is within the tolerance of one common rate, which costs at
      most one unit for each transaction. */
  lemma {:induction false} StakesStayNear(s: System, ops: seq<Op>, e: Tolerance)
    requires Valid(s) && StakesFit(s, e) && AllWellFormed(ops)
    ensures var e' := ToleranceRun(s, ops, e);
            && (forall a :: a in Run(s, ops).vaults ==> StakeFits(Run(s, ops), a, e'))
            && 0.0 <= e'.rate <= 1.0 && e.units <= e'.units <= e.units + |ops| as real && e.share <= e'.share
    decreases |ops|
  {
    if ops != [] {
      TransactFits(s, ops[0], e);
      ToleranceWidens(s, ops[0], e);
      StakesStayNear(Transact(s, ops[0]), ops[1..], ToleranceAfter(s, ops[0], e));
    }
  }

  lemma ToleranceWidens(s: System, op: Op, e: Tolerance)
    requires Valid(s) && StakesFit(s, e) && WellFormed(op)
    ensures var e' := ToleranceAfter(s, op, e); e.units <= e'.units <= e.units + 1.0 && e.share <= e'.share
  {
    if op.BatchLiquidateVaults? && Attempt(s, op).Ok? {
      BatchSparesFit(s, op, e);
      var t := Transact(s, op);
      DustNonneg(t);
      ShiftNonneg(|t.vaults|, e.units + e.rate, Lower(e.rate, Earned(s, t)), Dust(t), t.collSnapshot);
    }
  }

  lemma ShiftNonneg(n: nat, units: real, rate: real, dust: int, coll: nat)
    requires units >= 0.0 && rate >= 0.0 && dust >= 0
    ensures RateShift(n, units, rate, dust, coll) >= 0.0
  {
    NonnegProduct(n as real, units);
    NonnegProduct(rate, dust as real);
    if coll > 0 {
      QuotientMonotone(0.0, Times(n as real, units) + Times(rate, dust as real), coll as real);
    }
  }

  // ------------------------------------------- how wide the tolerance can get

  /** Every liquidation of the run that goes through leaves at most `n` vaults, at least `coll` in the
      two pools and a remainder of at most `err`. */
  ghost predicate Sized(s: System, ops: seq<Op>, n: nat, coll: nat, err: nat)
    requires Valid(s) && AllWellFormed(ops)
    decreases |ops|
  {
    ops == [] ||
    (TransactKeeps(s, ops[0]);
     var t := Transact(s, ops[0]);
     (ops[0].BatchLiquidateVaults? && Attempt(s, ops[0]).Ok? ==> |t.vaults| <= n && coll <= t.collSnapshot && t.errColl <= err)
     && Sized(t, ops[1..], n, coll, err))
  }

  /** What one liquidation can add to `share`: one rounding of each stake and what rounding has left behind,
      per collateral. */
  ghost function OneShift(n: nat, coll: nat, err: nat, gap: int, units: real): real
    requires coll > 0
  {
    (Times(n as real, units) + DustBound(n, err, gap)) / coll as real
  }

  ghost function DustBound(n: nat, err: nat, gap: int): real { n as real + (gap + err) as real / PRECISION as real }

  lemma DustAtMost(dust: int, m: nat, n: nat, err: nat, err': nat, gap: int, gap': int)
    requires PRECISION * dust <= gap' + err' + PRECISION * m && m <= n && err' <= err && gap' <= gap
    ensures dust as real <= DustBound(n, err, gap)
  {
    var w := PRECISION as real;
    assert PRECISION * (dust - n) <= gap + err;
    RealMulMono((dust - n) as real, (gap + err) as real / w, w);
  }

  lemma ShiftAtMost(m: nat, units: real, rate: real, dust: int, coll: nat, n: nat, units': real, least: nat, dust': real)
    requires m <= n && 0.0 <= units <= units' && 0.0 <= rate <= 1.0 && 0 <= dust && dust as real <= dust' && 0 < least <= coll
    ensures RateShift(m, units, rate, dust, coll) <= (Times(n as real, units') + dust') / least as real
  {
    var top, top' := Times(m as real, units) + Times(rate, dust as real), Times(n as real, units') + dust';
    FirstMono(m as real, n as real, units);
    TimesMono(n as real, units, units');
    FirstMono(rate, 1.0, dust as real);
    NonnegProduct(n as real, units');
    QuotientMonotone(top, top', coll as real);
    SmallerDivisor(top', coll as real, least as real);
  }

  lemma SmallerDivisor(x: real, c: real, d: real)
    requires x >= 0.0 && 0.0 < d <= c
    ensures x / c <= x / d
  {
    QuotientMonotone(0.0, x, d);
    ProductMonotone(x / d, d, c);
    RealMulMono(x / c, x / d, c);
  }

  lemma OneShareAtMost(s: System, op: Op, e: Tolerance, n: nat, coll: nat, err: nat, gap: int, units: real)
    requires Valid(s) && StakesFit(s, e) && WellFormed(op) && coll > 0
    requires op.BatchLiquidateVaults? && Attempt(s, op).Ok?
    requires |Transact(s, op).vaults| <= n && coll <= Transact(s, op).collSnapshot && Transact(s, op).errColl <= err
    requires CollGap(s) + PRECISION * Payouts(op) <= gap && e.units + 1.0 <= units
    ensures ToleranceAfter(s, op, e).share <= e.share + OneShift(n, coll, err, gap, units)
  {
    BatchSparesFit(s, op, e);
    TransactGap(s, op);
    var t := Transact(s, op);
    DustNonneg(t);
    DustIsRounding(t);
    hide CollGap, Dust, Attempt, Transact, StakesFit;
    DustAtMost(Dust(t), |t.vaults|, n, err, t.errColl, gap, CollGap(t));
    ShiftAtMost(|t.vaults|, e.units + e.rate, Lower(e.rate, Earned(s, t)), Dust(t), t.collSnapshot, n, units, coll, DustBound(n, err, gap));
  }

  lemma OnceMore(n: nat, x: real)
    ensures Times((n + 1) as real, x) == x + Times(n as real, x)
  {
  }

  lemma {:induction false} ShareAtMost(s: System, ops: seq<Op>, e: Tolerance, n: nat, coll: nat, err: nat, gap: int, units: real)
    requires Valid(s) && StakesFit(s, e) && AllWellFormed(ops) && coll > 0 && Sized(s, ops, n, coll, err)
    requires CollGap(s) + PRECISION * AllPayouts(ops) <= gap && e.units + |ops| as real <= units && OneShift(n, coll, err, gap, units) >= 0.0
    ensures ToleranceRun(s, ops, e).share <= e.share + Times(|ops| as real, OneShift(n, coll, err, gap, units))
    decreases |ops|
  {
    if ops != [] {
      var op, rest := ops[0], ops[1..];
      assert AllPayouts(ops) == Payouts(op) + AllPayouts(rest);
      hide CollGap, StakesFit, Transact, Attempt, OneShift, Payouts, AllPayouts, Times, Valid;
      TransactFits(s, op, e);
      ToleranceWidens(s, op, e);
      TransactGap(s, op);
      if op.BatchLiquidateVaults? && Attempt(s, op).Ok? {
        OneShareAtMost(s, op, e, n, coll, err, gap, units);
      }
      ShareAtMost(Transact(s, op), rest, ToleranceAfter(s, op, e), n, coll, err, gap, units);
      OnceMore(|rest|, OneShift(n, coll, err, gap, units));
    }
  }

  /** From the empty system on: after `L` transactions `units` is at most `1 + L`, and `share` at most `L`
      times what one rounding for each stake and each reward ever paid makes of the smallest collateral
      that a liquidation left. */
  lemma ToleranceIsSmall(s: System, ops: seq<Op>, n: nat, coll: nat, err: nat)
    requires Initial(s) && AllWellFormed(ops) && coll > 0
    ensures Valid(s) && StakesFit(s, Exact)
    ensures var e := ToleranceRun(s, ops, Exact); var units := 1.0 + |ops| as real;
            && e.units <= units
            && (Sized(s, ops, n, coll, err) ==>
                 e.share <= Times(|ops| as real, OneShift(n, coll, err, PRECISION * AllPayouts(ops), units)))
  {
    InitialFits(s);
    StakesStayNear(s, ops, Exact);
    var gap, units := PRECISION * AllPayouts(ops), 1.0 + |ops| as real;
    forall a: Address ensures Entry(s, CollRewards, a) == 0 {
    }
    assert CollGap(s) == 0;
    NonnegProduct(n as real, units);
    QuotientMonotone(0.0, (gap + err) as real, PRECISION as real);
    QuotientMonotone(0.0, Times(n as real, units) + DustBound(n, err, gap), coll as real);
    if Sized(s, ops, n, coll, err) {
      ShareAtMost(s, ops, Exact, n, coll, err, gap, units);
    }
  }

  // ------------------------------------------------------ the order of two vaults

  /** One bound for the two vaults. */
  ghost function PairUnits(s: System, a: Address, b: Address, e: Tolerance): real
    requires SnapsOk(s) && a in s.vaults && b in s.vaults
  {
    e.units + Times(e.share, Coll(s, a) + Coll(s, b))
  }

  lemma PairNear(s: System, a: Address, b: Address, e: Tolerance)
    requires SnapsOk(s) && a in s.vaults && b in s.vaults && StakesFit(s, e)
    ensures PairUnits(s, a, b, e) >= 0.0
    ensures StakeNear(s, a, e.rate, PairUnits(s, a, b, e)) && StakeNear(s, b, e.rate, PairUnits(s, a, b, e))
  {
    assert StakeFits(s, a, e) && StakeFits(s, b, e);
    Distribute(e.share, Coll(s, a), Coll(s, b));
    NonnegProduct(e.share, Coll(s, a));
    NonnegProduct(e.share, Coll(s, b));
    hide Times, EntireColl;
  }

  /** The NICR of `a` is above that of `b` by more than rounding can take away while every unit of
      stake earns `x` and is charged `y`. */
  ghost predicate FarAhead(s: System, a: Address, b: Address, e: Tolerance, x: real, y: real)
    requires SnapsOk(s) && a in s.vaults && b in s.vaults
  {
    && DebtOf(s, a) > 0 && DebtOf(s, b) > 0
    && Times(NICR_PRECISION as real, Most(s, a, b, PairUnits(s, a, b, e), x, y))
       <= ((NICR(s, a) - NICR(s, b) - 1) * (DebtOf(s, a) * DebtOf(s, b))) as real
  }

  lemma FarAheadStays(s: System, t: System, a: Address, b: Address, e: Tolerance)
    requires SnapsOk(s) && SnapsOk(t) && StakesFit(s, e) && Spared(s, t, a) && Spared(s, t, b)
    ensures LeadKept(s, t, a, b, e.rate, PairUnits(s, a, b, e))
    ensures FarAhead(s, a, b, e, Earned(s, t), Charged(s, t)) ==> NICR(t, a) >= NICR(t, b)
  {
    PairNear(s, a, b, e);
    var k := PairUnits(s, a, b, e);
    SparedKeepLead(s, t, a, b, e.rate, k);
    if FarAhead(s, a, b, e, Earned(s, t), Charged(s, t)) {
      LeadAndRatios(s, a, b);
      DebtNeverFalls(s, t, a);
      DebtNeverFalls(s, t, b);
      LeadAndRatios(t, a, b);
      hide NICR, DebtOf, Most, VaultLead, PairUnits;
      LessByFactor(NICR_PRECISION as real, Most(s, a, b, k, Earned(s, t), Charged(s, t)), VaultLead(s, a, b));
    }
  }

  lemma LessByFactor(w: real, x: real, y: real)
    requires w > 0.0 && Times(w, x) < Times(w, y)
    ensures x < y
  {
    if y <= x {
      TimesMono(w, y, x);
    }
  }

  lemma DebtNeverFalls(s: System, t: System, a: Address)
    requires SnapsOk(s) && SnapsOk(t) && Spared(s, t, a)
    ensures DebtOf(s, a) <= DebtOf(t, a)
  {
    var v := s.vaults[a];
    assert SnapOk(s, v);
    RewardNeverFalls(v.stake, s.accDebt, t.accDebt, v.snapDebt);
    hide Reward;
  }

  /** From the empty system on, whatever has happened before: over every run in which two vaults are
      neither operated on nor closed, whatever else opens, closes or is liquidated meanwhile, the lead of
      one over the other grows by a common factor up to rounding, and an NICR far enough ahead is never
      overtaken. The rewards are rounded once for the whole run, not once for each liquidation. */
  lemma RunKeepsLead(s0: System, past: seq<Op>, ops: seq<Op>, a: Address, b: Address)
    requires Initial(s0) && AllWellFormed(past) && AllWellFormed(ops) && forall op :: op in ops ==> Leaves(op, a) && Leaves(op, b)
    ensures Valid(s0) && StakesFit(s0, Exact)
    ensures var s, e := Run(s0, past), ToleranceRun(s0, past, Exact);
            var t := Run(s, ops);
            a in t.vaults && b in t.vaults ==>
              && Spared(s, t, a) && Spared(s, t, b) && LeadKept(s, t, a, b, e.rate, PairUnits(s, a, b, e))
              && (FarAhead(s, a, b, e, Earned(s, t), Charged(s, t)) ==> NICR(t, a) >= NICR(t, b))
  {
    InitialFits(s0);
    var s, e := Run(s0, past), ToleranceRun(s0, past, Exact);
    var t := Run(s, ops);
    if a in t.vaults && b in t.vaults {
      RunSpares(s, ops, a);
      RunSpares(s, ops, b);
      FarAheadStays(s, t, a, b, e);
    }
  }

  /** So a list of vaults that are left alone stays sorted if each is far enough ahead of the next. */
  lemma RunKeepsListSorted(s0: System, past: seq<Op>, ops: seq<Op>, order: seq<Address>)
    requires Initial(s0) && AllWellFormed(past) && AllWellFormed(ops)
    requires forall op, i :: op in ops && 0 <= i < |order| ==> Leaves(op, order[i])
    ensures Valid(s0) && StakesFit(s0, Exact)
    ensures var s, e := Run(s0, past), ToleranceRun(s0, past, Exact);
            var t := Run(s, ops);
            (forall i :: 0 <= i < |order| ==> order[i] in t.vaults && order[i] in s.vaults)
            && (forall i :: 0 < i < |order| ==> FarAhead(s, order[i - 1], order[i], e, Earned(s, t), Charged(s, t)))
            ==> Descending(order, Ratios(t))
  {
    InitialFits(s0);
    var s, e := Run(s0, past), ToleranceRun(s0, past, Exact);
    var t := Run(s, ops);
    if (forall i :: 0 <= i < |order| ==> order[i] in t.vaults && order[i] in s.vaults)
       && forall i :: 0 < i < |order| ==> FarAhead(s, order[i - 1], order[i], e, Earned(s, t), Charged(s, t))
    {
      hide Descending, FarAhead, Run, ToleranceRun, NICR, AllWellFormed;
      forall i | 0 < i < |order| ensures Ratios(t)(order[i - 1]) >= Ratios(t)(order[i]) {
        RunKeepsLead(s0, past, ops, order[i - 1], order[i]);
      }
      NeighboursSuffice(order, Ratios(t));
    }
  }
}
