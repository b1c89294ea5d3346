/** The collateral that rounding leaves in the pools beyond what all vaults together are entitled to. */
module RewardDust {
  import opened Arithmetic
  import opened Sums
  import opened Units
  import opened VaultList
  import opened VaultAccounts
  import opened Liquidation
  import opened VaultRuns
  import PoolModel

  function StakeOf(s: System, a: Address): int { if a in s.vaults then s.vaults[a].stake else 0 }

  function CollOf(s: System, a: Address): int
    requires SnapsOk(s)
  {
    if a in s.vaults then EntireColl(s, s.vaults[a]) else 0
  }

  ghost function AllColls(s: System, ids: set<Address>): int requires SnapsOk(s) { SumInt(ids, (a: Address) => CollOf(s, a)) }
  ghost function AllStakes(s: System, ids: set<Address>): int { SumInt(ids, (a: Address) => StakeOf(s, a)) }

  /** The pools' collateral beyond all entire collaterals: what rounding has left behind. */
  ghost function Dust(s: System): int
    requires SnapsOk(s)
  {
    s.activeColl + s.defaultColl - AllColls(s, s.vaults.Keys)
  }

  lemma DustNonneg(s: System)
    requires Valid(s)
    ensures Dust(s) >= 0 && AllStakes(s, s.vaults.Keys) == s.totalStakes
  {
    DueCovered(s);
    DustIsUnpaid(s);
    SumIntSame(s.vaults.Keys, (a: Address) => StakeOf(s, a), (a: Address) => Entry(s, Stakes, a));
  }

  // ---------------------------------------------------------- how much it is

  lemma {:induction false} SumIntOnes(ids: set<Address>)
    ensures SumInt(ids, (a: Address) => 1) == |ids|
    decreases |ids|
  {
    if ids != {} {
      var a :| a in ids;
      SumIntRemove(ids, (b: Address) => 1, a);
      SumIntOnes(ids - {a});
    }
  }

  lemma RewardCeiling(stake: nat, acc: nat, snap: nat)
    requires snap <= acc
    ensures stake * (acc - snap) <= PRECISION * (Reward(stake, acc, snap) + 1)
  {
    DivBounds(stake * (acc - snap), PRECISION);
  }

  lemma EntryAtMostDue(s: System, a: Address)
    requires SnapsOk(s) && a in s.vaults
    ensures Entry(s, CollRewards, a) <= PRECISION * (Due(s, a) + 1)
  {
    assert SnapOk(s, s.vaults[a]);
    RewardCeiling(s.vaults[a].stake, s.accColl, s.vaults[a].snapColl);
    hide Reward;
  }

  lemma RewardsAtMostDue(s: System)
    requires SnapsOk(s)
    ensures Total(s, CollRewards) <= PRECISION * (AllDue(s, s.vaults.Keys) + |s.vaults|)
  {
    var ids := s.vaults.Keys;
    var due, one, up := (a: Address) => Due(s, a), (a: Address) => 1, (a: Address) => Due(s, a) + 1;
    var reward, scaled, zero := (a: Address) => Entry(s, CollRewards, a), (a: Address) => PRECISION * up(a), (a: Address) => 0;
    hide Entry, Due;
    forall a | a in ids ensures reward(a) <= scaled(a) {
      EntryAtMostDue(s, a);
    }
    SumIntLeq(ids, reward, scaled);
    SumIntZero<Address>(ids);
    SumIntScale(ids, scaled, zero, up, PRECISION);
    SumIntScale(ids, up, due, one, 1);
    SumIntOnes(ids);
    assert |ids| == |s.vaults|;
  }

  /** The gap, the carried remainder and one rounding of each vault's reward. */
  lemma DustIsRounding(s: System)
    requires Valid(s)
    ensures PRECISION * Dust(s) <= CollGap(s) + s.errColl + PRECISION * |s.vaults|
  {
    RewardsAtMostDue(s);
    DustIsUnpaid(s);
    hide Total, AllDue, Dust, SumInt;
  }

  lemma DustIsUnpaid(s: System)
    requires Valid(s)
    ensures Dust(s) == s.defaultColl - AllDue(s, s.vaults.Keys)
  {
    SumIntScale(s.vaults.Keys, (a: Address) => CollOf(s, a), (a: Address) => Entry(s, Colls, a), (a: Address) => Due(s, a), 1);
  }

  // ------------------------------------------------------ and over whole runs

  /** At most how many rewards a transaction pays out of the DefaultPool, each rounded down. */
  function Payouts(op: Op): nat {
    match op
    case OpenVault(_, _, _) => 0
    case BatchLiquidateVaults(users, _, _) => |users|
    case _ => 1
  }

  function AllPayouts(ops: seq<Op>): nat { if ops == [] then 0 else Payouts(ops[0]) + AllPayouts(ops[1..]) }

  lemma ApplyGap(s: System, a: Address)
    requires SnapsOk(s) && ApplyPending(s, a).Ok?
    ensures CollGap(ApplyPending(s, a).system) <= CollGap(s) + PRECISION
  {
    if HasPendingRewards(s, a) {
      var v := s.vaults[a];
      assert SnapOk(s, v);
      TotalChange(s, ApplyPending(s, a).system, a, CollRewards);
      RewardCeiling(v.stake, s.accColl, v.snapColl);
    }
  }

  lemma RetireGap(s: System, a: Address)
    requires SnapsOk(s) && Retire(s, a).Ok?
    ensures CollGap(Retire(s, a).system) <= CollGap(s) + PRECISION
  {
    var v := s.vaults[a];
    assert SnapOk(s, v);
    TotalChange(s, Retire(s, a).system, a, CollRewards);
    RewardCeiling(v.stake, s.accColl, v.snapColl);
  }

  /** Nothing is pending for `a` before or after, and nobody else changes. */
  lemma QuietGap(s: System, t: System, a: Address)
    requires SameExcept(s, t, a) && Entry(s, CollRewards, a) == 0 && Entry(t, CollRewards, a) == 0
    requires t.defaultColl == s.defaultColl && t.errColl == s.errColl
    ensures CollGap(t) == CollGap(s)
  {
    TotalChange(s, t, a, CollRewards);
  }

  lemma OpenGap(s: System, a: Address, coll: nat, debt: nat)
    requires SnapsOk(s) && Open(s, a, coll, debt).Ok?
    ensures CollGap(Open(s, a, coll, debt).system) == CollGap(s)
  {
    QuietGap(s, Open(s, a, coll, debt).system, a);
  }

  lemma AdjustGap(s: System, a: Address, collChange: nat, isCollIncrease: bool, debtChange: nat, isDebtIncrease: bool)
    requires SnapsOk(s) && Adjust(s, a, collChange, isCollIncrease, debtChange, isDebtIncrease).Ok?
    ensures CollGap(Adjust(s, a, collChange, isCollIncrease, debtChange, isDebtIncrease).system) <= CollGap(s) + PRECISION
  {
    ApplyGap(s, a);
    AppliedIsFresh(s, a);
    var m, t := ApplyPending(s, a).system, Adjust(s, a, collChange, isCollIncrease, debtChange, isDebtIncrease).system;
    QuietGap(m, t, a);
  }

  lemma CloseGap(s: System, a: Address)
    requires SnapsOk(s) && Close(s, a).Ok?
    ensures CollGap(Close(s, a).system) <= CollGap(s) + PRECISION
  {
    ApplyGap(s, a);
    AppliedIsFresh(s, a);
    QuietGap(ApplyPending(s, a).system, Close(s, a).system, a);
  }

  lemma StepGap(q: Sequence, a: Address, price: nat, recovery: bool)
    requires SnapsOk(q.system) && price > 0 && Step(q, a, price, recovery).Going?
    ensures CollGap(Step(q, a, price, recovery).seq_.system) <= CollGap(q.system) + PRECISION
  {
    if Retire(q.system, a).Ok? {
      RetireGap(q.system, a);
    }
    hide NormalValues, RecoveryValues, ICR, CR, CollGap, Retire;
  }

  lemma {:induction false} BatchGap(q: Sequence, users: seq<Address>, price: nat, recovery: bool)
    requires SnapsOk(q.system) && price > 0 && Batch(q, users, price, recovery).Going?
    ensures CollGap(Batch(q, users, price, recovery).seq_.system) <= CollGap(q.system) + PRECISION * |users|
    decreases |users|
  {
    hide CollGap, Step;
    if users != [] {
      StepGap(q, users[0], price, recovery);
      BatchGap(Step(q, users[0], price, recovery).seq_, users[1..], price, recovery);
    }
  }

  /** Paying out a batch moves the gap not at all. */
  lemma PayOutGap(s: System, v: Values)
    requires SnapsOk(s) && Balanced(s, v.entireColl, v.entireDebt) && PayOut(s, v).Ok?
    ensures CollGap(PayOut(s, v).system) == CollGap(s)
  {
    var offset := s.(activeDebt := s.activeDebt - v.debtToOffset, activeColl := s.activeColl - v.collToSP);
    SameVaults(s, offset);
    var r := Redistribute(offset, v.debtToRedistribute, v.collToRedistribute).system;
    if v.debtToRedistribute > 0 {
      RedistributionKeepsGaps(offset, v.debtToRedistribute, v.collToRedistribute, v.entireColl - v.collToSP, v.entireDebt - v.debtToOffset);
    }
    SameVaults(r, PayOut(s, v).system);
  }

  lemma LiquidationGap(s: System, users: seq<Address>, price: nat, pool: PoolModel.Pool)
    requires price > 0 && Valid(s) && BatchLiquidate(s, users, price, pool).Ok?
    ensures CollGap(BatchLiquidate(s, users, price, pool).system) <= CollGap(s) + PRECISION * |users|
  {
    var start := Start(s, pool.bpd);
    BatchInv(start, s, pool.bpd, users, price, InRecovery(s, price));
    BatchGap(start, users, price, InRecovery(s, price));
    var q := Batch(start, users, price, InRecovery(s, price)).seq_;
    PayOutGap(q.system, q.totals);
  }

  lemma TransactGap(s: System, op: Op)
    requires Valid(s) && WellFormed(op)
    ensures CollGap(Transact(s, op)) <= CollGap(s) + PRECISION * Payouts(op)
  {
    hide CollGap;
    if Attempt(s, op).Ok? {
      match op
      case OpenVault(id, coll, debt) => OpenGap(s, id, coll, debt);
      case AdjustVault(id, c, ci, d, di) => AdjustGap(s, id, c, ci, d, di);
      case ApplyRewards(id) => ApplyGap(s, id);
      case CloseVault(id) => CloseGap(s, id);
      case BatchLiquidateVaults(users, price, pool) => LiquidationGap(s, users, price, pool);
    }
  }

  lemma {:induction false} RunGap(s: System, ops: seq<Op>)
    requires Valid(s) && AllWellFormed(ops)
    ensures CollGap(Run(s, ops)) <= CollGap(s) + PRECISION * AllPayouts(ops)
    decreases |ops|
  {
    hide CollGap, Payouts;
    if ops != [] {
      TransactKeeps(s, ops[0]);
      TransactGap(s, ops[0]);
      RunGap(Transact(s, ops[0]), ops[1..]);
    }
  }

  /** In every reachable state the collateral that belongs to nobody is at most one unit for each reward
      paid out so far, one for each active vault, and the carried remainder. */
  lemma DustStaysSmall(s: System, ops: seq<Op>)
    requires Initial(s) && AllWellFormed(ops)
    ensures Valid(s)
    ensures var t := Run(s, ops); 0 <= PRECISION * Dust(t) <= PRECISION * (AllPayouts(ops) + |t.vaults|) + t.errColl
  {
    InitialIsValid(s);
    forall a: Address ensures Entry(s, CollRewards, a) == 0 {
    }
    assert CollGap(s) == 0;
    RunGap(s, ops);
    DustNonneg(Run(s, ops));
    DustIsRounding(Run(s, ops));
    hide CollGap, Dust, AllPayouts;
  }
}
