/** Whole runs of the vault accounting: what holds in every reachable state, and where the debt
    side of the rewards can fall short. */
module VaultRuns {
  import opened Arithmetic
  import opened Sums
  import opened Units
  import opened VaultList
  import opened VaultAccounts
  import opened Liquidation
  import PoolModel

  /** The transactions; a partial redemption is an adjustment, a full one a closing. */
  datatype Op =
    | OpenVault(id: Address, coll: nat, debt: nat)
    | AdjustVault(id: Address, collChange: nat, isCollIncrease: bool, debtChange: nat, isDebtIncrease: bool)
    | ApplyRewards(id: Address)
    | CloseVault(id: Address)
    | BatchLiquidateVaults(users: seq<Address>, price: nat, pool: PoolModel.Pool)  // the Stability Pool as it is then

  predicate WellFormed(op: Op) { op.BatchLiquidateVaults? ==> op.price > 0 }

  ghost predicate AllWellFormed(ops: seq<Op>) { forall i :: 0 <= i < |ops| ==> WellFormed(ops[i]) }

  function Attempt(s: System, op: Op): Result
    requires SnapsOk(s) && WellFormed(op)
  {
    match op
    case OpenVault(id, coll, debt) => Open(s, id, coll, debt)
    case AdjustVault(id, c, ci, d, di) => Adjust(s, id, c, ci, d, di)
    case ApplyRewards(id) => ApplyPending(s, id)
    case CloseVault(id) => Close(s, id)
    case BatchLiquidateVaults(users, price, pool) => BatchLiquidate(s, users, price, pool)
  }

  /** A transaction that reverts leaves everything as it was. */
  function Transact(s: System, op: Op): System
    requires SnapsOk(s) && WellFormed(op)
  {
    match Attempt(s, op)
    case Ok(t) => t
    case Revert => s
  }

  /** The liquidation redistributes no debt, or enough collateral to move its accumulator. */
  ghost predicate MovesCollateral(s: System, op: Op)
    requires SnapsOk(s) && WellFormed(op)
  {
    op.BatchLiquidateVaults? && Attempt(s, op).Ok? ==>
      var q := Batch(Start(s, op.pool.bpd), op.users, op.price, InRecovery(s, op.price)).seq_;
      q.totals.debtToRedistribute == 0 || EnoughFor(q.totals.collToRedistribute, q.system.errColl, q.system.totalStakes)
  }

  lemma TransactKeeps(s: System, op: Op)
    requires Valid(s) && WellFormed(op)
    ensures Valid(Transact(s, op))
    ensures DebtSafe(s) && MovesCollateral(s, op) ==> DebtSafe(Transact(s, op))
  {
    if Attempt(s, op).Ok? {
      match op
      case OpenVault(id, coll, debt) => OpenKeeps(s, id, coll, debt);
      case AdjustVault(id, c, ci, d, di) => AdjustKeeps(s, id, c, ci, d, di);
      case ApplyRewards(id) => ApplyKeeps(s, id, 0, 0);
      case CloseVault(id) => CloseKeeps(s, id);
      case BatchLiquidateVaults(users, price, pool) => BatchLiquidateKeeps(s, users, price, pool);
    }
  }

  /** The state after a run, attached to the proof that every state on the way is valid. */
  ghost function Run(s: System, ops: seq<Op>): (t: System)
    requires Valid(s) && AllWellFormed(ops)
    ensures Valid(t)
    decreases |ops|
  {
    if ops == [] then s
    else
      TransactKeeps(s, ops[0]);
      Run(Transact(s, ops[0]), ops[1..])
  }

  ghost predicate GuardedRun(s: System, ops: seq<Op>)
    requires Valid(s) && AllWellFormed(ops)
    decreases |ops|
  {
    ops == [] ||
    (TransactKeeps(s, ops[0]);
     MovesCollateral(s, ops[0]) && GuardedRun(Transact(s, ops[0]), ops[1..]))
  }

  /** Nothing has happened yet. */
  ghost predicate Initial(s: System) {
    && s.vaults.Keys == {} && s.totalStakes == 0 && s.stakesSnapshot == 0 && s.collSnapshot == 0
    && s.accColl == 0 && s.accDebt == 0 && s.errColl == 0 && s.errDebt == 0
    && s.activeColl == 0 && s.activeDebt == 0 && s.defaultColl == 0 && s.defaultDebt == 0
  }

  lemma InitialIsValid(s: System)
    requires Initial(s)
    ensures Valid(s) && DebtSafe(s)
  {
    forall c ensures Total(s, c) == 0 {
    }
  }

  lemma {:induction false} GuardedRunStaysDebtSafe(s: System, ops: seq<Op>)
    requires Valid(s) && DebtSafe(s) && AllWellFormed(ops) && GuardedRun(s, ops)
    ensures DebtSafe(Run(s, ops))
    decreases |ops|
  {
    if ops != [] {
      TransactKeeps(s, ops[0]);
      GuardedRunStaysDebtSafe(Transact(s, ops[0]), ops[1..]);
    }
  }

  // ------------------------------------------- applying rewards in any order

  function ApplyAll(s: System, order: seq<Address>): Result
    requires SnapsOk(s)
    decreases |order|
  {
    if order == [] then Ok(s)
    else
      var r := ApplyPending(s, order[0]);
      if r.Revert? then Revert else
        ApplyKeepsSnaps(s, order[0]);
        ApplyAll(r.system, order[1..])
  }

  lemma ApplyKeepsSnaps(s: System, a: Address)
    requires SnapsOk(s) && ApplyPending(s, a).Ok?
    ensures SnapsOk(ApplyPending(s, a).system)
  {
    forall b | b in s.vaults ensures SnapOk(s, s.vaults[b]) {
    }
  }

  /** The record of `a` with its rewards booked. */
  function Booked(s: System, a: Address): Vault
    requires SnapsOk(s) && a in s.vaults
  {
    var v := s.vaults[a];
    if HasPendingRewards(s, a)
    then v.(coll := EntireColl(s, v), debt := EntireDebt(s, v), snapColl := s.accColl, snapDebt := s.accDebt)
    else v
  }

  function Due(s: System, a: Address): int requires SnapsOk(s) {
    if HasPendingRewards(s, a) then PendingColl(s, s.vaults[a]) else 0
  }
  function DueDebt(s: System, a: Address): int requires SnapsOk(s) {
    if HasPendingRewards(s, a) then PendingDebt(s, s.vaults[a]) else 0
  }

  ghost function AllDue(s: System, ids: set<Address>): int requires SnapsOk(s) { SumInt(ids, (a: Address) => Due(s, a)) }
  ghost function AllDueDebt(s: System, ids: set<Address>): int requires SnapsOk(s) { SumInt(ids, (a: Address) => DueDebt(s, a)) }

  /** The state once the rewards of exactly `ids` are booked; it mentions no order. */
  ghost predicate BookedFor(s: System, t: System, ids: set<Address>)
    requires SnapsOk(s)
  {
    && t.vaults.Keys == s.vaults.Keys
    && (forall a :: a in s.vaults ==> t.vaults[a] == if a in ids then Booked(s, a) else s.vaults[a])
    && t.defaultColl == s.defaultColl - AllDue(s, ids) && t.activeColl == s.activeColl + AllDue(s, ids)
    && t.defaultDebt == s.defaultDebt - AllDueDebt(s, ids) && t.activeDebt == s.activeDebt + AllDueDebt(s, ids)
    && t == s.(vaults := t.vaults, defaultColl := t.defaultColl, activeColl := t.activeColl, defaultDebt := t.defaultDebt, activeDebt := t.activeDebt)
  }

  /** Dues of a vault whose rewards are booked, and of the others. */
  lemma DuesAfter(s: System, a: Address, ids: set<Address>)
    requires SnapsOk(s) && ApplyPending(s, a).Ok?
    ensures SnapsOk(ApplyPending(s, a).system)
    ensures var t := ApplyPending(s, a).system;
            && AllDue(s, ids + {a}) == Due(s, a) + AllDue(t, ids) && AllDueDebt(s, ids + {a}) == DueDebt(s, a) + AllDueDebt(t, ids)
  {
    ApplyKeepsSnaps(s, a);
    var t := ApplyPending(s, a).system;
    var f, g := (b: Address) => Due(s, b), (b: Address) => Due(t, b);
    var f', g' := (b: Address) => DueDebt(s, b), (b: Address) => DueDebt(t, b);
    forall b ensures b != a ==> f(b) == g(b) && f'(b) == g'(b)
             ensures b == a ==> g(b) == 0 && g'(b) == 0 {
    }
    var rest := ids - {a};
    assert ids + {a} - {a} == rest;
    SumIntRemove(ids + {a}, f, a);
    SumIntRemove(ids + {a}, f', a);
    SumIntSame(rest, f, g);
    SumIntSame(rest, f', g');
    if a in ids {
      SumIntRemove(ids, g, a);
      SumIntRemove(ids, g', a);
    } else {
      assert ids == rest;
    }
  }

  ghost function Ids(order: seq<Address>): set<Address> { set a | a in order }

  lemma BookedStep(s: System, a: Address, t: System, u: System, ids: set<Address>)
    requires SnapsOk(s) && ApplyPending(s, a) == Ok(t) && SnapsOk(t) && BookedFor(t, u, ids)
    ensures BookedFor(s, u, ids + {a})
  {
    DuesAfter(s, a, ids);
    forall b | b in s.vaults ensures u.vaults[b] == if b in ids + {a} then Booked(s, b) else s.vaults[b] {
    }
  }

  /** Whatever the order and the repetitions, applying rewards never reverts and ends in the one
      state that books each named vault's rewards once. */
  lemma {:induction false} ApplyAllSucceeds(s: System, order: seq<Address>)
    requires Valid(s) && DebtSafe(s)
    ensures ApplyAll(s, order).Ok?
    ensures var t := ApplyAll(s, order).system;
            Valid(t) && DebtSafe(t) && BookedFor(s, t, Ids(order))
    decreases |order|
  {
    if order == [] {
    } else {
      var a, rest := order[0], order[1..];
      ApplySucceeds(s, a);
      ApplyKeeps(s, a, 0, 0);
      var t := ApplyPending(s, a).system;
      ApplyAllSucceeds(t, rest);
      BookedStep(s, a, t, ApplyAll(t, rest).system, Ids(rest));
      assert Ids(order) == Ids(rest) + {a};
    }
  }

  lemma OrderDoesNotMatter(s: System, one: seq<Address>, other: seq<Address>)
    requires Valid(s) && DebtSafe(s) && Ids(one) == Ids(other)
    ensures ApplyAll(s, one) == ApplyAll(s, other)
  {
    ApplyAllSucceeds(s, one);
    ApplyAllSucceeds(s, other);
    var t, u := ApplyAll(s, one).system, ApplyAll(s, other).system;
    assert t.vaults == u.vaults;
  }

  /** The DefaultPool's collateral covers all rounded rewards together, in every reachable state
      and without any guard. */
  lemma CollateralAlwaysCovered(s: System, ops: seq<Op>)
    requires Initial(s) && AllWellFormed(ops)
    ensures Valid(s)
    ensures var t := Run(s, ops); AllDue(t, t.vaults.Keys) <= t.defaultColl
  {
    InitialIsValid(s);
    DueCovered(Run(s, ops));
  }

  lemma DueCovered(s: System)
    requires SnapsOk(s) && CollCovered(s)
    ensures AllDue(s, s.vaults.Keys) <= s.defaultColl
  {
    var due, reward, zero := (a: Address) => Due(s, a), (a: Address) => Entry(s, CollRewards, a), (a: Address) => 0;
    var scaled := (a: Address) => PRECISION * due(a);
    forall a | a in s.vaults ensures scaled(a) <= reward(a) {
      assert SnapOk(s, s.vaults[a]);
      RewardBound(s.vaults[a].stake, s.accColl, s.vaults[a].snapColl);
      EntryNonneg(s, CollRewards, a);
    }
    SumIntLeq(s.vaults.Keys, scaled, reward);
    SumIntZero<Address>(s.vaults.Keys);
    SumIntScale(s.vaults.Keys, scaled, zero, due, PRECISION);
  }

  // ----------------------------------------- without the carried remainders

  /** A transaction after which the remainders are forgotten, as if redistribution did no correction. */
  function TransactUncorrected(s: System, op: Op): System
    requires SnapsOk(s) && WellFormed(op)
  {
    Transact(s, op).(errColl := 0, errDebt := 0)
  }

  lemma UncorrectedKeeps(s: System, op: Op)
    requires Valid(s) && WellFormed(op)
    ensures Valid(TransactUncorrected(s, op))
    ensures DebtSafe(s) && MovesCollateral(s, op) ==> DebtSafe(TransactUncorrected(s, op))
  {
    TransactKeeps(s, op);
    SameVaults(Transact(s, op), TransactUncorrected(s, op));
  }

  ghost function RunUncorrected(s: System, ops: seq<Op>): (t: System)
    requires Valid(s) && AllWellFormed(ops)
    ensures Valid(t)
    decreases |ops|
  {
    if ops == [] then s
    else
      UncorrectedKeeps(s, ops[0]);
      RunUncorrected(TransactUncorrected(s, ops[0]), ops[1..])
  }

  ghost predicate GuardedUncorrected(s: System, ops: seq<Op>)
    requires Valid(s) && AllWellFormed(ops)
    decreases |ops|
  {
    ops == [] ||
    (UncorrectedKeeps(s, ops[0]);
     MovesCollateral(s, ops[0]) && GuardedUncorrected(TransactUncorrected(s, ops[0]), ops[1..]))
  }

  lemma {:induction false} UncorrectedStaysDebtSafe(s: System, ops: seq<Op>)
    requires Valid(s) && DebtSafe(s) && AllWellFormed(ops) && GuardedUncorrected(s, ops)
    ensures DebtSafe(RunUncorrected(s, ops))
    decreases |ops|
  {
    if ops != [] {
      UncorrectedKeeps(s, ops[0]);
      UncorrectedStaysDebtSafe(TransactUncorrected(s, ops[0]), ops[1..]);
    }
  }

  /** Over every run the DefaultPool covers all collateral rewards even if no remainder is ever
      carried, and all rewards can be applied in any order if also every redistribution of the run
      moves the collateral accumulator. */
  lemma UncorrectedAlwaysCovered(s: System, ops: seq<Op>)
    requires Initial(s) && AllWellFormed(ops)
    ensures Valid(s)
    ensures var t := RunUncorrected(s, ops);
            && AllDue(t, t.vaults.Keys) <= t.defaultColl
            && (GuardedUncorrected(s, ops) ==> forall order :: ApplyAll(t, order).Ok?)
  {
    InitialIsValid(s);
    var t := RunUncorrected(s, ops);
    DueCovered(t);
    if GuardedUncorrected(s, ops) {
      UncorrectedStaysDebtSafe(s, ops);
      forall order ensures ApplyAll(t, order).Ok? {
        ApplyAllSucceeds(t, order);
      }
    }
  }

  /** The vaults the comparison of DefaultPool and total rewards is made for: opened before the first
      liquidation, so each stake is the collateral, and not changed since. */
  ghost predicate Untouched(s: System) {
    forall a :: a in s.vaults ==> s.vaults[a].snapColl == 0 && s.vaults[a].snapDebt == 0 && s.vaults[a].stake == s.vaults[a].coll
  }

  lemma UntouchedRewards(s: System)
    requires Balanced(s, 0, 0) && Untouched(s)
    ensures Total(s, CollRewards) == s.activeColl * s.accColl && Total(s, DebtRewards) == s.activeColl * s.accDebt
  {
    var coll, debt, held, zero := (a: Address) => Entry(s, CollRewards, a), (a: Address) => Entry(s, DebtRewards, a),
                                  (a: Address) => Entry(s, Colls, a), (a: Address) => 0;
    SumIntZero<Address>(s.vaults.Keys);
    SumIntScale(s.vaults.Keys, coll, zero, held, s.accColl);
    SumIntScale(s.vaults.Keys, debt, zero, held, s.accDebt);
  }

  /** What the DefaultPool holds beyond the ActivePool's collateral times `B_RBTC`, and owes beyond
      it times `B_BPDDebt`, is the gap and the carried remainder: never negative on the collateral
      side, and on the debt side as long as the debt rewards are covered. */
  lemma RewardDifference(s: System)
    requires Valid(s) && Untouched(s)
    ensures PRECISION * s.defaultColl - s.activeColl * s.accColl == CollGap(s) + s.errColl >= 0
    ensures PRECISION * s.defaultDebt - s.activeColl * s.accDebt == DebtGap(s) + s.errDebt
    ensures s.activeColl * s.accColl / PRECISION <= s.defaultColl
    ensures DebtCovered(s) ==> s.activeColl * s.accDebt / PRECISION <= s.defaultDebt
  {
    UntouchedRewards(s);
    hide Total;
    assert s.activeColl * s.accColl <= PRECISION * s.defaultColl;
    QuotientAtMost(s.activeColl * s.accColl, PRECISION, s.defaultColl);
    if DebtCovered(s) {
      QuotientAtMost(s.activeColl * s.accDebt, PRECISION, s.defaultDebt);
    }
  }

  lemma QuotientAtMost(n: nat, d: nat, q: nat)
    requires d > 0 && n <= d * q
    ensures n / d <= q
  {
    QuotientBelow(n, d, q + 1);
  }

  // ----------------------------------------------- the debt side, exactly

  /** After `a` adds collateral `c` its pending debt is still in the DefaultPool. */
  ghost predicate CoversAfter(s: System, a: Address, c: nat)
    requires SnapsOk(s)
  {
    var r := Adjust(s, a, c, true, 0, true);
    a in s.vaults && r.Ok? ==>
      a in r.system.vaults && SnapOk(r.system, r.system.vaults[a]) && PendingDebt(r.system, r.system.vaults[a]) <= r.system.defaultDebt
  }

  /** A vault whose debt snapshot alone is behind: some increase of its collateral gives it a stake
      whose pending debt exceeds what the DefaultPool owes. */
  lemma LaggingVaultOutgrows(s: System, a: Address) returns (c: nat)
    requires Valid(s) && CanStake(s) && a in s.vaults && s.vaults[a].snapColl == s.accColl && s.vaults[a].snapDebt < s.accDebt
    ensures !CoversAfter(s, a, c)
  {
    var v, lag, enough := s.vaults[a], s.accDebt - s.vaults[a].snapDebt, (s.defaultDebt + 1) * PRECISION;
    c := if s.collSnapshot == 0 then enough else enough * s.collSnapshot;
    EntryAtMostTotal(s, Stakes, a);
    var stake := NewStake(s, v.coll + c);
    StakeAtLeast(s, v.coll, enough, c);
    assert ApplyPending(s, a) == Ok(s);
    RewardExceeds(stake, s.accDebt, v.snapDebt, s.defaultDebt);
    var t := Adjust(s, a, c, true, 0, true).system;
    assert t.vaults[a] == v.(coll := v.coll + c, stake := stake);
  }

  lemma StakeAtLeast(s: System, coll: nat, enough: nat, c: nat)
    requires CanStake(s) && c == if s.collSnapshot == 0 then enough else enough * s.collSnapshot
    ensures NewStake(s, coll + c) >= enough
  {
    if s.collSnapshot > 0 {
      var n := (coll + c) * s.stakesSnapshot;
      MulMono(1, s.stakesSnapshot, coll + c);
      assert n >= enough * s.collSnapshot;
      DivBounds(n, s.collSnapshot);
      MulMono(n / s.collSnapshot + 1, enough, s.collSnapshot);
    }
  }

  lemma RewardExceeds(stake: nat, acc: nat, snap: nat, debt: nat)
    requires snap < acc && stake >= (debt + 1) * PRECISION
    ensures Reward(stake, acc, snap) > debt
  {
    var n := stake * (acc - snap);
    MulMono(1, acc - snap, stake);
    DivBounds(n, PRECISION);
  }

  /** So, as long as the debt rewards are covered, coherence is exactly what keeps them covered
      whatever collateral a borrower adds. */
  lemma CoherenceIsExact(s: System)
    requires Valid(s) && DebtCovered(s) && CanStake(s)
    ensures Coherent(s) <==> forall a, c :: CoversAfter(s, a, c)
  {
    if Coherent(s) {
      forall a, c ensures CoversAfter(s, a, c) {
        if a in s.vaults && Adjust(s, a, c, true, 0, true).Ok? {
          AdjustKeeps(s, a, c, true, 0, true);
          RewardsCovered(Adjust(s, a, c, true, 0, true).system, a);
        }
      }
    } else {
      var a :| a in s.vaults && s.vaults[a].snapColl == s.accColl && s.vaults[a].snapDebt != s.accDebt;
      assert SnapOk(s, s.vaults[a]);
      var c := LaggingVaultOutgrows(s, a);
    }
  }

  // ---------------------------------------- where the debt side falls short

  /** Three vaults; the third is liquidated when the Stability Pool lacks 10000 wei of its debt,
      so that 1 wei of collateral and 10000 wei of debt are redistributed over 4 RBTC of stakes:
      the collateral accumulator stays where it is, the debt accumulator moves. Then the first
      vault doubles its collateral. */
  function ShortfallRun(pool: PoolModel.Pool): seq<Op> {
    [OpenVault(1, 3 * U, 2000 * U)] + ([OpenVault(2, U, 2000 * U)] + ([OpenVault(3, U / 5, 2000 * U)] + FromOpened(pool)))
  }

  /** The last two transactions of the run. */
  function FromOpened(pool: PoolModel.Pool): seq<Op> {
    [BatchLiquidateVaults([3], 10000 * U, pool)] + ([AdjustVault(1, 3 * U, true, 0, true)] + [])
  }

  ghost predicate Opened(s: System) {
    s == System(map[1 := Vault(2000 * U, 3 * U, 3 * U, 0, 0), 2 := Vault(2000 * U, U, U, 0, 0), 3 := Vault(2000 * U, U / 5, U / 5, 0, 0)],
                4 * U + U / 5, 0, 0, 0, 0, 0, 0, 4 * U + U / 5, 6000 * U, 0, 0)
  }

  ghost predicate Liquidated(s: System) {
    s == System(map[1 := Vault(2000 * U, 3 * U, 3 * U, 0, 0), 2 := Vault(2000 * U, U, U, 0, 0)],
                4 * U, 4 * U, 4 * U + 1, 0, 2500, U, 0, 4 * U, 4000 * U, 1, 10000)
  }

  ghost predicate Adjusted(s: System) {
    s == System(map[1 := Vault(2000 * U, 6 * U, 6 * U - 2, 0, 0), 2 := Vault(2000 * U, U, U, 0, 0)],
                7 * U - 2, 4 * U, 4 * U + 1, 0, 2500, U, 0, 7 * U, 4000 * U, 1, 10000)
  }

  lemma OpensThree(s: System) returns (s1: System, s2: System, s3: System)
    requires Initial(s)
    ensures Open(s, 1, 3 * U, 2000 * U) == Ok(s1) && Open(s1, 2, U, 2000 * U) == Ok(s2) && Open(s2, 3, U / 5, 2000 * U) == Ok(s3)
    ensures Opened(s3)
  {
    assert s.vaults == map[];
    s1 := Open(s, 1, 3 * U, 2000 * U).system;
    s2 := Open(s1, 2, U, 2000 * U).system;
    s3 := Open(s2, 3, U / 5, 2000 * U).system;
  }

  ghost predicate ThirdValues(v: Values) {
    v == Values(2000 * U, U / 5, U / 1000, BPD_GAS_COMPENSATION, 2000 * U - 10000, 199 * (U / 1000) - 1, 10000, 1, 0)
  }

  lemma ThirdIsMixed(debt: nat, coll: nat, pool: nat)
    requires debt == 2000 * U && coll == U / 5 && pool == 2000 * U - 10000
    ensures ThirdValues(NormalValues(debt, coll, pool))
  {
  }

  /** The third vault is closed, its amounts are still in the ActivePool. */
  ghost predicate Retired(s: System) {
    s == System(map[1 := Vault(2000 * U, 3 * U, 3 * U, 0, 0), 2 := Vault(2000 * U, U, U, 0, 0)],
                4 * U, 0, 0, 0, 0, 0, 0, 4 * U + U / 5, 6000 * U, 0, 0)
  }

  lemma RetiresThird(s: System, t: System)
    requires Opened(s) && SnapsOk(s) && Retire(s, 3) == Ok(t)
    ensures Retired(t)
  {
    assert t.vaults == map[1 := Vault(2000 * U, 3 * U, 3 * U, 0, 0), 2 := Vault(2000 * U, U, U, 0, 0)];
  }

  lemma FinishesThird(s: System, v: Values, pool: PoolModel.Pool, t: System)
    requires pool.bpd == v.debtToOffset && Retired(s) && v == Plus(Zero, v) && ThirdValues(v) && Liquidated(t)
    ensures Finish(s, v, pool) == Ok(t)
  {
    WholePoolAccepts(pool, v.collToSP);
    hide PoolModel.Offset;
  }

  /** A batch of one vault in normal mode, as its three parts. */
  lemma BatchOfOne(s: System, a: Address, price: nat, pool: PoolModel.Pool, r: System, t: System)
    requires SnapsOk(s) && price > 0 && a in s.vaults && !InRecovery(s, price) && ICR(s, a, price) < MCR
    requires Retire(s, a) == Ok(r)
    requires var v := NormalValues(EntireDebt(s, s.vaults[a]), EntireColl(s, s.vaults[a]), pool.bpd); Finish(r, Plus(Zero, v), pool) == Ok(t)
    ensures BatchLiquidate(s, [a], price, pool) == Ok(t)
  {
    var q := Start(s, pool.bpd);
    var q1 := NormalStep(q, a, price).seq_;
    RetireKeepsSnaps(s, a);
    assert Batch(q1, [a][1..], price, false) == Going(q1);
    assert Batch(q, [a], price, false) == Going(q1);
  }

  lemma ThirdIsUnderwater(s: System, price: nat)
    requires Opened(s) && SnapsOk(s) && price == 10000 * U
    ensures !InRecovery(s, price) && ICR(s, 3, price) < MCR
    ensures EntireDebt(s, s.vaults[3]) == 2000 * U && EntireColl(s, s.vaults[3]) == U / 5
  {
  }

  lemma LiquidatesThird(s: System, price: nat, pool: PoolModel.Pool) returns (t: System)
    requires Opened(s) && SnapsOk(s) && price == 10000 * U && pool.bpd == 2000 * U - 10000
    ensures BatchLiquidate(s, [3], price, pool) == Ok(t) && Liquidated(t)
  {
    t := System(map[1 := Vault(2000 * U, 3 * U, 3 * U, 0, 0), 2 := Vault(2000 * U, U, U, 0, 0)],
                4 * U, 4 * U, 4 * U + 1, 0, 2500, U, 0, 4 * U, 4000 * U, 1, 10000);
    var r := Retire(s, 3).system;
    RetiresThird(s, r);
    ThirdIsUnderwater(s, price);
    var v := NormalValues(EntireDebt(s, s.vaults[3]), EntireColl(s, s.vaults[3]), pool.bpd);
    ThirdIsMixed(2000 * U, U / 5, pool.bpd);
    assert Plus(Zero, v) == v;
    FinishesThird(r, v, pool, t);
    BatchOfOne(s, 3, price, pool, r, t);
  }

  lemma AdjustsFirst(s: System) returns (t: System)
    requires Liquidated(s) && SnapsOk(s)
    ensures Adjust(s, 1, 3 * U, true, 0, true) == Ok(t) && Adjusted(t)
  {
    assert NewStake(s, 6 * U) == 6 * U - 2;
    t := Adjust(s, 1, 3 * U, true, 0, true).system;
    assert t.vaults == map[1 := Vault(2000 * U, 6 * U, 6 * U - 2, 0, 0), 2 := Vault(2000 * U, U, U, 0, 0)];
  }

  lemma FirstIsStuck(s: System, price: nat, pool: PoolModel.Pool)
    requires Adjusted(s) && SnapsOk(s) && price == 300 * U
    ensures ICR(s, 1, price) < MCR && PendingDebt(s, s.vaults[1]) > s.defaultDebt
    ensures BatchLiquidate(s, [1], price, pool) == Revert
  {
    assert PendingDebt(s, s.vaults[1]) == 14999;
  }

  lemma RunOne(s: System, op: Op, rest: seq<Op>, t: System)
    requires Valid(s) && WellFormed(op) && AllWellFormed(rest) && Attempt(s, op) == Ok(t)
    ensures Valid(t) && AllWellFormed([op] + rest) && Run(s, [op] + rest) == Run(t, rest)
  {
    TransactKeeps(s, op);
    assert ([op] + rest)[1..] == rest;
  }

  lemma RunOpening(s: System, id: Address, coll: nat, debt: nat, rest: seq<Op>, t: System)
    requires Valid(s) && AllWellFormed(rest) && Open(s, id, coll, debt) == Ok(t)
    ensures Valid(t) && AllWellFormed([OpenVault(id, coll, debt)] + rest) && Run(s, [OpenVault(id, coll, debt)] + rest) == Run(t, rest)
  {
    RunOne(s, OpenVault(id, coll, debt), rest, t);
  }

  lemma RunBatch(s: System, users: seq<Address>, price: nat, pool: PoolModel.Pool, rest: seq<Op>, t: System)
    requires Valid(s) && price > 0 && AllWellFormed(rest) && BatchLiquidate(s, users, price, pool) == Ok(t)
    ensures Valid(t) && AllWellFormed([BatchLiquidateVaults(users, price, pool)] + rest)
    ensures Run(s, [BatchLiquidateVaults(users, price, pool)] + rest) == Run(t, rest)
  {
    RunOne(s, BatchLiquidateVaults(users, price, pool), rest, t);
  }

  lemma OneMore(op: Op, rest: seq<Op>)
    requires WellFormed(op) && AllWellFormed(rest)
    ensures AllWellFormed([op] + rest)
  {
  }

  lemma RunsFromOpened(s: System, pool: PoolModel.Pool)
    requires Opened(s) && Valid(s) && pool.bpd == 2000 * U - 10000
    ensures AllWellFormed(FromOpened(pool)) && Adjusted(Run(s, FromOpened(pool)))
  {
    var adjust := AdjustVault(1, 3 * U, true, 0, true);
    var t := LiquidatesThird(s, 10000 * U, pool);
    hide Opened, Liquidated, Adjusted, Valid, BatchLiquidate;
    RunBatch(s, [3], 10000 * U, pool, [adjust] + [], t);
    var u := AdjustsFirst(t);
    RunOne(t, adjust, [], u);
  }

  lemma RunsToAdjusted(s: System, pool: PoolModel.Pool, ops: seq<Op>)
    requires Initial(s) && pool.bpd == 2000 * U - 10000 && ops == ShortfallRun(pool)
    ensures AllWellFormed(ops) && Valid(s) && Adjusted(Run(s, ops))
  {
    InitialIsValid(s);
    var s1, s2, s3 := OpensThree(s);
    var from4 := FromOpened(pool);
    OneMore(OpenVault(3, U / 5, 2000 * U), from4);
    var from3 := [OpenVault(3, U / 5, 2000 * U)] + from4;
    OneMore(OpenVault(2, U, 2000 * U), from3);
    hide Open, Opened, Adjusted, Initial, Valid, Run, AllWellFormed;
    RunOpening(s, 1, 3 * U, 2000 * U, [OpenVault(2, U, 2000 * U)] + from3, s1);
    RunOpening(s1, 2, U, 2000 * U, from3, s2);
    RunOpening(s2, 3, U / 5, 2000 * U, from4, s3);
    RunsFromOpened(s3, pool);
  }

  /** So the debt side is not always covered: after this run, with any Stability Pool of that size, the
      first vault's pending debt exceeds what the DefaultPool owes, and though the vault is below the
      minimum ratio every attempt to liquidate it reverts. */
  lemma DebtSideCanFallShort(s: System, pool: PoolModel.Pool, price: nat, later: PoolModel.Pool)
    requires Initial(s) && pool.bpd == 2000 * U - 10000 && price == 300 * U
    ensures AllWellFormed(ShortfallRun(pool)) && Valid(s)
    ensures var t := Run(s, ShortfallRun(pool));
            && 1 in t.vaults && ICR(t, 1, price) < MCR && PendingDebt(t, t.vaults[1]) > t.defaultDebt
            && BatchLiquidate(t, [1], price, later) == Revert
  {
    var ops := ShortfallRun(pool);
    RunsToAdjusted(s, pool, ops);
    FirstIsStuck(Run(s, ops), price, later);
  }
}
