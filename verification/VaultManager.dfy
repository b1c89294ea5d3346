/** The accounting of `VaultManager.sol` in its own integer arithmetic: stakes, pending
    redistribution rewards, the two pools they move between, and liquidation batches. */
module VaultAccounts {
  import opened Arithmetic
  import opened Sums
  import opened Units
  import opened VaultList

  const FULL_RATIO: nat := 1_000_000_000_000_000_000
  const CCR: nat := 1_500_000_000_000_000_000
  const PERCENT_DIVISOR: nat := 200
  const BPD_GAS_COMPENSATION: nat := 200_000_000_000_000_000_000
  const MAX_UINT: nat := 115792089237316195423570985008687907853269984665640564039457584007913129639935

  /** An active vault; `snapColl` and `snapDebt` are its reward snapshot. */
  datatype Vault = Vault(debt: nat, coll: nat, stake: nat, snapColl: nat, snapDebt: nat)

  datatype System = System(
    vaults: map<Address, Vault>,   // the vaults with status active
    totalStakes: nat,
    stakesSnapshot: nat,
    collSnapshot: nat,
    accColl: nat,                  // B_RBTC
    accDebt: nat,                  // B_BPDDebt
    errColl: nat,                  // lastRBTCError_Redistribution
    errDebt: nat,                  // lastBPDDebtError_Redistribution
    activeColl: nat, activeDebt: nat,     // ActivePool
    defaultColl: nat, defaultDebt: nat)   // DefaultPool

  datatype Result = Ok(system: System) | Revert

  // --------------------------------------------------------------- rewards

  /** `stake * (B - B_0) / 10^18` */
  function Reward(stake: nat, acc: nat, snap: nat): nat
    requires snap <= acc
  {
    stake * (acc - snap) / PRECISION
  }

  predicate SnapOk(s: System, v: Vault) {
    v.snapColl <= s.accColl && v.snapDebt <= s.accDebt
  }

  function PendingColl(s: System, v: Vault): nat requires SnapOk(s, v) { Reward(v.stake, s.accColl, v.snapColl) }
  function PendingDebt(s: System, v: Vault): nat requires SnapOk(s, v) { Reward(v.stake, s.accDebt, v.snapDebt) }
  function EntireColl(s: System, v: Vault): nat requires SnapOk(s, v) { v.coll + PendingColl(s, v) }
  function EntireDebt(s: System, v: Vault): nat requires SnapOk(s, v) { v.debt + PendingDebt(s, v) }

  /** The columns of the vault table that are summed; the rewards are unrounded, times 10^18. */
  datatype Column = Stakes | Colls | Debts | CollRewards | DebtRewards

  function Entry(s: System, c: Column, a: Address): int {
    if a !in s.vaults then 0 else
      var v := s.vaults[a];
      match c
      case Stakes => v.stake
      case Colls => v.coll
      case Debts => v.debt
      case CollRewards => v.stake * (s.accColl - v.snapColl)
      case DebtRewards => v.stake * (s.accDebt - v.snapDebt)
  }

  ghost function Total(s: System, c: Column): int {
    SumInt(s.vaults.Keys, (a: Address) => Entry(s, c, a))
  }

  ghost predicate SnapsOk(s: System) {
    forall a :: a in s.vaults ==> SnapOk(s, s.vaults[a])
  }

  /** The recorded amounts, plus what is still in the ActivePool on behalf of vaults just
      closed, are what the ActivePool holds; the recorded stakes are the total. */
  ghost predicate Balanced(s: System, extraColl: int, extraDebt: int) {
    && s.totalStakes == Total(s, Stakes)
    && s.activeColl == Total(s, Colls) + extraColl
    && s.activeDebt == Total(s, Debts) + extraDebt
  }

  /** The DefaultPool covers all unrounded rewards and the carried remainder. */
  ghost predicate CollCovered(s: System) {
    Total(s, CollRewards) + s.errColl <= PRECISION * s.defaultColl
  }
  ghost predicate DebtCovered(s: System) {
    Total(s, DebtRewards) + s.errDebt <= PRECISION * s.defaultDebt
  }

  /** A vault without collateral rewards has no debt rewards: what `hasPendingRewards` takes for granted. */
  ghost predicate Coherent(s: System) {
    forall a :: a in s.vaults && s.vaults[a].snapColl == s.accColl ==> s.vaults[a].snapDebt == s.accDebt
  }

  ghost predicate Valid(s: System) { SnapsOk(s) && Balanced(s, 0, 0) && CollCovered(s) }
  ghost predicate DebtSafe(s: System) { DebtCovered(s) && Coherent(s) }

  // ---------------------------------------------------------- single vaults

  /** `_computeNewStake`; its assertion fails when the stakes snapshot is 0. */
  predicate CanStake(s: System) { s.collSnapshot > 0 ==> s.stakesSnapshot > 0 }

  function NewStake(s: System, coll: nat): nat {
    if s.collSnapshot == 0 then coll else coll * s.stakesSnapshot / s.collSnapshot
  }

  predicate HasPendingRewards(s: System, a: Address) {
    a in s.vaults && s.vaults[a].snapColl < s.accColl
  }

  /** `_applyPendingRewards` */
  function ApplyPending(s: System, a: Address): Result
    requires SnapsOk(s)
  {
    if !HasPendingRewards(s, a) then Ok(s)
    else
      var v := s.vaults[a];
      var coll, debt := PendingColl(s, v), PendingDebt(s, v);
      if coll > s.defaultColl || debt > s.defaultDebt then Revert
      else Ok(s.(vaults := s.vaults[a := v.(coll := v.coll + coll, debt := v.debt + debt, snapColl := s.accColl, snapDebt := s.accDebt)],
                 activeColl := s.activeColl + coll, activeDebt := s.activeDebt + debt,
                 defaultColl := s.defaultColl - coll, defaultDebt := s.defaultDebt - debt))
  }

  function Open(s: System, a: Address, coll: nat, debt: nat): Result {
    if a in s.vaults || !CanStake(s) then Revert
    else
      var stake := NewStake(s, coll);
      Ok(s.(vaults := s.vaults[a := Vault(debt, coll, stake, s.accColl, s.accDebt)], totalStakes := s.totalStakes + stake,
            activeColl := s.activeColl + coll, activeDebt := s.activeDebt + debt))
  }

  /** The amounts of a vault move, in its record and in the ActivePool, and its stake is computed anew. */
  function Change(t: System, a: Address, collChange: nat, isCollIncrease: bool, debtChange: nat, isDebtIncrease: bool): Result
    requires a in t.vaults
  {
    var v := t.vaults[a];
    if (!isCollIncrease && collChange > v.coll) || (!isDebtIncrease && debtChange > v.debt) || !CanStake(t) || v.stake > t.totalStakes
       || (!isCollIncrease && collChange > t.activeColl) || (!isDebtIncrease && debtChange > t.activeDebt) then Revert
    else
      var coll := if isCollIncrease then v.coll + collChange else v.coll - collChange;
      var debt := if isDebtIncrease then v.debt + debtChange else v.debt - debtChange;
      var stake := NewStake(t, coll);
      Ok(t.(vaults := t.vaults[a := v.(coll := coll, debt := debt, stake := stake)], totalStakes := t.totalStakes - v.stake + stake,
            activeColl := if isCollIncrease then t.activeColl + collChange else t.activeColl - collChange,
            activeDebt := if isDebtIncrease then t.activeDebt + debtChange else t.activeDebt - debtChange))
  }

  /** `_adjustVault` and, with two decreases, a partial redemption. */
  function Adjust(s: System, a: Address, collChange: nat, isCollIncrease: bool, debtChange: nat, isDebtIncrease: bool): Result
    requires SnapsOk(s)
  {
    if a !in s.vaults then Revert
    else
      var applied := ApplyPending(s, a);
      if applied.Revert? then Revert else Change(applied.system, a, collChange, isCollIncrease, debtChange, isDebtIncrease)
  }

  /** Remove the stake and the vault, its pending rewards moved to the ActivePool first. */
  function Retire(s: System, a: Address): Result
    requires SnapsOk(s)
  {
    if a !in s.vaults || |s.vaults| <= 1 then Revert
    else
      var v := s.vaults[a];
      var coll, debt := PendingColl(s, v), PendingDebt(s, v);
      if coll > s.defaultColl || debt > s.defaultDebt || v.stake > s.totalStakes then Revert
      else Ok(s.(vaults := s.vaults - {a}, totalStakes := s.totalStakes - v.stake,
                 activeColl := s.activeColl + coll, activeDebt := s.activeDebt + debt,
                 defaultColl := s.defaultColl - coll, defaultDebt := s.defaultDebt - debt))
  }

  /** `closeVault`, and the closing of a fully redeemed vault: the ActivePool pays out what is recorded. */
  function Close(s: System, a: Address): Result
    requires SnapsOk(s)
  {
    var applied := ApplyPending(s, a);
    if applied.Revert? || a !in s.vaults || |s.vaults| <= 1 then Revert
    else
      var t := applied.system;
      var v := t.vaults[a];
      if v.stake > t.totalStakes || v.coll > t.activeColl || v.debt > t.activeDebt then Revert
      else Ok(t.(vaults := t.vaults - {a}, totalStakes := t.totalStakes - v.stake,
                 activeColl := t.activeColl - v.coll, activeDebt := t.activeDebt - v.debt))
  }

  /** Reward per unit staked, the carried remainder included. */
  function PerUnit(amount: nat, err: nat, stakes: nat): nat
    requires stakes > 0
  {
    (amount * PRECISION + err) / stakes
  }

  /** The remainder of that division, carried to the next one. */
  function Carry(amount: nat, err: nat, stakes: nat): (r: nat)
    requires stakes > 0
    ensures PerUnit(amount, err, stakes) * stakes + r == amount * PRECISION + err && r < stakes
  {
    DivBounds(amount * PRECISION + err, stakes);
    amount * PRECISION + err - PerUnit(amount, err, stakes) * stakes
  }

  /** `_redistributeDebtAndColl` */
  function Redistribute(s: System, debt: nat, coll: nat): Result {
    if debt == 0 then Ok(s)
    else if s.totalStakes == 0 || debt > s.activeDebt || coll > s.activeColl then Revert
    else Ok(s.(accColl := s.accColl + PerUnit(coll, s.errColl, s.totalStakes), accDebt := s.accDebt + PerUnit(debt, s.errDebt, s.totalStakes),
               errColl := Carry(coll, s.errColl, s.totalStakes), errDebt := Carry(debt, s.errDebt, s.totalStakes),
               activeColl := s.activeColl - coll, activeDebt := s.activeDebt - debt,
               defaultColl := s.defaultColl + coll, defaultDebt := s.defaultDebt + debt))
  }

  // ------------------------------------------------- one vault at a time

  lemma RewardBound(stake: nat, acc: nat, snap: nat)
    requires snap <= acc
    ensures PRECISION * Reward(stake, acc, snap) <= stake * (acc - snap)
  {
    DivBounds(stake * (acc - snap), PRECISION);
  }

  lemma EntryNonneg(s: System, c: Column, a: Address)
    requires SnapsOk(s)
    ensures Entry(s, c, a) >= 0
  {
    if a in s.vaults {
      var v := s.vaults[a];
      assert SnapOk(s, v);
      RewardBound(v.stake, s.accColl, v.snapColl);
      RewardBound(v.stake, s.accDebt, v.snapDebt);
    }
  }

  /** No entry exceeds its column's total. */
  lemma EntryAtMostTotal(s: System, c: Column, a: Address)
    requires SnapsOk(s)
    ensures 0 <= Entry(s, c, a) <= Total(s, c)
  {
    var f, zero := (b: Address) => Entry(s, c, b), (b: Address) => 0;
    forall b: Address ensures f(b) >= 0 {
      EntryNonneg(s, c, b);
    }
    var rest := s.vaults.Keys - {a};
    SumIntZero<Address>(rest);
    SumIntLeq(rest, zero, f);
    if a in s.vaults {
      SumIntRemove(s.vaults.Keys, f, a);
    } else {
      assert rest == s.vaults.Keys;
    }
  }

  /** `t` differs from `s` at most in the vault of `a`. */
  ghost predicate SameExcept(s: System, t: System, a: Address) {
    && t.accColl == s.accColl && t.accDebt == s.accDebt
    && t.vaults.Keys - {a} == s.vaults.Keys - {a}
    && forall b :: b in s.vaults && b in t.vaults && b != a ==> t.vaults[b] == s.vaults[b]
  }

  lemma TotalChange(s: System, t: System, a: Address, c: Column)
    requires SameExcept(s, t, a)
    ensures Total(t, c) == Total(s, c) - Entry(s, c, a) + Entry(t, c, a)
  {
    var f, g := (b: Address) => Entry(s, c, b), (b: Address) => Entry(t, c, b);
    forall b: Address | b != a ensures f(b) == g(b) {
      assert b in t.vaults.Keys - {a} <==> b in s.vaults.Keys - {a};
    }
    SumIntChange(s.vaults.Keys, f, t.vaults.Keys, g, a);
  }

  lemma TotalsChange(s: System, t: System, a: Address)
    requires SameExcept(s, t, a)
    ensures forall c :: Total(t, c) == Total(s, c) - Entry(s, c, a) + Entry(t, c, a)
  {
    forall c ensures Total(t, c) == Total(s, c) - Entry(s, c, a) + Entry(t, c, a) {
      TotalChange(s, t, a, c);
    }
  }

  /** Nobody's reward exceeds what the DefaultPool covers. */
  lemma RewardsCovered(s: System, a: Address)
    requires SnapsOk(s) && a in s.vaults
    ensures CollCovered(s) ==> PendingColl(s, s.vaults[a]) <= s.defaultColl
    ensures DebtCovered(s) ==> PendingDebt(s, s.vaults[a]) <= s.defaultDebt
  {
    var v := s.vaults[a];
    assert SnapOk(s, v);
    RewardBound(v.stake, s.accColl, v.snapColl);
    RewardBound(v.stake, s.accDebt, v.snapDebt);
    EntryAtMostTotal(s, CollRewards, a);
    EntryAtMostTotal(s, DebtRewards, a);
  }

  /** Applying pending rewards: the pool pays no more than the rewards that disappear. */
  lemma ApplyKeeps(s: System, a: Address, extraColl: int, extraDebt: int)
    requires SnapsOk(s) && Balanced(s, extraColl, extraDebt) && ApplyPending(s, a).Ok?
    ensures var t := ApplyPending(s, a).system;
            && SnapsOk(t) && Balanced(t, extraColl, extraDebt)
            && (CollCovered(s) ==> CollCovered(t)) && (DebtCovered(s) ==> DebtCovered(t)) && (Coherent(s) ==> Coherent(t))
  {
    if HasPendingRewards(s, a) {
      var t, v := ApplyPending(s, a).system, s.vaults[a];
      assert SnapOk(s, v);
      TotalsChange(s, t, a);
      RewardBound(v.stake, s.accColl, v.snapColl);
      RewardBound(v.stake, s.accDebt, v.snapDebt);
    }
  }

  /** It goes through whenever the DefaultPool covers the rewards. */
  lemma ApplySucceeds(s: System, a: Address)
    requires SnapsOk(s) && CollCovered(s) && DebtCovered(s)
    ensures ApplyPending(s, a).Ok?
  {
    if HasPendingRewards(s, a) {
      RewardsCovered(s, a);
    }
  }

  /** A vault gets a fresh record with nothing pending. */
  lemma FreshKeeps(s: System, t: System, a: Address, v: Vault, extraColl: int, extraDebt: int)
    requires SnapsOk(s) && Balanced(s, extraColl, extraDebt)
    requires t == s.(vaults := s.vaults[a := v], totalStakes := t.totalStakes, activeColl := t.activeColl, activeDebt := t.activeDebt)
    requires SnapOk(s, v) && v.snapColl == s.accColl && (Coherent(s) ==> v.snapDebt == s.accDebt)
    requires a in s.vaults ==> Entry(s, CollRewards, a) == 0 && (Coherent(s) ==> Entry(s, DebtRewards, a) == 0)
    requires t.totalStakes == s.totalStakes - Entry(s, Stakes, a) + v.stake
    requires t.activeColl == s.activeColl - Entry(s, Colls, a) + v.coll
    requires t.activeDebt == s.activeDebt - Entry(s, Debts, a) + v.debt
    ensures SnapsOk(t) && Balanced(t, extraColl, extraDebt)
    ensures (CollCovered(s) ==> CollCovered(t)) && (DebtSafe(s) ==> DebtSafe(t))
  {
    TotalsChange(s, t, a);
    assert Coherent(s) ==> Entry(t, DebtRewards, a) == 0;
  }

  lemma OpenKeeps(s: System, a: Address, coll: nat, debt: nat)
    requires Valid(s) && Open(s, a, coll, debt).Ok?
    ensures var t := Open(s, a, coll, debt).system;
            && Valid(t) && (DebtSafe(s) ==> DebtSafe(t))
            && a in t.vaults && EntireColl(t, t.vaults[a]) == coll && EntireDebt(t, t.vaults[a]) == debt
            && (forall b :: b in s.vaults ==> b in t.vaults && t.vaults[b] == s.vaults[b])
  {
    var t := Open(s, a, coll, debt).system;
    NoReward(t.vaults[a].stake, s.accColl);
    NoReward(t.vaults[a].stake, s.accDebt);
    FreshKeeps(s, t, a, t.vaults[a], 0, 0);
  }

  /** After pending rewards have been applied a vault has no collateral reward left - and, if the
      system is coherent, no debt reward. */
  lemma AppliedIsFresh(s: System, a: Address)
    requires SnapsOk(s) && a in s.vaults && ApplyPending(s, a).Ok?
    ensures var t := ApplyPending(s, a).system;
            && a in t.vaults && t.vaults[a].snapColl == t.accColl && t.totalStakes == s.totalStakes
            && Entry(t, CollRewards, a) == 0
            && (Coherent(s) ==> t.vaults[a].snapDebt == t.accDebt && Entry(t, DebtRewards, a) == 0)
  {
    assert SnapOk(s, s.vaults[a]);
  }

  /** Nothing is left pending exactly when the guard on the collateral snapshot let the rewards
      through or there was no debt reward either. */
  lemma ApplyLeavesNothingPending(s: System, a: Address)
    requires SnapsOk(s) && a in s.vaults && ApplyPending(s, a).Ok?
    ensures var v := ApplyPending(s, a).system.vaults[a];
            (v.snapColl == s.accColl && v.snapDebt == s.accDebt) <==> (HasPendingRewards(s, a) || s.vaults[a].snapDebt == s.accDebt)
  {
    assert SnapOk(s, s.vaults[a]);
  }

  lemma AdjustKeeps(s: System, a: Address, collChange: nat, isCollIncrease: bool, debtChange: nat, isDebtIncrease: bool)
    requires Valid(s) && Adjust(s, a, collChange, isCollIncrease, debtChange, isDebtIncrease).Ok?
    ensures Valid(Adjust(s, a, collChange, isCollIncrease, debtChange, isDebtIncrease).system)
    ensures DebtSafe(s) ==> DebtSafe(Adjust(s, a, collChange, isCollIncrease, debtChange, isDebtIncrease).system)
  {
    var t, u := ApplyPending(s, a).system, Adjust(s, a, collChange, isCollIncrease, debtChange, isDebtIncrease).system;
    ApplyKeeps(s, a, 0, 0);
    AppliedIsFresh(s, a);
    assert SnapOk(t, t.vaults[a]);
    FreshKeeps(t, u, a, u.vaults[a], 0, 0);
  }

  /** Closing a vault whose amounts have moved to the ActivePool leaves them there as extra. */
  lemma RetireKeeps(s: System, a: Address, extraColl: int, extraDebt: int)
    requires SnapsOk(s) && Balanced(s, extraColl, extraDebt) && Retire(s, a).Ok?
    ensures var t := Retire(s, a).system; var v := s.vaults[a];
            && SnapsOk(t) && Balanced(t, extraColl + EntireColl(s, v), extraDebt + EntireDebt(s, v))
            && (CollCovered(s) ==> CollCovered(t)) && (DebtSafe(s) ==> DebtSafe(t))
  {
    var t, v := Retire(s, a).system, s.vaults[a];
    assert SnapOk(s, v);
    TotalsChange(s, t, a);
    RewardBound(v.stake, s.accColl, v.snapColl);
    RewardBound(v.stake, s.accDebt, v.snapDebt);
  }

  lemma RetireSucceeds(s: System, a: Address, extraColl: int, extraDebt: int)
    requires SnapsOk(s) && Balanced(s, extraColl, extraDebt) && CollCovered(s) && DebtCovered(s)
    requires a in s.vaults && |s.vaults| > 1
    ensures Retire(s, a).Ok?
  {
    RewardsCovered(s, a);
    EntryAtMostTotal(s, Stakes, a);
  }

  lemma CloseKeeps(s: System, a: Address)
    requires Valid(s) && Close(s, a).Ok?
    ensures Valid(Close(s, a).system) && (DebtSafe(s) ==> DebtSafe(Close(s, a).system))
  {
    var t, u := ApplyPending(s, a).system, Close(s, a).system;
    ApplyKeeps(s, a, 0, 0);
    TotalsChange(t, u, a);
    EntryNonneg(t, CollRewards, a);
    EntryNonneg(t, DebtRewards, a);
  }

  // ------------------------------------ what a borrower's transaction moves

  /** Nothing of the debt is left behind: the rewards are due, or there are none. */
  predicate UpToDate(s: System, a: Address) {
    HasPendingRewards(s, a) || (a in s.vaults && s.vaults[a].snapDebt == s.accDebt)
  }

  /** The debt reward that `hasPendingRewards` overlooks: it stays in the DefaultPool. */
  function LeftBehind(s: System, a: Address): nat
    requires SnapsOk(s) && a in s.vaults
  {
    if HasPendingRewards(s, a) then 0 else PendingDebt(s, s.vaults[a])
  }

  function Moved(amount: int, change: nat, up: bool): int { if up then amount + change else amount - change }

  /** Rewards are booked without changing anybody's entire amounts or the two pools together. */
  lemma ApplyMovesNothing(s: System, a: Address)
    requires SnapsOk(s) && ApplyPending(s, a).Ok?
    ensures var t := ApplyPending(s, a).system;
            && SnapsOk(t) && t.vaults.Keys == s.vaults.Keys
            && (forall b :: b in s.vaults ==> EntireColl(t, t.vaults[b]) == EntireColl(s, s.vaults[b]) && EntireDebt(t, t.vaults[b]) == EntireDebt(s, s.vaults[b]))
            && t.activeColl + t.defaultColl == s.activeColl + s.defaultColl && t.activeDebt + t.defaultDebt == s.activeDebt + s.defaultDebt
  {
    var t := ApplyPending(s, a).system;
    forall b | b in t.vaults ensures SnapOk(t, t.vaults[b]) {
      assert SnapOk(s, s.vaults[b]);
    }
  }

  /** An adjustment moves the borrower's entire amounts and the pools by exactly what was asked, and
      nobody else's; only a debt reward left behind is recomputed from the new stake. */
  lemma AdjustMovesExactly(s: System, a: Address, collChange: nat, isCollIncrease: bool, debtChange: nat, isDebtIncrease: bool)
    requires Valid(s) && Adjust(s, a, collChange, isCollIncrease, debtChange, isDebtIncrease).Ok?
    ensures var t := Adjust(s, a, collChange, isCollIncrease, debtChange, isDebtIncrease).system;
            && Valid(t) && t.vaults.Keys == s.vaults.Keys
            && EntireColl(t, t.vaults[a]) == Moved(EntireColl(s, s.vaults[a]), collChange, isCollIncrease)
            && EntireDebt(t, t.vaults[a]) == Moved(EntireDebt(s, s.vaults[a]) - LeftBehind(s, a), debtChange, isDebtIncrease) + LeftBehind(t, a)
            && (UpToDate(s, a) ==> LeftBehind(s, a) == 0 && LeftBehind(t, a) == 0)
            && t.vaults[a].stake == NewStake(s, EntireColl(t, t.vaults[a]))
            && (forall b :: b in s.vaults && b != a ==> t.vaults[b] == s.vaults[b])
            && t.activeColl + t.defaultColl == Moved(s.activeColl + s.defaultColl, collChange, isCollIncrease)
            && t.activeDebt + t.defaultDebt == Moved(s.activeDebt + s.defaultDebt, debtChange, isDebtIncrease)
  {
    AdjustKeeps(s, a, collChange, isCollIncrease, debtChange, isDebtIncrease);
    ApplyMovesNothing(s, a);
    AppliedIsFresh(s, a);
    ChangeMovesExactly(ApplyPending(s, a).system, a, collChange, isCollIncrease, debtChange, isDebtIncrease);
  }

  lemma ChangeMovesExactly(m: System, a: Address, collChange: nat, isCollIncrease: bool, debtChange: nat, isDebtIncrease: bool)
    requires SnapsOk(m) && a in m.vaults && m.vaults[a].snapColl == m.accColl
    requires Change(m, a, collChange, isCollIncrease, debtChange, isDebtIncrease).Ok?
    ensures var t := Change(m, a, collChange, isCollIncrease, debtChange, isDebtIncrease).system;
            && t.vaults.Keys == m.vaults.Keys && SnapOk(t, t.vaults[a])
            && EntireColl(t, t.vaults[a]) == Moved(EntireColl(m, m.vaults[a]), collChange, isCollIncrease)
            && EntireDebt(t, t.vaults[a]) == Moved(m.vaults[a].debt, debtChange, isDebtIncrease) + LeftBehind(t, a)
            && (m.vaults[a].snapDebt == m.accDebt ==> LeftBehind(t, a) == 0)
            && t.vaults[a].stake == NewStake(m, EntireColl(t, t.vaults[a]))
  {
    var t := Change(m, a, collChange, isCollIncrease, debtChange, isDebtIncrease).system;
    NoReward(m.vaults[a].stake, m.accColl);
    NoReward(t.vaults[a].stake, m.accColl);
    NoReward(m.vaults[a].stake, m.accDebt);
    NoReward(t.vaults[a].stake, m.accDebt);
  }

  lemma NoReward(stake: nat, acc: nat)
    ensures Reward(stake, acc, acc) == 0
  {
  }

  /** Closing pays out exactly the borrower's entire collateral against the entire debt, but for a debt reward left behind. */
  lemma CloseMovesExactly(s: System, a: Address)
    requires Valid(s) && Close(s, a).Ok?
    ensures var t := Close(s, a).system;
            && a in s.vaults && t.vaults == ApplyPending(s, a).system.vaults - {a} && t.totalStakes == s.totalStakes - s.vaults[a].stake
            && (forall b :: b in s.vaults && b != a ==> b in t.vaults && t.vaults[b] == s.vaults[b])
            && t.activeColl + t.defaultColl == s.activeColl + s.defaultColl - EntireColl(s, s.vaults[a])
            && t.activeDebt + t.defaultDebt == s.activeDebt + s.defaultDebt - (EntireDebt(s, s.vaults[a]) - LeftBehind(s, a))
            && (UpToDate(s, a) ==> LeftBehind(s, a) == 0)
  {
    ApplyMovesNothing(s, a);
    AppliedIsFresh(s, a);
    var m := ApplyPending(s, a).system;
    NoReward(m.vaults[a].stake, s.accColl);
    NoReward(m.vaults[a].stake, s.accDebt);
  }

  // -------------------------------------------------------- redistribution

  lemma RewardGrows(stake: int, acc: int, perUnit: int, snap: int)
    ensures stake * (acc + perUnit - snap) == stake * (acc - snap) + perUnit * stake
  {
  }

  /** A per-unit increase `per` adds `per` times the total stakes to the rewards promised. */
  lemma AccumulatorsGrow(s: System, t: System, perColl: nat, perDebt: nat, total: int)
    requires total == Total(s, Stakes) && t.vaults == s.vaults && t.accColl == s.accColl + perColl && t.accDebt == s.accDebt + perDebt
    ensures Total(t, CollRewards) == Total(s, CollRewards) + perColl * total
    ensures Total(t, DebtRewards) == Total(s, DebtRewards) + perDebt * total
  {
    var stakes := (a: Address) => Entry(s, Stakes, a);
    var c, c', d, d' := (a: Address) => Entry(s, CollRewards, a), (a: Address) => Entry(t, CollRewards, a),
                        (a: Address) => Entry(s, DebtRewards, a), (a: Address) => Entry(t, DebtRewards, a);
    forall a: Address ensures c'(a) == c(a) + perColl * stakes(a) && d'(a) == d(a) + perDebt * stakes(a) {
      if a in s.vaults {
        RewardGrows(s.vaults[a].stake, s.accColl, perColl, s.vaults[a].snapColl);
        RewardGrows(s.vaults[a].stake, s.accDebt, perDebt, s.vaults[a].snapDebt);
      }
    }
    SumIntScale(s.vaults.Keys, c', c, stakes, perColl);
    SumIntScale(s.vaults.Keys, d', d, stakes, perDebt);
  }

  /** What the DefaultPool holds beyond the promised rewards and the carried remainders. */
  ghost function CollGap(s: System): int { PRECISION * s.defaultColl - Total(s, CollRewards) - s.errColl }
  ghost function DebtGap(s: System): int { PRECISION * s.defaultDebt - Total(s, DebtRewards) - s.errDebt }

  /** With the carried remainders a redistribution loses nothing: the gaps stay what they were. */
  lemma RedistributionKeepsGaps(s: System, debt: nat, coll: nat, extraColl: int, extraDebt: int)
    requires SnapsOk(s) && Balanced(s, extraColl, extraDebt) && debt > 0 && Redistribute(s, debt, coll).Ok?
    ensures var t := Redistribute(s, debt, coll).system;
            && CollGap(t) == CollGap(s) && DebtGap(t) == DebtGap(s)
            && SnapsOk(t) && Balanced(t, extraColl - coll, extraDebt - debt)
  {
    var t := Redistribute(s, debt, coll).system;
    AccumulatorsGrow(s, t, PerUnit(coll, s.errColl, s.totalStakes), PerUnit(debt, s.errDebt, s.totalStakes), s.totalStakes);
    forall c: Column | c == Stakes || c == Colls || c == Debts ensures Total(t, c) == Total(s, c) {
      SumIntSame(s.vaults.Keys, (a: Address) => Entry(t, c, a), (a: Address) => Entry(s, c, a));
    }
  }

  /** Without them each redistribution leaves its own remainder behind, less than the total
      stakes, whatever was carried into it: the rewards are still covered, but the gap drifts. */
  lemma UncorrectedGapDrifts(s: System, debt: nat, coll: nat, extraColl: int, extraDebt: int)
    requires SnapsOk(s) && Balanced(s, extraColl, extraDebt) && debt > 0
    requires Redistribute(s, debt, coll).Ok?
    ensures var t := Redistribute(s, debt, coll).system.(errColl := 0, errDebt := 0);
            && 0 <= CollGap(t) - CollGap(s) < s.totalStakes && 0 <= DebtGap(t) - DebtGap(s) < s.totalStakes
  {
    var r := Redistribute(s, debt, coll).system;
    RedistributionKeepsGaps(s, debt, coll, extraColl, extraDebt);
    var t := r.(errColl := 0, errDebt := 0);
    forall c: Column ensures Total(t, c) == Total(r, c) {
      SumIntSame(s.vaults.Keys, (a: Address) => Entry(t, c, a), (a: Address) => Entry(r, c, a));
    }
  }

  /** The amount and the carried remainder make at least one unit per stake. */
  predicate EnoughFor(amount: nat, err: nat, stakes: nat) {
    amount * PRECISION + err >= stakes
  }

  /** Exactly when coherence survives a redistribution: the collateral accumulator moves, the
      debt accumulator does not, or no vault has an up-to-date collateral snapshot. */
  lemma RedistributionKeepsCoherence(s: System, debt: nat, coll: nat)
    requires SnapsOk(s) && Coherent(s) && debt > 0 && Redistribute(s, debt, coll).Ok?
    ensures Coherent(Redistribute(s, debt, coll).system)
            <==> (EnoughFor(coll, s.errColl, s.totalStakes) || !EnoughFor(debt, s.errDebt, s.totalStakes)
                  || forall a :: a in s.vaults ==> s.vaults[a].snapColl != s.accColl)
  {
    AccumulatorsMove(s, debt, coll);
    CoherenceAfter(s, Redistribute(s, debt, coll).system);
  }

  lemma AccumulatorsMove(s: System, debt: nat, coll: nat)
    requires debt > 0 && Redistribute(s, debt, coll).Ok?
    ensures var t := Redistribute(s, debt, coll).system;
            && t.vaults == s.vaults && s.accColl <= t.accColl && s.accDebt <= t.accDebt
            && (s.accColl < t.accColl <==> EnoughFor(coll, s.errColl, s.totalStakes))
            && (s.accDebt < t.accDebt <==> EnoughFor(debt, s.errDebt, s.totalStakes))
  {
    PerUnitPositive(coll, s.errColl, s.totalStakes);
    PerUnitPositive(debt, s.errDebt, s.totalStakes);
  }

  lemma CoherenceAfter(s: System, t: System)
    requires SnapsOk(s) && Coherent(s) && t.vaults == s.vaults && s.accColl <= t.accColl && s.accDebt <= t.accDebt
    ensures Coherent(t) <==> (s.accColl < t.accColl || s.accDebt == t.accDebt
                              || forall a :: a in s.vaults ==> s.vaults[a].snapColl != s.accColl)
  {
    assert forall a :: a in s.vaults ==> SnapOk(s, s.vaults[a]);
    if a :| a in s.vaults && s.vaults[a].snapColl == s.accColl {
      assert a in t.vaults && t.vaults[a].snapDebt == s.accDebt;
    }
  }

  lemma PerUnitPositive(amount: nat, err: nat, stakes: nat)
    requires stakes > 0
    ensures PerUnit(amount, err, stakes) > 0 <==> EnoughFor(amount, err, stakes)
  {
    var n := amount * PRECISION + err;
    DivBounds(n, stakes);
    MulMono(1, n / stakes, stakes);
  }
}
