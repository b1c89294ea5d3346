/** The vault manager as the contract it is: storage fields updated in place, in the order of the
    source, each method proved to be the corresponding function of the storage it started from.
    A result of `false` stands for a revert; what was written until then is undone by `Transact`. */
module VaultContract {
  import opened Units
  import opened VaultList
  import opened VaultAccounts
  import opened Liquidation
  import PoolModel
  import VaultRuns

  /** The local variables of a liquidation sequence. */
  datatype Trackers = Trackers(remaining: nat, systemColl: nat, systemDebt: nat, back: bool, totals: Values)
  {
    predicate CanTake(v: Values) { v.debtToOffset <= remaining && v.debtToOffset <= systemDebt && v.collToSP <= systemColl }

    /** A liquidation's values leave the running amounts and join the totals. */
    function Take(v: Values, price: nat): Trackers {
      if !CanTake(v) then this
      else
        Trackers(remaining - v.debtToOffset, systemColl - v.collToSP, systemDebt - v.debtToOffset,
                 CR(systemColl - v.collToSP, systemDebt - v.debtToOffset, price) >= CCR, Plus(totals, v))
    }
  }

  function With(s: System, vars: Trackers): Sequence {
    Sequence(s, vars.remaining, vars.systemColl, vars.systemDebt, vars.back, vars.totals)
  }

  /** The Stability Pool after a batch that goes through. */
  function PoolAfter(s: System, users: seq<Address>, price: nat, pool: PoolModel.Pool): PoolModel.Pool
    requires SnapsOk(s) && price > 0 && BatchLiquidate(s, users, price, pool).Ok?
  {
    var totals := Batch(Start(s, pool.bpd), users, price, InRecovery(s, price)).seq_.totals;
    PoolModel.Offset(pool, totals.debtToOffset, totals.collToSP).pool
  }

  class VaultManager {
    var vaults: map<Address, Vault>
    var totalStakes: nat
    var stakesSnapshot: nat
    var collSnapshot: nat
    var accColl: nat
    var accDebt: nat
    var errColl: nat
    var errDebt: nat
    var activeColl: nat
    var activeDebt: nat
    var defaultColl: nat
    var defaultDebt: nat

    function State(): System
      reads this
    {
      System(vaults, totalStakes, stakesSnapshot, collSnapshot, accColl, accDebt, errColl, errDebt, activeColl, activeDebt, defaultColl, defaultDebt)
    }

    constructor ()
      ensures State() == System(map[], 0, 0, 0, 0, 0, 0, 0, 0, 0, 0, 0)
    {
      vaults := map[];
      totalStakes, stakesSnapshot, collSnapshot := 0, 0, 0;
      accColl, accDebt, errColl, errDebt := 0, 0, 0, 0;
      activeColl, activeDebt, defaultColl, defaultDebt := 0, 0, 0, 0;
    }

    /** `_movePendingVaultRewardsToActivePool` */
    method MovePendingRewards(debt: nat, coll: nat) returns (ok: bool)
      modifies this`activeColl, this`activeDebt, this`defaultColl, this`defaultDebt
      ensures ok <==> debt <= old(defaultDebt) && coll <= old(defaultColl)
      ensures ok ==> defaultDebt == old(defaultDebt) - debt && activeDebt == old(activeDebt) + debt
      ensures ok ==> defaultColl == old(defaultColl) - coll && activeColl == old(activeColl) + coll
    {
      if debt > defaultDebt { return false; }
      defaultDebt := defaultDebt - debt;
      activeDebt := activeDebt + debt;
      if coll > defaultColl { return false; }
      defaultColl := defaultColl - coll;
      activeColl := activeColl + coll;
      return true;
    }

    method ApplyPendingRewards(a: Address) returns (ok: bool)
      requires SnapsOk(State())
      modifies this
      ensures ApplyPending(old(State()), a) == if ok then Ok(State()) else Revert
    {
      if a !in vaults || vaults[a].snapColl >= accColl { return true; }
      var v := vaults[a];
      assert SnapOk(State(), v);
      var coll, debt := Reward(v.stake, accColl, v.snapColl), Reward(v.stake, accDebt, v.snapDebt);
      vaults := vaults[a := v.(coll := v.coll + coll, debt := v.debt + debt)];
      vaults := vaults[a := vaults[a].(snapColl := accColl, snapDebt := accDebt)];
      assert vaults == old(vaults)[a := v.(coll := v.coll + coll, debt := v.debt + debt, snapColl := accColl, snapDebt := accDebt)];
      ok := MovePendingRewards(debt, coll);
    }

    /** `_updateStakeAndTotalStakes` with `_computeNewStake` */
    method UpdateStakeAndTotalStakes(a: Address) returns (ok: bool)
      requires a in vaults
      modifies this`vaults, this`totalStakes
      ensures ok <==> CanStake(old(State())) && old(vaults[a].stake) <= old(totalStakes)
      ensures ok ==> vaults == old(vaults)[a := old(vaults[a]).(stake := NewStake(old(State()), old(vaults[a].coll)))]
      ensures ok ==> totalStakes == old(totalStakes) - old(vaults[a].stake) + NewStake(old(State()), old(vaults[a].coll))
    {
      var stake := vaults[a].coll;
      if collSnapshot != 0 {
        if stakesSnapshot == 0 { return false; }
        stake := vaults[a].coll * stakesSnapshot / collSnapshot;
      }
      var oldStake := vaults[a].stake;
      if oldStake > totalStakes { return false; }
      vaults := vaults[a := vaults[a].(stake := stake)];
      totalStakes := totalStakes - oldStake + stake;
      return true;
    }

    method OpenVault(a: Address, coll: nat, debt: nat) returns (ok: bool)
      modifies this
      ensures Open(old(State()), a, coll, debt) == if ok then Ok(State()) else Revert
    {
      if a in vaults { return false; }
      vaults := vaults[a := Vault(debt, coll, 0, accColl, accDebt)];
      ok := UpdateStakeAndTotalStakes(a);
      if !ok { return; }
      activeColl := activeColl + coll;
      activeDebt := activeDebt + debt;
      assert vaults == old(vaults)[a := Vault(debt, coll, NewStake(old(State()), coll), accColl, accDebt)];
    }

    method AdjustVault(a: Address, collChange: nat, isCollIncrease: bool, debtChange: nat, isDebtIncrease: bool) returns (ok: bool)
      requires SnapsOk(State())
      modifies this
      ensures Adjust(old(State()), a, collChange, isCollIncrease, debtChange, isDebtIncrease) == if ok then Ok(State()) else Revert
    {
      if a !in vaults { return false; }
      ok := ApplyPendingRewards(a);
      if !ok { return; }
      ok := ChangeVault(a, collChange, isCollIncrease, debtChange, isDebtIncrease);
    }

    method ChangeVault(a: Address, collChange: nat, isCollIncrease: bool, debtChange: nat, isDebtIncrease: bool) returns (ok: bool)
      requires a in vaults
      modifies this
      ensures Change(old(State()), a, collChange, isCollIncrease, debtChange, isDebtIncrease) == if ok then Ok(State()) else Revert
    {
      var v := vaults[a];
      if (!isCollIncrease && collChange > v.coll) || (!isDebtIncrease && debtChange > v.debt) { return false; }
      var coll: nat := if isCollIncrease then v.coll + collChange else v.coll - collChange;
      var debt: nat := if isDebtIncrease then v.debt + debtChange else v.debt - debtChange;
      vaults := vaults[a := v.(coll := coll, debt := debt)];
      ok := UpdateStakeAndTotalStakes(a);
      if !ok { return; }
      assert vaults == old(vaults)[a := v.(coll := coll, debt := debt, stake := NewStake(old(State()), coll))];
      if (!isCollIncrease && collChange > activeColl) || (!isDebtIncrease && debtChange > activeDebt) { return false; }
      activeColl := if isCollIncrease then activeColl + collChange else activeColl - collChange;
      activeDebt := if isDebtIncrease then activeDebt + debtChange else activeDebt - debtChange;
    }

    /** `_removeStake` and `_closeVault`; the pools are the caller's business. */
    method RemoveVault(a: Address) returns (ok: bool)
      requires a in vaults
      modifies this`vaults, this`totalStakes
      ensures ok <==> old(vaults[a].stake) <= old(totalStakes) && |old(vaults)| > 1
      ensures ok ==> vaults == old(vaults) - {a} && totalStakes == old(totalStakes) - old(vaults[a].stake)
    {
      if vaults[a].stake > totalStakes { return false; }
      totalStakes := totalStakes - vaults[a].stake;
      if |vaults| <= 1 { return false; }
      vaults := vaults - {a};
      return true;
    }

    method CloseVault(a: Address) returns (ok: bool)
      requires SnapsOk(State())
      modifies this
      ensures Close(old(State()), a) == if ok then Ok(State()) else Revert
    {
      if a !in vaults { return false; }
      ok := ApplyPendingRewards(a);
      if !ok { return; }
      assert vaults.Keys == old(vaults).Keys;
      var coll, debt := vaults[a].coll, vaults[a].debt;
      ok := RemoveVault(a);
      if !ok { return; }
      if debt > activeDebt || coll > activeColl { return false; }
      activeDebt := activeDebt - debt;
      activeColl := activeColl - coll;
    }

    /** The storage side of liquidating one vault, the same in both modes. */
    method RetireVault(a: Address, debtReward: nat, collReward: nat) returns (ok: bool)
      requires SnapsOk(State()) && a in vaults
      requires debtReward == PendingDebt(State(), vaults[a]) && collReward == PendingColl(State(), vaults[a])
      modifies this
      ensures Retire(old(State()), a) == if ok then Ok(State()) else Revert
    {
      ok := MovePendingRewards(debtReward, collReward);
      if !ok { return; }
      ok := RemoveVault(a);
    }

    method RedistributeDebtAndColl(debt: nat, coll: nat) returns (ok: bool)
      modifies this
      ensures Redistribute(old(State()), debt, coll) == if ok then Ok(State()) else Revert
    {
      if debt == 0 { return true; }
      if totalStakes == 0 { return false; }
      var collPerUnit, debtPerUnit := PerUnit(coll, errColl, totalStakes), PerUnit(debt, errDebt, totalStakes);
      errColl := Carry(coll, errColl, totalStakes);
      errDebt := Carry(debt, errDebt, totalStakes);
      accColl := accColl + collPerUnit;
      accDebt := accDebt + debtPerUnit;
      if debt > activeDebt || coll > activeColl { return false; }
      activeDebt := activeDebt - debt;
      defaultDebt := defaultDebt + debt;
      activeColl := activeColl - coll;
      defaultColl := defaultColl + coll;
      return true;
    }

    /** The end of a batch. */
    method FinishLiquidation(totals: Values, pool: PoolModel.StabilityPool) returns (ok: bool)
      requires PoolModel.Valid(pool.State())
      modifies this, pool
      ensures Finish(old(State()), totals, old(pool.State())) == if ok then Ok(State()) else Revert
      ensures ok ==> PoolModel.Offset(old(pool.State()), totals.debtToOffset, totals.collToSP) == PoolModel.Ok(pool.State())
      ensures PoolModel.Valid(pool.State())
    {
      hide PoolModel.Offset, PoolModel.Valid, PayOut;
      if totals.entireDebt == 0 { return false; }
      ok := pool.OffsetDebt(totals.debtToOffset, totals.collToSP);
      if !ok { return; }
      ok := PayOutLiquidation(totals);
    }

    /** What is left once the Stability Pool has taken its part. */
    method PayOutLiquidation(totals: Values) returns (ok: bool)
      modifies this
      ensures PayOut(old(State()), totals) == if ok then Ok(State()) else Revert
    {
      if totals.debtToOffset > activeDebt || totals.collToSP > activeColl { return false; }
      activeDebt := activeDebt - totals.debtToOffset;
      activeColl := activeColl - totals.collToSP;
      ok := RedistributeDebtAndColl(totals.debtToRedistribute, totals.collToRedistribute);
      if !ok { return; }
      hide Redistribute;
      if totals.collSurplus + totals.collGas > activeColl { return false; }
      activeColl := activeColl - totals.collSurplus;
      stakesSnapshot := totalStakes;
      collSnapshot := activeColl - totals.collGas + defaultColl;
      activeColl := activeColl - totals.collGas;
    }

    /** The loops over the array of vaults, then the end of the batch. A vault named twice, closed or
        never opened is passed over. */
    method BatchLiquidateVaults(users: seq<Address>, price: nat, pool: PoolModel.StabilityPool) returns (ok: bool)
      requires SnapsOk(State()) && price > 0 && PoolModel.Valid(pool.State())
      modifies this, pool
      ensures BatchLiquidate(old(State()), users, price, old(pool.State())) == if ok then Ok(State()) else Revert
      ensures ok ==> pool.State() == PoolAfter(old(State()), users, price, old(pool.State()))
      ensures PoolModel.Valid(pool.State())
    {
      if users == [] { return false; }
      var vars := Trackers(pool.totalBPDDeposits, activeColl + defaultColl, activeDebt + defaultDebt, false, Zero);
      var recovery := CR(vars.systemColl, vars.systemDebt, price) < CCR;
      ghost var start := Start(State(), pool.totalBPDDeposits);
      var i := 0;
      while i < |users|
        invariant 0 <= i <= |users| && SnapsOk(State()) && pool.State() == old(pool.State())
        invariant Batch(start, users, price, recovery) == Batch(With(State(), vars), users[i..], price, recovery)
      {
        assert users[i..][1..] == users[i + 1..] && users[i..][0] == users[i];
        if recovery {
          ok, vars := LiquidateInRecovery(users[i], price, vars);
        } else {
          ok, vars := LiquidateInNormal(users[i], price, vars);
        }
        if !ok { return; }
        i := i + 1;
      }
      ok := FinishLiquidation(vars.totals, pool);
    }

    /** The body of the normal-mode loop. */
    method LiquidateInNormal(a: Address, price: nat, vars0: Trackers) returns (ok: bool, vars: Trackers)
      requires SnapsOk(State()) && price > 0
      modifies this
      ensures NormalStep(With(old(State()), vars0), a, price) == if ok then Going(With(State(), vars)) else Reverted
    {
      ok, vars := true, vars0;
      if a !in vaults { return; }
      var v := vaults[a];
      assert SnapOk(State(), v);
      var collReward, debtReward := Reward(v.stake, accColl, v.snapColl), Reward(v.stake, accDebt, v.snapDebt);
      var coll, debt := v.coll + collReward, v.debt + debtReward;
      if CR(coll, debt, price) < MCR {
        var values := NormalValues(debt, coll, vars.remaining);
        NormalConserves(debt, coll, vars.remaining);
        ok := RetireVault(a, debtReward, collReward);
        vars := vars.(remaining := vars.remaining - values.debtToOffset, totals := Plus(vars.totals, values));
      }
    }

    /** The body of the loop that starts in recovery mode. */
    method LiquidateInRecovery(a: Address, price: nat, vars0: Trackers) returns (ok: bool, vars: Trackers)
      requires SnapsOk(State()) && price > 0
      modifies this
      ensures RecoveryStep(With(old(State()), vars0), a, price) == if ok then Going(With(State(), vars)) else Reverted
    {
      ok, vars := true, vars0;
      if a !in vaults { return; }
      if vars.back {
        ok, vars := LiquidateInNormal(a, price, vars);
        return;
      }
      var v := vaults[a];
      assert SnapOk(State(), v);
      var collReward, debtReward := Reward(v.stake, accColl, v.snapColl), Reward(v.stake, accDebt, v.snapDebt);
      var coll, debt := v.coll + collReward, v.debt + debtReward;
      var icr, tcr := CR(coll, debt, price), CR(vars.systemColl, vars.systemDebt, price);
      if icr >= MCR && vars.remaining == 0 { return; }
      var option := if |vaults| <= 1 then None else RecoveryValues(debt, coll, icr, vars.remaining, tcr, price);
      if option.None? {
        vars := vars.(back := tcr >= CCR);
      } else {
        RecoveryConserves(debt, coll, icr, vars.remaining, tcr, price);
        ok := RetireVault(a, debtReward, collReward);
        ok, vars := ok && vars.CanTake(option.values), vars.Take(option.values, price);
      }
    }

    /** A transaction that reverts gives back the storage it started from. */
    method Rollback(saved: System)
      modifies this
      ensures State() == saved
    {
      vaults, totalStakes, stakesSnapshot, collSnapshot := saved.vaults, saved.totalStakes, saved.stakesSnapshot, saved.collSnapshot;
      accColl, accDebt, errColl, errDebt := saved.accColl, saved.accDebt, saved.errColl, saved.errDebt;
      activeColl, activeDebt, defaultColl, defaultDebt := saved.activeColl, saved.activeDebt, saved.defaultColl, saved.defaultDebt;
    }

    /** One transaction, all or nothing. Every state between transactions is valid, the Stability Pool's
        included, and only a liquidation moves it. */
    method Transact(op: VaultRuns.Op, pool: PoolModel.StabilityPool) returns (ok: bool)
      requires Valid(State()) && VaultRuns.WellFormed(op) && PoolModel.Valid(pool.State())
      requires op.BatchLiquidateVaults? ==> op.pool == pool.State()
      modifies this, pool
      ensures Valid(State()) && State() == VaultRuns.Transact(old(State()), op)
      ensures ok <==> VaultRuns.Attempt(old(State()), op).Ok?
      ensures PoolModel.Valid(pool.State())
      ensures pool.State() == if ok && op.BatchLiquidateVaults? then PoolAfter(old(State()), op.users, op.price, op.pool) else old(pool.State())
    {
      var saved, savedPool := State(), pool.State();
      VaultRuns.TransactKeeps(saved, op);
      match op {
        case OpenVault(id, coll, debt) => ok := OpenVault(id, coll, debt);
        case AdjustVault(id, c, ci, d, di) => ok := AdjustVault(id, c, ci, d, di);
        case ApplyRewards(id) => ok := ApplyPendingRewards(id);
        case CloseVault(id) => ok := CloseVault(id);
        case BatchLiquidateVaults(users, price, _) => ok := BatchLiquidateVaults(users, price, pool);
      }
      if !ok {
        Rollback(saved);
        pool.Rollback(savedPool);
      }
    }
  }
}
