/** Each vault operation from outside: exactly when it goes through, and what it leaves, in amounts. */
module VaultOperations {
  import opened Arithmetic
  import opened Sums
  import opened Units
  import opened VaultList
  import opened VaultAccounts

  // ------------------------------------------------------- rewards and stakes

  /** A reward is the stake's part of what every unit of stake was promised, in units of 10^-18, rounded down. */
  lemma RewardIsFloor(stake: nat, acc: nat, snap: nat)
    requires snap <= acc
    ensures 1_000_000_000_000_000_000 * Reward(stake, acc, snap) <= stake * (acc - snap) < 1_000_000_000_000_000_000 * (Reward(stake, acc, snap) + 1)
  {
    DivBounds(stake * (acc - snap), PRECISION);
  }

  /** Before the first liquidation a stake is the collateral, afterwards its part at the snapshot rate, rounded down. */
  lemma NewStakeIsFloor(s: System, coll: nat)
    requires CanStake(s)
    ensures var stake := NewStake(s, coll);
            if s.collSnapshot == 0 then stake == coll
            else stake * s.collSnapshot <= coll * s.stakesSnapshot < (stake + 1) * s.collSnapshot
  {
    if s.collSnapshot > 0 {
      DivBounds(coll * s.stakesSnapshot, s.collSnapshot);
    }
  }

  /** The snapshots and accumulators, which only liquidations move. */
  predicate SameTrackers(s: System, t: System) {
    && t.stakesSnapshot == s.stakesSnapshot && t.collSnapshot == s.collSnapshot && t.accColl == s.accColl && t.accDebt == s.accDebt
    && t.errColl == s.errColl && t.errDebt == s.errDebt
  }

  predicate SamePools(s: System, t: System) {
    t.activeColl == s.activeColl && t.activeDebt == s.activeDebt && t.defaultColl == s.defaultColl && t.defaultDebt == s.defaultDebt
  }

  /** Nobody but `a` changes. */
  ghost predicate OnlyVault(s: System, t: System, a: Address) {
    && SameTrackers(s, t)
    && forall b :: b != a ==> (b in t.vaults <==> b in s.vaults) && (b in s.vaults ==> t.vaults[b] == s.vaults[b])
  }

  // --------------------------------------------------------------- operations

  /** What stops a new stake: liquidations have left collateral but no stakes. */
  predicate NoStakesLeft(s: System) { s.collSnapshot > 0 && s.stakesSnapshot == 0 }

  lemma OpenExactly(s: System, a: Address, coll: nat, debt: nat)
    ensures Open(s, a, coll, debt).Ok? <==> a !in s.vaults && !NoStakesLeft(s)
    ensures var r := Open(s, a, coll, debt);
            r.Ok? ==>
              var t := r.system;
              && OnlyVault(s, t, a) && a in t.vaults
              && t.vaults[a].coll == coll && t.vaults[a].debt == debt && t.vaults[a].snapColl == s.accColl && t.vaults[a].snapDebt == s.accDebt
              && (if s.collSnapshot == 0 then t.vaults[a].stake == coll
                  else t.vaults[a].stake * s.collSnapshot <= coll * s.stakesSnapshot < (t.vaults[a].stake + 1) * s.collSnapshot)
              && t.totalStakes == s.totalStakes + t.vaults[a].stake
              && t.activeColl == s.activeColl + coll && t.activeDebt == s.activeDebt + debt
              && t.defaultColl == s.defaultColl && t.defaultDebt == s.defaultDebt
  {
    if Open(s, a, coll, debt).Ok? {
      NewStakeIsFloor(s, coll);
      hide NewStake;
    }
  }

  /** The vault's collateral snapshot is behind. */
  predicate Due(s: System, a: Address) { a in s.vaults && s.vaults[a].snapColl < s.accColl }

  /** Its rewards can be paid out: the debt side is there. */
  predicate Payable(s: System, a: Address)
    requires SnapsOk(s)
  {
    Due(s, a) ==> PendingDebt(s, s.vaults[a]) <= s.defaultDebt
  }

  /** Applying rewards books them in full, or does nothing when the collateral snapshot is up to date; it
      fails only for want of debt in the DefaultPool. */
  lemma ApplyExactly(s: System, a: Address)
    requires SnapsOk(s) && CollCovered(s)
    ensures ApplyPending(s, a).Ok? <==> Payable(s, a)
    ensures var r := ApplyPending(s, a);
            r.Ok? ==>
              var t := r.system;
              && OnlyVault(s, t, a) && t.totalStakes == s.totalStakes && t.vaults.Keys == s.vaults.Keys
              && if Due(s, a) then
                   var v, coll, debt := s.vaults[a], PendingColl(s, s.vaults[a]), PendingDebt(s, s.vaults[a]);
                   && t.vaults[a] == Vault(v.debt + debt, v.coll + coll, v.stake, s.accColl, s.accDebt)
                   && t.activeColl == s.activeColl + coll && t.activeDebt == s.activeDebt + debt
                   && t.defaultColl == s.defaultColl - coll && t.defaultDebt == s.defaultDebt - debt
                 else t == s
  {
    if a in s.vaults {
      RewardsCovered(s, a);
    }
    hide Reward, CollCovered;
  }

  /** What a borrower can take out or repay: everything that applying rewards leaves recorded. */
  lemma AdjustExactly(s: System, a: Address, collChange: nat, isCollIncrease: bool, debtChange: nat, isDebtIncrease: bool)
    requires Valid(s)
    ensures Adjust(s, a, collChange, isCollIncrease, debtChange, isDebtIncrease).Ok?
            <==> a in s.vaults && Payable(s, a) && !NoStakesLeft(s)
                 && (isCollIncrease || collChange <= EntireColl(s, s.vaults[a]))
                 && (isDebtIncrease || debtChange <= EntireDebt(s, s.vaults[a]) - LeftBehind(s, a))
  {
    if a in s.vaults {
      ApplyExactly(s, a);
      if ApplyPending(s, a).Ok? {
        ApplyKeeps(s, a, 0, 0);
        var t := ApplyPending(s, a).system;
        RecordedAfter(s, a);
        EntryAtMostTotal(t, Stakes, a);
        EntryAtMostTotal(t, Colls, a);
        EntryAtMostTotal(t, Debts, a);
      }
    }
    hide Reward, NewStake, Total;
  }

  /** What is recorded for `a` once its rewards are applied. */
  lemma RecordedAfter(s: System, a: Address)
    requires SnapsOk(s) && a in s.vaults && ApplyPending(s, a).Ok?
    ensures var t := ApplyPending(s, a).system;
            a in t.vaults && t.vaults[a].coll == EntireColl(s, s.vaults[a]) && t.vaults[a].debt == EntireDebt(s, s.vaults[a]) - LeftBehind(s, a)
  {
    assert SnapOk(s, s.vaults[a]);
    if !HasPendingRewards(s, a) {
      NoReward(s.vaults[a].stake, s.accColl);
    }
  }

  /** A vault can be closed unless it is the last. */
  lemma CloseExactly(s: System, a: Address)
    requires Valid(s)
    ensures Close(s, a).Ok? <==> a in s.vaults && |s.vaults| > 1 && Payable(s, a)
  {
    if a in s.vaults {
      ApplyExactly(s, a);
      if ApplyPending(s, a).Ok? {
        ApplyKeeps(s, a, 0, 0);
        var t := ApplyPending(s, a).system;
        EntryAtMostTotal(t, Stakes, a);
        EntryAtMostTotal(t, Colls, a);
        EntryAtMostTotal(t, Debts, a);
      }
    }
    hide Reward, Total;
  }

  /** Closing for liquidation moves the rewards to the ActivePool and takes out exactly the vault and its stake. */
  lemma RetireExactly(s: System, a: Address, extraColl: int, extraDebt: int)
    requires SnapsOk(s) && CollCovered(s) && Balanced(s, extraColl, extraDebt)
    ensures Retire(s, a).Ok? <==> a in s.vaults && |s.vaults| > 1 && PendingDebt(s, s.vaults[a]) <= s.defaultDebt
    ensures var r := Retire(s, a);
            r.Ok? ==>
              var t, v := r.system, s.vaults[a];
              && SameTrackers(s, t) && t.vaults == s.vaults - {a} && t.totalStakes == s.totalStakes - v.stake
              && t.activeColl == s.activeColl + PendingColl(s, v) && t.activeDebt == s.activeDebt + PendingDebt(s, v)
              && t.defaultColl == s.defaultColl - PendingColl(s, v) && t.defaultDebt == s.defaultDebt - PendingDebt(s, v)
  {
    if a in s.vaults {
      RewardsCovered(s, a);
      EntryAtMostTotal(s, Stakes, a);
    }
    hide Reward, Total, CollCovered;
  }

  /** Both accumulators grow by the amount per unit of stake, the carried remainders make up the rest,
      and the amounts move from the ActivePool to the DefaultPool; without debt nothing happens. */
  lemma RedistributeExactly(s: System, debt: nat, coll: nat)
    ensures Redistribute(s, debt, coll).Ok? <==> debt == 0 || (s.totalStakes > 0 && debt <= s.activeDebt && coll <= s.activeColl)
    ensures var r := Redistribute(s, debt, coll);
            r.Ok? ==>
              var t := r.system;
              && t.vaults == s.vaults && t.totalStakes == s.totalStakes && t.stakesSnapshot == s.stakesSnapshot && t.collSnapshot == s.collSnapshot
              && if debt == 0 then t == s
                 else
                   && Spread(coll, s.errColl, s.totalStakes, t.accColl - s.accColl, t.errColl)
                   && Spread(debt, s.errDebt, s.totalStakes, t.accDebt - s.accDebt, t.errDebt)
                   && t.activeColl == s.activeColl - coll && t.activeDebt == s.activeDebt - debt
                   && t.defaultColl == s.defaultColl + coll && t.defaultDebt == s.defaultDebt + debt
  {
    if debt > 0 && s.totalStakes > 0 {
      var c, d := Carry(coll, s.errColl, s.totalStakes), Carry(debt, s.errDebt, s.totalStakes);
      hide PerUnit, Carry;
    }
  }

  /** `perUnit` for each of the `stakes` and a remainder smaller than them make up the amount and the
      previous remainder, in units of 10^-18. */
  predicate Spread(amount: nat, before: nat, stakes: nat, perUnit: int, after: nat) {
    0 <= perUnit && perUnit * stakes + after == amount * 1_000_000_000_000_000_000 + before && after < stakes
  }
}
