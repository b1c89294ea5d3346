/** Exactly when a batch of liquidations goes through, as long as the pending rewards are covered. */
module BatchReverts {
  import opened Arithmetic
  import opened Sums
  import opened Units
  import opened VaultList
  import opened VaultAccounts
  import opened Liquidation
  import opened LiquidationTable
  import opened RecoveryBatch
  import opened BatchMode
  import PoolModel

  // ------------------------------------------------------------- one vault's turn

  /** With the rewards covered only the last vault cannot be closed. */
  lemma RetireWhenCovered(s: System, a: Address, extraColl: int, extraDebt: int)
    requires SnapsOk(s) && Balanced(s, extraColl, extraDebt) && CollCovered(s) && DebtCovered(s)
    ensures Retire(s, a).Ok? <==> a in s.vaults && |s.vaults| > 1
  {
    if a in s.vaults && |s.vaults| > 1 {
      RetireSucceeds(s, a, extraColl, extraDebt);
    }
  }

  /** A turn in normal mode reverts exactly when it would close the last vault. */
  lemma NormalTurnReverts(q: Sequence, s: System, pool: nat, a: Address, price: nat)
    requires SequenceInv(q, s, pool) && DebtSafe(s)
    ensures NormalStep(q, a, price).Reverted? <==> a in q.system.vaults && |q.system.vaults| <= 1 && WorthLess(CollOf(q, a), DebtOf(q, a), price, 110)
  {
    RetireWhenCovered(q.system, a, q.totals.entireColl, q.totals.entireDebt);
    LowExactly(q, a, price);
    hide Retire, WorthLess, CR, NormalValues;
  }

  lemma LowExactly(q: Sequence, a: Address, price: nat)
    requires SnapsOk(q.system)
    ensures ICR(q.system, a, price) < MCR <==> a in q.system.vaults && WorthLess(CollOf(q, a), DebtOf(q, a), price, 110)
  {
    if a in q.system.vaults {
      if DebtOf(q, a) > 0 { Thresholds(CollOf(q, a), DebtOf(q, a), price); } else { NoDebtIsHealthy(CollOf(q, a), price); }
    }
  }

  /** The pools hold at least what the closed vaults left behind and what this one has. */
  lemma PoolsHold(q: Sequence, s: System, pool: nat, a: Address)
    requires SequenceInv(q, s, pool) && DebtSafe(s) && a in q.system.vaults
    ensures q.totals.entireColl + CollOf(q, a) <= s.activeColl + s.defaultColl
    ensures q.totals.entireDebt + DebtOf(q, a) <= s.activeDebt + s.defaultDebt
  {
    var v := q.system.vaults[a];
    EntryAtMostTotal(q.system, Colls, a);
    EntryAtMostTotal(q.system, Debts, a);
    RewardsCovered(q.system, a);
  }

  /** So the sequence's own books never fall short. */
  lemma BooksSuffice(q: Sequence, s: System, pool: nat, a: Address, v: Values, start: Sequence)
    requires SequenceInv(q, s, pool) && DebtSafe(s) && a in q.system.vaults && TracksWhatIsLeft(start, q)
    requires start.systemColl == s.activeColl + s.defaultColl && start.systemDebt == s.activeDebt + s.defaultDebt && start.totals == Zero
    requires Conserves(v, q.remaining) && v.entireDebt == DebtOf(q, a) && v.entireColl == CollOf(q, a)
    ensures v.debtToOffset <= q.systemDebt && v.collToSP <= q.systemColl
  {
    PoolsHold(q, s, pool, a);
    hide SequenceInv, DebtSafe, EntireColl, EntireDebt;
    assert Conserves(q.totals, pool) by { InvConserves(q, s, pool); }
  }

  lemma InvConserves(q: Sequence, s: System, pool: nat)
    requires SequenceInv(q, s, pool)
    ensures Conserves(q.totals, pool)
  {
  }

  /** A turn in recovery mode never reverts. */
  lemma RecoveryTurnGoes(q: Sequence, s: System, pool: nat, a: Address, price: nat, start: Sequence)
    requires price > 0 && SequenceInv(q, s, pool) && DebtSafe(s) && !q.backToNormalMode && TracksWhatIsLeft(start, q)
    requires start.systemColl == s.activeColl + s.defaultColl && start.systemDebt == s.activeDebt + s.defaultDebt && start.totals == Zero
    ensures RecoveryStep(q, a, price).Going?
  {
    if a in q.system.vaults && |q.system.vaults| > 1 {
      RetireWhenCovered(q.system, a, q.totals.entireColl, q.totals.entireDebt);
      var debt, coll, icr, tcr := DebtOf(q, a), CollOf(q, a), ICR(q.system, a, price), CR(q.systemColl, q.systemDebt, price);
      RecoveryConserves(debt, coll, icr, q.remaining, tcr, price);
      var o := RecoveryValues(debt, coll, icr, q.remaining, tcr, price);
      if o.Some? {
        BooksSuffice(q, s, pool, a, o.values, start);
      }
      hide Retire, CR, RecoveryValues, SequenceInv, DebtSafe;
    }
  }

  // ------------------------------------------------------------- the whole batch

  /** In normal mode the sequence reverts exactly when every vault there is would be closed. */
  lemma {:induction false} NormalBatchReverts(q: Sequence, s: System, pool: nat, users: seq<Address>, price: nat)
    requires price > 0 && SnapsOk(q.system) && SequenceInv(q, s, pool) && DebtSafe(s) && q.system.vaults != map[]
    ensures Batch(q, users, price, false).Reverted? <==> Low(q.system, users, price) == q.system.vaults.Keys
    decreases |users|
  {
    var keys, low := q.system.vaults.Keys, Low(q.system, users, price);
    LowAreVaults(q.system, users, price);
    if users == [] {
      KeysOfNone(q.system);
      assert low == {};
    } else {
      var a, rest := users[0], users[1..];
      var isLow := a in keys && WorthLess(CollOf(q, a), DebtOf(q, a), price, 110);
      assert Batch(q, users, price, false) == if Step(q, a, price, false).Reverted? then Reverted else Batch(Step(q, a, price, false).seq_, rest, price, false);
      LowAreVaults(q.system, rest, price);
      hide SequenceInv, DebtSafe, WorthLess, Low, NormalStep, Batch, EntireColl, EntireDebt, SnapsOk;
      NormalTurnReverts(q, s, pool, a, price);
      LowAfterFirst(q, users, price);
      if NormalStep(q, a, price).Going? {
        var q1 := NormalStep(q, a, price).seq_;
        NormalStepInv(q, s, pool, a, price);
        LowAfterTurn(q, q1, a, rest, price);
        NormalBatchReverts(q1, s, pool, rest, price);
        SameClaim(low, Low(q.system, rest, price), keys, a, isLow);
      } else {
        OneVault(q.system, a);
        assert a in low;
      }
    }
  }

  lemma KeysOfNone(s: System)
    ensures s.vaults.Keys == {} <==> s.vaults == map[]
  {
    if s.vaults.Keys == {} { assert s.vaults == map[]; }
  }

  lemma SameClaim(low: set<Address>, lowRest: set<Address>, keys: set<Address>, a: Address, isLow: bool)
    requires low <= keys && lowRest <= keys && low == lowRest + (if isLow then {a} else {})
    ensures isLow ==> (low == keys <==> lowRest - {a} == keys - {a})
    ensures !isLow ==> (low == keys <==> lowRest == keys)
  {
    if isLow && lowRest - {a} == keys - {a} {
      forall b | b in keys ensures b in low {
        if b != a {
          assert b in keys - {a} && b in lowRest - {a};
        }
      }
      assert low == keys;
    }
  }

  lemma OneVault(s: System, a: Address)
    requires a in s.vaults && |s.vaults| <= 1
    ensures s.vaults.Keys == {a}
  {
    var rest := s.vaults.Keys - {a};
    assert s.vaults.Keys == rest + {a} && |s.vaults.Keys| == |s.vaults|;
    assert rest == {};
  }

  lemma LowAfterFirst(q: Sequence, users: seq<Address>, price: nat)
    requires SnapsOk(q.system) && users != []
    ensures Low(q.system, users, price) == Low(q.system, users[1..], price)
              + if users[0] in q.system.vaults && WorthLess(CollOf(q, users[0]), DebtOf(q, users[0]), price, 110) then {users[0]} else {}
  {
    hide WorthLess, EntireColl, EntireDebt;
    assert users == [users[0]] + users[1..];
  }

  lemma LowAfterTurn(q: Sequence, q1: Sequence, a: Address, rest: seq<Address>, price: nat)
    requires SnapsOk(q.system) && NormalStep(q, a, price) == Going(q1)
    ensures SnapsOk(q1.system)
    ensures var low := a in q.system.vaults && WorthLess(CollOf(q, a), DebtOf(q, a), price, 110);
            && q1.system.vaults.Keys == (if low then q.system.vaults.Keys - {a} else q.system.vaults.Keys)
            && Low(q1.system, rest, price) == (if low then Low(q.system, rest, price) - {a} else Low(q.system, rest, price))
            && (low ==> |q.system.vaults| > 1) && (q.system.vaults != map[] ==> q1.system.vaults != map[])
  {
    LowExactly(q, a, price);
    StepKeepsSnaps(q, a, 1);
    if ICR(q.system, a, price) < MCR {
      RetireLeavesOthers(q.system, a, rest, price);
      assert q1.system == Retire(q.system, a).system;
      RetireTakes(q.system, a);
      LowIsUnderwater(q.system, rest, price);
      LowIsUnderwater(q1.system, rest, price);
    }
    hide WorthLess, Underwater, Low, CR, EntireColl, EntireDebt, Retire, ICR, SnapsOk;
  }

  lemma RetireTakes(s: System, a: Address)
    requires SnapsOk(s) && Retire(s, a).Ok?
    ensures var t := Retire(s, a).system; t.vaults.Keys == s.vaults.Keys - {a} && |s.vaults| > 1 && t.vaults != map[]
  {
    var t := Retire(s, a).system;
    assert s.vaults.Keys == t.vaults.Keys + {a};
    assert |s.vaults.Keys| == |s.vaults| && |t.vaults.Keys| == |t.vaults|;
  }

  /** The last step of a batch: what is refused is an offset, or a redistribution over no stakes. */
  lemma PayOutExactly(q: Sequence, s: System, pool: nat)
    requires SequenceInv(q, s, pool) && DebtSafe(s)
    ensures PayOut(q.system, q.totals).Ok? <==> q.totals.debtToRedistribute == 0 || q.system.totalStakes > 0
  {
    EntryAtMostTotal(q.system, Colls, NULL);
    EntryAtMostTotal(q.system, Debts, NULL);
    hide PerUnit, Carry;
  }

  /** The totals of the sequence, once it has gone through, can be settled. */
  predicate CanSettle(q: Sequence, pool: PoolModel.Pool) {
    && PoolModel.Offset(pool, q.totals.debtToOffset, q.totals.collToSP).Ok?
    && (q.totals.debtToRedistribute == 0 || q.system.totalStakes > 0)
  }

  /** From 150% up, a batch goes through exactly when some listed vault is worth less than 110%, not every
      vault is to be closed, the Stability Pool takes the offset, and there are stakes left to
      redistribute over if need be. */
  lemma NormalModeGoes(s: System, users: seq<Address>, price: nat, pool: PoolModel.Pool)
    requires price > 0 && Valid(s) && DebtSafe(s) && !BelowCritical(s, price)
    ensures var low, r := Low(s, users, price), Batch(Start(s, pool.bpd), users, price, false);
            BatchLiquidate(s, users, price, pool).Ok? <==> low != {} && low != s.vaults.Keys && r.Going? && CanSettle(r.seq_, pool)
    ensures Low(s, users, price) != s.vaults.Keys ==> Batch(Start(s, pool.bpd), users, price, false).Going?
  {
    ModeIsExact(s, price);
    var start, low := Start(s, pool.bpd), Low(s, users, price);
    assert SequenceInv(start, s, pool.bpd) by { StartInv(s, pool.bpd); }
    var r := Batch(start, users, price, false);
    if s.vaults == map[] {
      EmptyBatch(start, users, price);
      assert low == {};
    } else {
      NormalBatchReverts(start, s, pool.bpd, users, price);
    }
    if r.Going? {
      BatchInv(start, s, pool.bpd, users, price, false);
      PayOutExactly(r.seq_, s, pool.bpd);
      NormalBatchExact(start, users, price);
      LowIsUnderwater(s, users, price);
      LowHasDebt(s, users, price);
    }
    assert users == [] ==> low == {};
    hide Batch, Low, Underwater, TotalDebtIn, TotalCollIn, PayOut, PoolModel.Offset, Valid, DebtSafe, SequenceInv, InRecovery, BelowCritical;
  }

  lemma StartInv(s: System, pool: nat)
    requires Valid(s)
    ensures SequenceInv(Start(s, pool), s, pool)
  {
  }

  lemma {:induction false} EmptyBatch(q: Sequence, users: seq<Address>, price: nat)
    requires price > 0 && SnapsOk(q.system) && q.system.vaults == map[]
    ensures Batch(q, users, price, false) == Going(q)
    decreases |users|
  {
    if users != [] {
      EmptyBatch(q, users[1..], price);
    }
  }

  /** A vault worth less than 110% of its debt has debt. */
  lemma LowHasDebt(s: System, users: seq<Address>, price: nat)
    requires SnapsOk(s)
    ensures TotalDebtIn(s, Low(s, users, price)) > 0 <==> Low(s, users, price) != {}
  {
    var low := Low(s, users, price);
    NothingLow(s);
    if low != {} {
      var a :| a in low;
      OneHasDebt(s, users, price, a);
      hide Low, WorthLess, DebtIn;
      SumIntRemove(low, (b: Address) => DebtIn(s, b), a);
      DebtInNonneg(s, low - {a});
    }
  }

  lemma OneHasDebt(s: System, users: seq<Address>, price: nat, a: Address)
    requires SnapsOk(s) && a in Low(s, users, price)
    ensures DebtIn(s, a) > 0
  {
  }

  // ------------------------------------------------------------ in recovery mode

  lemma {:induction false} InvAtTurn(s: System, users: seq<Address>, i: nat, price: nat, pool: nat, qi: Sequence)
    requires price > 0 && SnapsOk(s) && SequenceInv(Start(s, pool), s, pool) && AtTurn(Start(s, pool), users, i, price, qi)
    ensures SequenceInv(qi, s, pool)
  {
    BatchInv(Start(s, pool), s, pool, users[..i], price, true);
  }

  /** The turn of `users[i]` would close the last vault, in a sequence that is back in normal mode. */
  ghost predicate StuckAt(s: System, users: seq<Address>, i: nat, price: nat, pool: nat)
    requires price > 0 && SnapsOk(s)
  {
    i < |users| && exists qi :: AtTurn(Start(s, pool), users, i, price, qi) && SnapsOk(qi.system) && qi.backToNormalMode
                                && users[i] in qi.system.vaults && |qi.system.vaults| <= 1
                                && WorthLess(CollOf(qi, users[i]), DebtOf(qi, users[i]), price, 110)
  }

  ghost predicate StuckBefore(s: System, users: seq<Address>, n: nat, price: nat, pool: nat)
    requires price > 0 && SnapsOk(s)
  {
    exists i: nat :: i < n && StuckAt(s, users, i, price, pool)
  }

  lemma OneMoreStuck(s: System, users: seq<Address>, n: nat, price: nat, pool: nat)
    requires price > 0 && SnapsOk(s)
    ensures StuckBefore(s, users, n + 1, price, pool) <==> StuckBefore(s, users, n, price, pool) || StuckAt(s, users, n, price, pool)
  {
    hide StuckAt;
    if StuckBefore(s, users, n + 1, price, pool) {
      var i: nat :| i < n + 1 && StuckAt(s, users, i, price, pool);
      assert i == n || i < n;
    }
    if StuckBefore(s, users, n, price, pool) {
      var i: nat :| i < n && StuckAt(s, users, i, price, pool);
      assert i < n + 1;
    }
  }

  lemma NotStuckAt(s: System, users: seq<Address>, i: nat, price: nat, pool: nat)
    requires price > 0 && SnapsOk(s) && i <= |users| && Batch(Start(s, pool), users[..i], price, true).Reverted?
    ensures !StuckAt(s, users, i, price, pool)
  {
  }

  lemma TurnReverts(s: System, users: seq<Address>, i: nat, price: nat, pool: nat, qi: Sequence)
    requires price > 0 && Valid(s) && DebtSafe(s) && BelowCritical(s, price) && AtTurn(Start(s, pool), users, i, price, qi) && i < |users|
    ensures SnapsOk(qi.system)
    ensures RecoveryStep(qi, users[i], price).Reverted? <==>
              qi.backToNormalMode && users[i] in qi.system.vaults && |qi.system.vaults| <= 1
              && WorthLess(CollOf(qi, users[i]), DebtOf(qi, users[i]), price, 110)
  {
    StartInv(s, pool);
    StartsInRecovery(s, price, pool);
    InvAtTurn(s, users, i, price, pool, qi);
    ReturnIsExact(Start(s, pool), users, i, price, qi);
    hide SequenceInv, DebtSafe, WorthLess, Tracks, RestoredAt, AtTurn, Valid, BelowCritical;
    if qi.backToNormalMode {
      NormalTurnReverts(qi, s, pool, users[i], price);
      hide NormalStep;
    } else {
      RecoveryTurnGoes(qi, s, pool, users[i], price, Start(s, pool));
    }
  }

  /** Below 150% the sequence reverts exactly when at some turn, back in normal mode, it would close the
      last vault. */
  lemma {:induction false} RecoveryBatchReverts(s: System, users: seq<Address>, n: nat, price: nat, pool: nat)
    requires price > 0 && Valid(s) && DebtSafe(s) && BelowCritical(s, price) && n <= |users|
    ensures Batch(Start(s, pool), users[..n], price, true).Reverted? <==> StuckBefore(s, users, n, price, pool)
    decreases n
  {
    var start := Start(s, pool);
    if n == 0 {
      assert users[..0] == [];
    } else {
      RecoveryBatchReverts(s, users, n - 1, price, pool);
      BatchAppend(start, users[..n - 1], users[n - 1], price);
      assert users[..n] == users[..n - 1] + [users[n - 1]];
      var r := Batch(start, users[..n - 1], price, true);
      if r.Going? {
        TurnReverts(s, users, n - 1, price, pool, r.seq_);
        StuckExactly(s, users, n - 1, price, pool, r.seq_);
      } else {
        NotStuckAt(s, users, n - 1, price, pool);
      }
      OneMoreStuck(s, users, n - 1, price, pool);
      hide StuckAt, StuckBefore, RecoveryStep, DebtSafe, Valid, BelowCritical;
    }
  }

  lemma StuckExactly(s: System, users: seq<Address>, i: nat, price: nat, pool: nat, qi: Sequence)
    requires price > 0 && SnapsOk(s) && AtTurn(Start(s, pool), users, i, price, qi) && i < |users| && SnapsOk(qi.system)
    ensures StuckAt(s, users, i, price, pool) <==>
              qi.backToNormalMode && users[i] in qi.system.vaults && |qi.system.vaults| <= 1
              && WorthLess(CollOf(qi, users[i]), DebtOf(qi, users[i]), price, 110)
  {
    hide Batch, WorthLess;
  }

  /** And the transaction goes through exactly when the sequence does, something was closed, and its totals
      can be settled. */
  lemma RecoveryModeGoes(s: System, users: seq<Address>, price: nat, pool: PoolModel.Pool)
    requires price > 0 && Valid(s) && DebtSafe(s) && BelowCritical(s, price)
    ensures var r := Batch(Start(s, pool.bpd), users, price, true);
            BatchLiquidate(s, users, price, pool).Ok? <==> r.Going? && r.seq_.totals.entireDebt > 0 && CanSettle(r.seq_, pool)
    ensures Batch(Start(s, pool.bpd), users, price, true).Reverted? <==> StuckBefore(s, users, |users|, price, pool.bpd)
  {
    StartsInRecovery(s, price, pool.bpd);
    StartInv(s, pool.bpd);
    RecoveryBatchReverts(s, users, |users|, price, pool.bpd);
    assert users[..|users|] == users;
    var r := Batch(Start(s, pool.bpd), users, price, true);
    if r.Going? {
      BatchInv(Start(s, pool.bpd), s, pool.bpd, users, price, true);
      PayOutExactly(r.seq_, s, pool.bpd);
    }
    assert users == [] ==> r == Going(Start(s, pool.bpd));
    hide Batch, PayOut, PoolModel.Offset, Valid, DebtSafe, SequenceInv, InRecovery, BelowCritical, StuckBefore;
  }
}
