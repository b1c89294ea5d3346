/** Which vaults a batch that starts in recovery mode closes, by which rule and for what, and when it
    goes on in normal mode. */
module RecoveryBatch {
  import opened Arithmetic
  import opened Units
  import opened VaultList
  import opened VaultAccounts
  import opened Liquidation
  import opened LiquidationTable

  // ------------------------------------------------------------ one vault's turn

  function CollOf(q: Sequence, a: Address): nat
    requires SnapsOk(q.system) && a in q.system.vaults
  {
    EntireColl(q.system, q.system.vaults[a])
  }
  function DebtOf(q: Sequence, a: Address): nat
    requires SnapsOk(q.system) && a in q.system.vaults
  {
    EntireDebt(q.system, q.system.vaults[a])
  }

  /** Every total grows by the closed vault's amount. */
  predicate Adds(t: Values, v: Values, t': Values) {
    && t'.entireDebt == t.entireDebt + v.entireDebt && t'.entireColl == t.entireColl + v.entireColl
    && t'.collGas == t.collGas + v.collGas && t'.debtGas == t.debtGas + v.debtGas
    && t'.debtToOffset == t.debtToOffset + v.debtToOffset && t'.collToSP == t.collToSP + v.collToSP
    && t'.debtToRedistribute == t.debtToRedistribute + v.debtToRedistribute
    && t'.collToRedistribute == t.collToRedistribute + v.collToRedistribute && t'.collSurplus == t.collSurplus + v.collSurplus
  }

  /** The turn closes `a`, and only `a`, with these amounts. */
  predicate Closes(q: Sequence, q': Sequence, a: Address, v: Values)
    requires SnapsOk(q.system)
  {
    && a in q.system.vaults && q'.system.vaults == q.system.vaults - {a}
    && Adds(q.totals, v, q'.totals) && v.debtToOffset <= q.remaining && q'.remaining == q.remaining - v.debtToOffset
  }

  /** As much debt is offset as the Stability Pool still has, and nothing is left to the owner. */
  predicate ClosesLow(q: Sequence, q': Sequence, a: Address, price: nat, v: Values)
    requires SnapsOk(q.system)
  {
    && Closes(q, q', a, v) && WorthLess(CollOf(q, a), DebtOf(q, a), price, 110)
    && Split(v, DebtOf(q, a), CollOf(q, a), if DebtOf(q, a) < q.remaining then DebtOf(q, a) else q.remaining, 0)
  }

  /** The same whoever's turn it is: a turn in normal mode closes the vault if it is worth less than
      110% of its debt, and otherwise changes nothing. */
  lemma NormalTurn(q: Sequence, a: Address, price: nat) returns (v: Values)
    requires SnapsOk(q.system) && NormalStep(q, a, price).Going?
    ensures var q' := NormalStep(q, a, price).seq_;
            if a in q.system.vaults && WorthLess(CollOf(q, a), DebtOf(q, a), price, 110)
            then ClosesLow(q, q', a, price, v) && q' == q.(system := q'.system, remaining := q'.remaining, totals := q'.totals)
            else q' == q
  {
    v := Zero;
    if a in q.system.vaults {
      var debt, coll := DebtOf(q, a), CollOf(q, a);
      if debt > 0 {
        Thresholds(coll, debt, price);
        NormalSplit(debt, coll, q.remaining);
        v := NormalValues(debt, coll, q.remaining);
      } else {
        NoDebtIsHealthy(coll, price);
      }
      hide CR, WorthLess, Split, NormalValues;
    }
  }

  /** The vault's ratio is below the total ratio, both rounded down. */
  ghost predicate BelowTotal(q: Sequence, a: Address, price: nat)
    requires SnapsOk(q.system) && a in q.system.vaults
  {
    exists r: nat :: r * q.systemDebt <= q.systemColl * price && CollOf(q, a) * price < r * DebtOf(q, a)
  }

  lemma BelowTotalExactly(q: Sequence, a: Address, price: nat)
    requires SnapsOk(q.system) && a in q.system.vaults && q.systemDebt > 0 && DebtOf(q, a) > 0
    ensures BelowTotal(q, a, price) <==> CollOf(q, a) * price < CR(q.systemColl, q.systemDebt, price) * DebtOf(q, a)
  {
    var tcr := CR(q.systemColl, q.systemDebt, price);
    RatioIsFloor(q.systemColl, q.systemDebt, price);
    if r: nat :| r * q.systemDebt <= q.systemColl * price && CollOf(q, a) * price < r * DebtOf(q, a) {
      MulMono(tcr + 1, r, q.systemDebt);
      MulMono(r, tcr, DebtOf(q, a));
    }
  }

  /** While the sequence counts as in recovery mode, this is exactly who is closed when its turn comes. */
  ghost predicate ToBeClosed(q: Sequence, a: Address, price: nat)
    requires SnapsOk(q.system) && a in q.system.vaults
  {
    WorthLess(CollOf(q, a), DebtOf(q, a), price, 110) || (BelowTotal(q, a, price) && 0 < DebtOf(q, a) <= q.remaining)
  }

  /** At 100% and below nothing is offset; up to 110% as much as possible; above, the whole debt, and the
      owner keeps the collateral beyond 110% of it. */
  predicate ClosesByTable(q: Sequence, q': Sequence, a: Address, price: nat, v: Values)
    requires SnapsOk(q.system)
  {
    && Closes(q, q', a, v)
    && var debt, coll := DebtOf(q, a), CollOf(q, a);
       if coll * price < 1_000_000_000_000_000_001 * debt then Split(v, debt, coll, 0, 0)
       else if WorthLess(coll, debt, price, 110) then ClosesLow(q, q', a, price, v)
       else Split(v, debt, coll, debt, v.collSurplus) && KeptBeyondCap(debt, coll, price, v.collSurplus)
  }

  /** The whole turn while in recovery mode; the last vault is never closed. The tracked system loses
      what goes to the Stability Pool, and the sequence goes on in normal mode exactly when a turn that
      gets as far leaves it at 150% or more. */
  ghost predicate RecoveryTurnOutcome(q: Sequence, q': Sequence, a: Address, price: nat, v: Values)
    requires SnapsOk(q.system) && a in q.system.vaults
  {
    if |q.system.vaults| > 1 && ToBeClosed(q, a, price) then
      && ClosesByTable(q, q', a, price, v)
      && v.collToSP <= q.systemColl && v.debtToOffset <= q.systemDebt
      && q'.systemColl == q.systemColl - v.collToSP && q'.systemDebt == q.systemDebt - v.debtToOffset
      && (q'.backToNormalMode <==> !WorthLess(q'.systemColl, q'.systemDebt, price, 150))
    else
      q' == q.(backToNormalMode := q'.backToNormalMode)
      && (q'.backToNormalMode ==> !WorthLess(q.systemColl, q.systemDebt, price, 150))
  }

  lemma RecoveryTurn(q: Sequence, a: Address, price: nat) returns (v: Values)
    requires price > 0 && SnapsOk(q.system) && a in q.system.vaults && !q.backToNormalMode && q.systemDebt > 0
    requires RecoveryStep(q, a, price).Going?
    ensures RecoveryTurnOutcome(q, RecoveryStep(q, a, price).seq_, a, price, v)
  {
    var q', debt, coll := RecoveryStep(q, a, price).seq_, DebtOf(q, a), CollOf(q, a);
    v := Zero;
    RecoveryThresholds(q.systemColl, q.systemDebt, price);
    RecoveryThresholds(q'.systemColl, q'.systemDebt, price);
    if debt > 0 {
      var tcr := CR(q.systemColl, q.systemDebt, price);
      BelowTotalExactly(q, a, price);
      Thresholds(coll, debt, price);
      RecoverySplit(debt, coll, q.remaining, tcr, price);
      var o := RecoveryValues(debt, coll, CR(coll, debt, price), q.remaining, tcr, price);
      if o.Some? { v := o.values; }
    } else {
      NoDebtIsHealthy(coll, price);
    }
    hide CR, WorthLess, Split, KeptBeyondCap, BelowTotal, RecoveryValues;
  }

  lemma RecoveryThresholds(coll: nat, debt: nat, price: nat)
    ensures CR(coll, debt, price) < CCR <==> WorthLess(coll, debt, price, 150)
  {
    if debt > 0 {
      Thresholds(coll, debt, price);
    } else {
      NoDebtIsHealthy(coll, price);
    }
  }

  // ------------------------------------------------------------- the whole batch

  /** The turn at a given point, in whichever mode the sequence is by then. */
  ghost predicate TurnOutcome(q: Sequence, q': Sequence, a: Address, price: nat, v: Values)
    requires SnapsOk(q.system)
  {
    if a !in q.system.vaults then q' == q
    else if !q.backToNormalMode then RecoveryTurnOutcome(q, q', a, price, v)
    else if WorthLess(CollOf(q, a), DebtOf(q, a), price, 110)
    then ClosesLow(q, q', a, price, v) && q' == q.(system := q'.system, remaining := q'.remaining, totals := q'.totals)
    else q' == q
  }

  /** The sequence is back in normal mode exactly when the system it tracks is at 150% or more. */
  predicate Tracks(q: Sequence, price: nat) {
    q.backToNormalMode <==> !WorthLess(q.systemColl, q.systemDebt, price, 150)
  }

  lemma Turn(q: Sequence, a: Address, price: nat) returns (v: Values)
    requires price > 0 && SnapsOk(q.system) && Tracks(q, price) && RecoveryStep(q, a, price).Going?
    ensures var q' := RecoveryStep(q, a, price).seq_; SnapsOk(q'.system) && TurnOutcome(q, q', a, price, v) && Tracks(q', price)
  {
    StepKeepsSnaps(q, a, price);
    v := Zero;
    if a in q.system.vaults {
      hide RecoveryTurnOutcome, ClosesLow, NormalStep;
      if q.backToNormalMode {
        v := NormalTurn(q, a, price);
      } else {
        v := RecoveryTurn(q, a, price);
        StaysTracked(q, RecoveryStep(q, a, price).seq_, a, price, v);
      }
    }
  }

  lemma StaysTracked(q: Sequence, q': Sequence, a: Address, price: nat, v: Values)
    requires SnapsOk(q.system) && a in q.system.vaults && Tracks(q, price) && !q.backToNormalMode && RecoveryTurnOutcome(q, q', a, price, v)
    ensures Tracks(q', price)
  {
    hide ToBeClosed, ClosesByTable, WorthLess;
  }

  /** The point of the batch before the turn of `users[i]`. */
  ghost predicate AtTurn(q: Sequence, users: seq<Address>, i: nat, price: nat, qi: Sequence)
    requires price > 0 && SnapsOk(q.system)
  {
    i <= |users| && Batch(q, users[..i], price, true) == Going(qi)
  }

  lemma {:induction false} BatchAppend(q: Sequence, users: seq<Address>, a: Address, price: nat)
    requires price > 0 && SnapsOk(q.system)
    ensures Batch(q, users + [a], price, true)
            == if Batch(q, users, price, true).Reverted? then Reverted else Step(Batch(q, users, price, true).seq_, a, price, true)
    decreases |users|
  {
    if users == [] {
      assert ([] + [a])[1..] == [];
    } else {
      assert (users + [a])[0] == users[0] && (users + [a])[1..] == users[1..] + [a];
      if Step(q, users[0], price, true).Going? {
        BatchAppend(Step(q, users[0], price, true).seq_, users[1..], a, price);
      }
    }
  }

  lemma OneMoreTurn(q: Sequence, users: seq<Address>, i: nat, price: nat, qi: Sequence)
    requires price > 0 && SnapsOk(q.system) && AtTurn(q, users, i, price, qi) && i < |users|
    ensures SnapsOk(qi.system) && Batch(q, users[..i + 1], price, true) == RecoveryStep(qi, users[i], price)
  {
    BatchAppend(q, users[..i], users[i], price);
    assert users[..i + 1] == users[..i] + [users[i]];
  }

  /** A batch that goes through has gone through every turn. */
  lemma {:induction false} ReachesTurn(q: Sequence, users: seq<Address>, i: nat, price: nat) returns (qi: Sequence)
    requires price > 0 && SnapsOk(q.system) && Batch(q, users, price, true).Going? && i <= |users|
    ensures AtTurn(q, users, i, price, qi) && SnapsOk(qi.system)
    decreases |users| - i
  {
    if i == |users| {
      assert users[..i] == users;
      qi := Batch(q, users, price, true).seq_;
    } else {
      var next := ReachesTurn(q, users, i + 1, price);
      BatchAppend(q, users[..i], users[i], price);
      assert users[..i + 1] == users[..i] + [users[i]];
      qi := Batch(q, users[..i], price, true).seq_;
    }
  }

  lemma {:induction false} TracksThroughout(q: Sequence, users: seq<Address>, i: nat, price: nat, qi: Sequence)
    requires price > 0 && SnapsOk(q.system) && Tracks(q, price) && AtTurn(q, users, i, price, qi)
    ensures SnapsOk(qi.system) && Tracks(qi, price)
    decreases i
  {
    if i == 0 {
      assert users[..0] == [];
    } else {
      BatchAppend(q, users[..i - 1], users[i - 1], price);
      assert users[..i] == users[..i - 1] + [users[i - 1]];
      var before := Batch(q, users[..i - 1], price, true).seq_;
      hide Tracks, RecoveryStep;
      TracksThroughout(q, users, i - 1, price, before);
      var v := Turn(before, users[i - 1], price);
    }
  }

  /** Every turn of a batch that starts below 150%. */
  lemma EachTurn(q: Sequence, users: seq<Address>, i: nat, price: nat) returns (qi: Sequence, qn: Sequence, v: Values)
    requires price > 0 && SnapsOk(q.system) && Tracks(q, price) && Batch(q, users, price, true).Going? && i < |users|
    ensures AtTurn(q, users, i, price, qi) && AtTurn(q, users, i + 1, price, qn)
    ensures SnapsOk(qi.system) && SnapsOk(qn.system) && Tracks(qi, price) && TurnOutcome(qi, qn, users[i], price, v)
  {
    hide Tracks, TurnOutcome, RecoveryStep;
    qi := ReachesTurn(q, users, i, price);
    qn := ReachesTurn(q, users, i + 1, price);
    OneMoreTurn(q, users, i, price, qi);
    TracksThroughout(q, users, i, price, qi);
    v := Turn(qi, users[i], price);
  }
}
