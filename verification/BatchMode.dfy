/** A batch as a whole transaction: in which mode it runs, whom it closes, and what the liquidator
    gets, all in amounts of collateral and debt. */
module BatchMode {
  import opened Arithmetic
  import opened Sums
  import opened Units
  import opened VaultList
  import opened VaultAccounts
  import opened VaultOperations
  import opened Liquidation
  import opened LiquidationTable
  import opened RecoveryBatch
  import PoolModel

  /** The whole system is worth less than 150% of its debt. */
  predicate BelowCritical(s: System, price: nat) {
    WorthLess(s.activeColl + s.defaultColl, s.activeDebt + s.defaultDebt, price, 150)
  }

  /** A batch runs in recovery mode exactly below 150%. */
  lemma ModeIsExact(s: System, price: nat)
    ensures InRecovery(s, price) <==> BelowCritical(s, price)
  {
    RecoveryThresholds(s.activeColl + s.defaultColl, s.activeDebt + s.defaultDebt, price);
  }

  // ------------------------------------------------------- back to normal mode

  /** What `qi` has left of the system that `q` started from. */
  predicate TracksWhatIsLeft(q: Sequence, qi: Sequence) {
    && qi.systemColl == q.systemColl - (qi.totals.collToSP - q.totals.collToSP)
    && qi.systemDebt == q.systemDebt - (qi.totals.debtToOffset - q.totals.debtToOffset)
  }

  /** That is below 150%. */
  predicate LeftBelow(q: Sequence, qi: Sequence, price: nat) {
    WorthLess(q.systemColl - (qi.totals.collToSP - q.totals.collToSP), q.systemDebt - (qi.totals.debtToOffset - q.totals.debtToOffset), price, 150)
  }

  /** Before the turn of `users[j]` what is left of the system is at 150% or more. */
  ghost predicate RestoredAt(q: Sequence, users: seq<Address>, j: nat, price: nat)
    requires price > 0 && SnapsOk(q.system)
  {
    exists qj :: AtTurn(q, users, j, price, qj) && !LeftBelow(q, qj, price)
  }

  lemma RestoredHere(q: Sequence, users: seq<Address>, i: nat, price: nat, qi: Sequence)
    requires price > 0 && SnapsOk(q.system) && AtTurn(q, users, i, price, qi)
    ensures RestoredAt(q, users, i, price) <==> !LeftBelow(q, qi, price)
    ensures TracksWhatIsLeft(q, qi) && Tracks(qi, price) ==> (qi.backToNormalMode <==> RestoredAt(q, users, i, price))
  {
    hide Batch, WorthLess;
  }

  lemma TurnTracks(q: Sequence, before: Sequence, after: Sequence, a: Address, price: nat, v: Values)
    requires SnapsOk(before.system) && TurnOutcome(before, after, a, price, v)
    ensures before.backToNormalMode ==> after.backToNormalMode
    ensures !before.backToNormalMode && TracksWhatIsLeft(q, before) ==> TracksWhatIsLeft(q, after)
  {
    hide WorthLess, Split, KeptBeyondCap, BelowTotal;
  }

  /** From a start below 150% the batch is in normal mode at a turn exactly when at some point up to it
      the system, less what had gone to the Stability Pool by then, was back at 150% or more. */
  lemma {:induction false} ReturnIsExact(q: Sequence, users: seq<Address>, i: nat, price: nat, qi: Sequence)
    requires price > 0 && SnapsOk(q.system) && Tracks(q, price) && !q.backToNormalMode && AtTurn(q, users, i, price, qi)
    ensures qi.backToNormalMode <==> exists j: nat :: j <= i && RestoredAt(q, users, j, price)
    ensures !qi.backToNormalMode ==> TracksWhatIsLeft(q, qi)
    decreases i
  {
    TracksThroughout(q, users, i, price, qi);
    RestoredHere(q, users, i, price, qi);
    if i == 0 {
      assert users[..0] == [];
      hide RestoredAt, Tracks;
    } else {
      BatchAppend(q, users[..i - 1], users[i - 1], price);
      assert users[..i] == users[..i - 1] + [users[i - 1]];
      var before := Batch(q, users[..i - 1], price, true).seq_;
      assert AtTurn(q, users, i - 1, price, before);
      hide TurnOutcome, RecoveryStep, WorthLess, Batch, RestoredAt, AtTurn, Tracks, TracksWhatIsLeft, LeftBelow;
      ReturnIsExact(q, users, i - 1, price, before);
      TracksThroughout(q, users, i - 1, price, before);
      var v := Turn(before, users[i - 1], price);
      TurnTracks(q, before, qi, users[i - 1], price, v);
    }
  }

  // ------------------------------------------------------------- compensation

  /** `n` vaults were closed between two points of a batch: for each the liquidator gets half a percent of
      its collateral less the owner's surplus, rounded down, and 200 BPD. */
  predicate Compensated(t: Values, t': Values, n: int) {
    var base := (t'.entireColl - t'.collSurplus) - (t.entireColl - t.collSurplus);
    && 200 * (t'.collGas - t.collGas) <= base <= 200 * (t'.collGas - t.collGas) + 199 * n
    && t'.debtGas - t.debtGas == 200_000_000_000_000_000_000 * n
  }

  lemma TurnCompensates(q: Sequence, q': Sequence, a: Address, v: Values, offset: nat)
    requires SnapsOk(q.system) && Closes(q, q', a, v) && Split(v, DebtOf(q, a), CollOf(q, a), offset, v.collSurplus)
    ensures |q'.system.vaults| == |q.system.vaults| - 1 && Compensated(q.totals, q'.totals, 1)
  {
    assert q.system.vaults.Keys == q'.system.vaults.Keys + {a};
    assert |q.system.vaults.Keys| == |q.system.vaults| && |q'.system.vaults.Keys| == |q'.system.vaults|;
  }

  lemma StepCompensates(q: Sequence, a: Address, price: nat, recovery: bool)
    requires price > 0 && SnapsOk(q.system) && (recovery ==> Tracks(q, price)) && Step(q, a, price, recovery).Going?
    ensures var q' := Step(q, a, price, recovery).seq_;
            Compensated(q.totals, q'.totals, |q.system.vaults| - |q'.system.vaults|) && (recovery ==> Tracks(q', price))
  {
    var q' := Step(q, a, price, recovery).seq_;
    var v;
    if recovery { v := Turn(q, a, price); } else { v := NormalTurn(q, a, price); }
    hide Split, NormalStep, RecoveryStep, BelowTotal, WorthLess, KeptBeyondCap;
    if a in q.system.vaults && Closes(q, q', a, v) && q' != q {
      TurnCompensates(q, q', a, v, v.debtToOffset) by { SplitOffset(q, q', a, price, v, recovery); }
    }
  }

  lemma SplitOffset(q: Sequence, q': Sequence, a: Address, price: nat, v: Values, recovery: bool)
    requires SnapsOk(q.system) && Closes(q, q', a, v) && q' != q
    requires if recovery then TurnOutcome(q, q', a, price, v) else ClosesLow(q, q', a, price, v)
    ensures Split(v, DebtOf(q, a), CollOf(q, a), v.debtToOffset, v.collSurplus)
  {
    hide WorthLess, KeptBeyondCap, BelowTotal;
    assert a !in q'.system.vaults;
  }

  lemma {:induction false} BatchCompensates(q: Sequence, users: seq<Address>, price: nat, recovery: bool)
    requires price > 0 && SnapsOk(q.system) && (recovery ==> Tracks(q, price)) && Batch(q, users, price, recovery).Going?
    ensures var q' := Batch(q, users, price, recovery).seq_; Compensated(q.totals, q'.totals, |q.system.vaults| - |q'.system.vaults|)
    decreases |users|
  {
    hide Tracks, Step;
    if users != [] {
      StepCompensates(q, users[0], price, recovery);
      BatchCompensates(Step(q, users[0], price, recovery).seq_, users[1..], price, recovery);
    }
  }

  // ------------------------------------------------------------ redistribution

  lemma {:induction false} BatchKeepsTrackers(q: Sequence, users: seq<Address>, price: nat, recovery: bool)
    requires price > 0 && SnapsOk(q.system) && Batch(q, users, price, recovery).Going?
    ensures SameTrackers(q.system, Batch(q, users, price, recovery).seq_.system)
    decreases |users|
  {
    if users != [] {
      StepKeepsTrackers(q, users[0], price, recovery);
      hide Step;
      BatchKeepsTrackers(Step(q, users[0], price, recovery).seq_, users[1..], price, recovery);
    }
  }

  lemma StepKeepsTrackers(q: Sequence, a: Address, price: nat, recovery: bool)
    requires price > 0 && SnapsOk(q.system) && Step(q, a, price, recovery).Going?
    ensures SameTrackers(q.system, Step(q, a, price, recovery).seq_.system)
  {
    hide NormalValues, RecoveryValues, ICR, CR;
  }

  /** What is redistributed is spread over the stakes that are left, the remainders carried from `s` to `t`;
      and the snapshots are those of `t`. */
  predicate Redistributes(s: System, t: System, v: Values) {
    && t.stakesSnapshot == t.totalStakes && t.collSnapshot == t.activeColl + t.defaultColl
    && if v.debtToRedistribute == 0 then t.accColl == s.accColl && t.accDebt == s.accDebt && t.errColl == s.errColl && t.errDebt == s.errDebt
       else Spread(v.collToRedistribute, s.errColl, t.totalStakes, t.accColl - s.accColl, t.errColl)
            && Spread(v.debtToRedistribute, s.errDebt, t.totalStakes, t.accDebt - s.accDebt, t.errDebt)
  }

  lemma PayOutRedistributes(s: System, v: Values)
    requires PayOut(s, v).Ok?
    ensures Redistributes(s, PayOut(s, v).system, v)
  {
    var offset := s.(activeDebt := s.activeDebt - v.debtToOffset, activeColl := s.activeColl - v.collToSP);
    RedistributeExactly(offset, v.debtToRedistribute, v.collToRedistribute);
    hide Redistribute, Spread;
  }

  /** So does every batch that goes through. */
  lemma BatchRedistributes(s: System, users: seq<Address>, price: nat, pool: PoolModel.Pool, q: Sequence)
    requires price > 0 && SnapsOk(s) && BatchLiquidate(s, users, price, pool).Ok?
    requires Batch(Start(s, pool.bpd), users, price, InRecovery(s, price)) == Going(q)
    ensures Redistributes(s, BatchLiquidate(s, users, price, pool).system, q.totals)
  {
    BatchKeepsTrackers(Start(s, pool.bpd), users, price, InRecovery(s, price));
    PayOutRedistributes(q.system, q.totals);
    hide Batch, PayOut, PoolModel.Offset, InRecovery;
  }

  // ------------------------------------------------------------- in normal mode

  /** The listed vaults that are worth less than 110% of their debt. */
  ghost function Low(s: System, users: seq<Address>, price: nat): set<Address>
    requires SnapsOk(s)
  {
    set a | a in users && a in s.vaults && WorthLess(EntireColl(s, s.vaults[a]), EntireDebt(s, s.vaults[a]), price, 110)
  }

  lemma LowIsUnderwater(s: System, users: seq<Address>, price: nat)
    requires SnapsOk(s)
    ensures Low(s, users, price) == Underwater(s, users, price)
  {
    forall a | a in s.vaults ensures ICR(s, a, price) < MCR <==> WorthLess(EntireColl(s, s.vaults[a]), EntireDebt(s, s.vaults[a]), price, 110) {
      var coll, debt := EntireColl(s, s.vaults[a]), EntireDebt(s, s.vaults[a]);
      if debt > 0 { Thresholds(coll, debt, price); } else { NoDebtIsHealthy(coll, price); }
    }
  }

  /** From 150% up, a batch closes exactly the listed vaults worth less than 110% of their debt, whatever
      their order; offsets their whole debt as far as the Stability Pool reaches and redistributes the
      rest; the liquidator gets half a percent of each one's collateral, and the Stability Pool all the
      rest of it if it takes all the debt. */
  lemma NormalModeOutcome(s: System, users: seq<Address>, price: nat, pool: PoolModel.Pool) returns (v: Values)
    requires price > 0 && Valid(s) && !BelowCritical(s, price) && BatchLiquidate(s, users, price, pool).Ok?
    ensures var t, closed := BatchLiquidate(s, users, price, pool).system, Low(s, users, price);
            && closed != {} && t.vaults.Keys == s.vaults.Keys - closed
            && (forall b :: b in t.vaults ==> t.vaults[b] == s.vaults[b])
            && v.entireDebt == TotalDebtIn(s, closed) && v.entireColl == TotalCollIn(s, closed) && v.collSurplus == 0
            && v.debtToOffset == (if v.entireDebt < pool.bpd then v.entireDebt else pool.bpd)
            && v.debtToRedistribute == v.entireDebt - v.debtToOffset
            && v.collToRedistribute == v.entireColl - v.collGas - v.collToSP && OffsetTaken(pool, v)
            && (v.entireDebt <= pool.bpd ==> v.collToSP == v.entireColl - v.collGas) && (pool.bpd == 0 ==> v.collToSP == 0)
            && 200 * v.collGas <= v.entireColl <= 200 * v.collGas + 199 * |closed| && v.debtGas == 200_000_000_000_000_000_000 * |closed|
            && t.activeColl + t.defaultColl == s.activeColl + s.defaultColl - v.collToSP - v.collGas
            && t.activeDebt + t.defaultDebt == s.activeDebt + s.defaultDebt - v.debtToOffset && Redistributes(s, t, v)
  {
    ModeIsExact(s, price);
    LowIsUnderwater(s, users, price);
    var start := Start(s, pool.bpd);
    var q := Settlement(s, users, price, pool);
    v := q.totals;
    BatchRedistributes(s, users, price, pool, q);
    hide Redistributes, BatchLiquidate, Batch, Low, Underwater, TotalDebtIn, TotalCollIn, Valid, OffsetTaken, InRecovery;
    NormalBatchExact(start, users, price);
    BatchOnlyCloses(start, users, price, false);
    BatchCompensates(start, users, price, false);
    NoSurplus(start, users, price);
    SizeOfRest(s.vaults.Keys, q.system.vaults.Keys, Low(s, users, price), s, q.system) by { hide *; LowAreVaults(s, users, price); }
    NothingLow(s);
  }

  lemma LowAreVaults(s: System, users: seq<Address>, price: nat)
    requires SnapsOk(s)
    ensures Low(s, users, price) <= s.vaults.Keys
  {
  }

  /** What a batch that goes through comes to: its last point, and what is paid out of it. */
  lemma Settlement(s: System, users: seq<Address>, price: nat, pool: PoolModel.Pool) returns (q: Sequence)
    requires price > 0 && Valid(s) && BatchLiquidate(s, users, price, pool).Ok?
    ensures Batch(Start(s, pool.bpd), users, price, InRecovery(s, price)) == Going(q)
    ensures var t, v := BatchLiquidate(s, users, price, pool).system, q.totals;
            && t.vaults == q.system.vaults && v.entireDebt > 0 && Conserves(v, pool.bpd) && OffsetTaken(pool, v)
            && v.debtToOffset + q.remaining == pool.bpd
            && t.activeColl + t.defaultColl == s.activeColl + s.defaultColl - v.collToSP - v.collSurplus - v.collGas
            && t.activeDebt + t.defaultDebt == s.activeDebt + s.defaultDebt - v.debtToOffset
  {
    BatchLiquidateKeeps(s, users, price, pool);
    var start, recovery := Start(s, pool.bpd), InRecovery(s, price);
    q := Batch(start, users, price, recovery).seq_;
    BatchInv(start, s, pool.bpd, users, price, recovery);
    hide Batch, Valid, OffsetTaken, DebtSafe, PoolModel.Offset, Redistribute, InRecovery;
  }

  lemma NothingLow(s: System)
    requires SnapsOk(s)
    ensures TotalDebtIn(s, {}) == 0
  {
  }

  lemma SizeOfRest(all: set<Address>, rest: set<Address>, gone: set<Address>, s: System, t: System)
    requires all == s.vaults.Keys && rest == t.vaults.Keys && rest == all - gone && gone <= all
    ensures |s.vaults| - |t.vaults| == |gone|
  {
    assert all == rest + gone;
    assert |all| == |s.vaults| && |rest| == |t.vaults|;
  }

  lemma {:induction false} NoSurplus(q: Sequence, users: seq<Address>, price: nat)
    requires price > 0 && SnapsOk(q.system) && Batch(q, users, price, false).Going?
    ensures Batch(q, users, price, false).seq_.totals.collSurplus == q.totals.collSurplus
    decreases |users|
  {
    if users != [] {
      var q' := Step(q, users[0], price, false).seq_;
      var v := NormalTurn(q, users[0], price);
      hide Split, WorthLess, NormalStep;
      assert q'.totals.collSurplus == q.totals.collSurplus by { hide *; NoSurplusAdded(q, q', users[0], price, v); }
      NoSurplus(q', users[1..], price);
    }
  }

  lemma NoSurplusAdded(q: Sequence, q': Sequence, a: Address, price: nat, v: Values)
    requires SnapsOk(q.system) && (q' == q || ClosesLow(q, q', a, price, v))
    ensures q'.totals.collSurplus == q.totals.collSurplus
  {
  }

  // ----------------------------------------------------------- in recovery mode

  /** `b` stands at position `i` of the batch and is closed there, as its turn then has it. */
  ghost predicate ClosedAt(q: Sequence, users: seq<Address>, i: nat, b: Address, price: nat)
    requires price > 0 && SnapsOk(q.system)
  {
    && i < |users| && users[i] == b
    && exists qi, qn, v :: AtTurn(q, users, i, price, qi) && AtTurn(q, users, i + 1, price, qn) && SnapsOk(qi.system)
                           && TurnOutcome(qi, qn, b, price, v) && Closes(qi, qn, b, v)
  }

  ghost predicate ClosedByTable(q: Sequence, users: seq<Address>, b: Address, price: nat)
    requires price > 0 && SnapsOk(q.system)
  {
    exists i :: ClosedAt(q, users, i, b, price)
  }

  /** Amounts do not change while a vault waits for its turn. */
  lemma AmountsStay(q: Sequence, users: seq<Address>, i: nat, price: nat, qi: Sequence, b: Address)
    requires price > 0 && SnapsOk(q.system) && AtTurn(q, users, i, price, qi)
    ensures SnapsOk(qi.system) && qi.system.vaults.Keys <= q.system.vaults.Keys
    ensures b in qi.system.vaults ==> CollOf(qi, b) == CollOf(q, b) && DebtOf(qi, b) == DebtOf(q, b)
  {
    BatchOnlyCloses(q, users[..i], price, true);
    hide Batch, Reward;
  }

  lemma {:induction false} ClosedBefore(q: Sequence, users: seq<Address>, i: nat, price: nat, qi: Sequence, b: Address)
    requires price > 0 && SnapsOk(q.system) && Tracks(q, price) && Batch(q, users, price, true).Going?
    requires AtTurn(q, users, i, price, qi) && b in q.system.vaults && b !in qi.system.vaults
    ensures ClosedByTable(q, users, b, price)
    decreases i
  {
    assert users[..0] == [];
    if i > 0 {
      var before, after, v := EachTurn(q, users, i - 1, price);
      assert after == qi;
      if b in before.system.vaults {
        OnlyItsOwn(before, after, users[i - 1], price, v, b);
        hide TurnOutcome, Closes, Batch;
        assert ClosedAt(q, users, i - 1, b, price);
      } else {
        ClosedBefore(q, users, i - 1, price, before, b);
      }
    }
  }

  /** A turn closes nobody else. */
  lemma OnlyItsOwn(q: Sequence, q': Sequence, a: Address, price: nat, v: Values, b: Address)
    requires SnapsOk(q.system) && TurnOutcome(q, q', a, price, v) && b in q.system.vaults && b !in q'.system.vaults
    ensures a == b && Closes(q, q', a, v)
  {
    hide WorthLess, Split, KeptBeyondCap, BelowTotal;
  }

  lemma ClosedByRule(q: Sequence, users: seq<Address>, b: Address, price: nat)
    requires price > 0 && SnapsOk(q.system) && Tracks(q, price) && Batch(q, users, price, true).Going?
    requires b in q.system.vaults && b !in Batch(q, users, price, true).seq_.system.vaults
    ensures ClosedByTable(q, users, b, price)
  {
    assert users[..|users|] == users;
    ClosedBefore(q, users, |users|, price, Batch(q, users, price, true).seq_, b);
  }

  /** A listed vault worth less than 110% that is still there at the end is the last one. */
  lemma LowStaysOnlyLast(q: Sequence, users: seq<Address>, i: nat, price: nat)
    requires price > 0 && SnapsOk(q.system) && Tracks(q, price) && Batch(q, users, price, true).Going? && i < |users|
    requires users[i] in Batch(q, users, price, true).seq_.system.vaults
    ensures users[i] in q.system.vaults
    ensures WorthLess(CollOf(q, users[i]), DebtOf(q, users[i]), price, 110) ==> |Batch(q, users, price, true).seq_.system.vaults| <= 1
  {
    var end, b := Batch(q, users, price, true).seq_, users[i];
    var qi, qn, v := EachTurn(q, users, i, price);
    AmountsStay(q, users, i, price, qi, b);
    LaterIsFewer(q, users, i, price, qi);
    LaterIsFewer(q, users, i + 1, price, qn);
    hide Batch, Split, KeptBeyondCap, BelowTotal, CollOf, DebtOf;
    FewerVaults(qi.system, end.system);
  }

  lemma LaterIsFewer(q: Sequence, users: seq<Address>, i: nat, price: nat, qi: Sequence)
    requires price > 0 && SnapsOk(q.system) && Batch(q, users, price, true).Going? && AtTurn(q, users, i, price, qi)
    ensures Batch(q, users, price, true).seq_.system.vaults.Keys <= qi.system.vaults.Keys
  {
    BatchSplits(q, users, i, price);
    BatchOnlyCloses(qi, users[i..], price, true);
  }

  lemma {:induction false} BatchSplits(q: Sequence, users: seq<Address>, i: nat, price: nat)
    requires price > 0 && SnapsOk(q.system) && i <= |users| && Batch(q, users[..i], price, true).Going?
    ensures SnapsOk(Batch(q, users[..i], price, true).seq_.system)
    ensures Batch(q, users, price, true) == Batch(Batch(q, users[..i], price, true).seq_, users[i..], price, true)
    decreases i
  {
    if i == 0 {
      assert users[..0] == [] && users[0..] == users;
    } else {
      assert users[..i][0] == users[0] && users[..i][1..] == users[1..][..i - 1] && users[1..][i - 1..] == users[i..];
      BatchSplits(Step(q, users[0], price, true).seq_, users[1..], i - 1, price);
    }
  }

  lemma FewerVaults(s: System, t: System)
    requires t.vaults.Keys <= s.vaults.Keys
    ensures |t.vaults| <= |s.vaults|
  {
    assert s.vaults.Keys == t.vaults.Keys + (s.vaults.Keys - t.vaults.Keys);
    assert |s.vaults.Keys| == |s.vaults| && |t.vaults.Keys| == |t.vaults|;
  }

  /** Only listed vaults are closed, each at its turn and as the table has it; nobody else's record
      changes; and none worth less than 110% is left unless it is the last. */
  ghost predicate RecoveryOutcome(start: Sequence, t: System, users: seq<Address>, price: nat)
    requires price > 0 && SnapsOk(start.system)
  {
    && (forall b :: b in start.system.vaults && b !in t.vaults ==> ClosedByTable(start, users, b, price))
    && (forall b :: b in t.vaults ==> b in start.system.vaults && t.vaults[b] == start.system.vaults[b])
    && (forall b :: b in Low(start.system, users, price) && b in t.vaults ==> |t.vaults| <= 1)
  }

  /** Below 150%, a batch closes only listed vaults, each at its turn and as the table has it; and none worth
      less than 110% is left unless it is the last. */
  lemma RecoveryModeOutcome(s: System, users: seq<Address>, price: nat, pool: PoolModel.Pool)
    requires price > 0 && Valid(s) && BelowCritical(s, price) && BatchLiquidate(s, users, price, pool).Ok?
    ensures RecoveryOutcome(Start(s, pool.bpd), BatchLiquidate(s, users, price, pool).system, users, price)
  {
    StartsInRecovery(s, price, pool.bpd);
    var q := Settlement(s, users, price, pool);
    hide BatchLiquidate, Batch, RecoveryOutcome, Valid, OffsetTaken, Conserves, InRecovery, Tracks, Start, BelowCritical, SnapsOk;
    RecoveryCloses(s, Start(s, pool.bpd), users, price);
    RecordsStay(Start(s, pool.bpd), q.system, BatchLiquidate(s, users, price, pool).system, users, price);
  }

  /** What is paid out then: the Stability Pool gets exactly its part, the liquidator half a percent of what
      is not left to the owners. */
  lemma RecoveryModePayments(s: System, users: seq<Address>, price: nat, pool: PoolModel.Pool) returns (v: Values)
    requires price > 0 && Valid(s) && BelowCritical(s, price) && BatchLiquidate(s, users, price, pool).Ok?
    ensures var t := BatchLiquidate(s, users, price, pool).system;
            && Conserves(v, pool.bpd) && OffsetTaken(pool, v) && Compensated(Zero, v, |s.vaults| - |t.vaults|)
            && t.activeColl + t.defaultColl == s.activeColl + s.defaultColl - v.collToSP - v.collSurplus - v.collGas
            && t.activeDebt + t.defaultDebt == s.activeDebt + s.defaultDebt - v.debtToOffset && Redistributes(s, t, v)
  {
    StartsInRecovery(s, price, pool.bpd);
    var q := Settlement(s, users, price, pool);
    v := q.totals;
    BatchRedistributes(s, users, price, pool, q);
    hide Redistributes, BatchLiquidate, Batch, Valid, OffsetTaken, Compensated, Conserves, InRecovery, Tracks, Start, BelowCritical, SnapsOk;
    BatchCompensates(Start(s, pool.bpd), users, price, true);
  }

  lemma RecordsStay(start: Sequence, t: System, u: System, users: seq<Address>, price: nat)
    requires price > 0 && SnapsOk(start.system) && RecoveryOutcome(start, t, users, price) && u.vaults == t.vaults
    ensures RecoveryOutcome(start, u, users, price)
  {
  }

  lemma StartsInRecovery(s: System, price: nat, bpd: nat)
    requires BelowCritical(s, price)
    ensures InRecovery(s, price) && Tracks(Start(s, bpd), price) && Start(s, bpd).system == s && Start(s, bpd).totals == Zero
  {
    ModeIsExact(s, price);
  }

  lemma RecoveryCloses(s: System, start: Sequence, users: seq<Address>, price: nat)
    requires price > 0 && SnapsOk(s) && start.system == s && Tracks(start, price) && Batch(start, users, price, true).Going?
    ensures RecoveryOutcome(start, Batch(start, users, price, true).seq_.system, users, price)
  {
    var t := Batch(start, users, price, true).seq_.system;
    BatchOnlyCloses(start, users, price, true);
    hide Batch, ClosedByTable, Tracks, Low;
    forall b | b in s.vaults && b !in t.vaults ensures ClosedByTable(start, users, b, price) {
      ClosedByRule(start, users, b, price);
    }
    forall b | b in Low(s, users, price) && b in t.vaults ensures |t.vaults| <= 1 {
      LowIsLast(s, start, users, price, b);
    }
  }

  lemma LowIsLast(s: System, start: Sequence, users: seq<Address>, price: nat, b: Address)
    requires price > 0 && SnapsOk(s) && start.system == s && Tracks(start, price) && Batch(start, users, price, true).Going?
    requires b in Low(s, users, price) && b in Batch(start, users, price, true).seq_.system.vaults
    ensures |Batch(start, users, price, true).seq_.system.vaults| <= 1
  {
    var i :| 0 <= i < |users| && users[i] == b;
    LowStaysOnlyLast(start, users, i, price);
    hide Batch;
  }

  /** Whoever is closed while in recovery mode is worth less than 150% of its debt. */
  lemma NobodyHealthyIsClosed(q: Sequence, q': Sequence, a: Address, price: nat, v: Values)
    requires SnapsOk(q.system) && Tracks(q, price) && TurnOutcome(q, q', a, price, v) && Closes(q, q', a, v)
    ensures WorthLess(CollOf(q, a), DebtOf(q, a), price, 150)
  {
    if !q.backToNormalMode && !WorthLess(CollOf(q, a), DebtOf(q, a), price, 110) {
      assert a !in q'.system.vaults;
      var r: nat :| r * q.systemDebt <= q.systemColl * price && CollOf(q, a) * price < r * DebtOf(q, a);
      RatioTransfers(r, q.systemColl * price, q.systemDebt, CollOf(q, a) * price, DebtOf(q, a));
    } else {
      assert WorthLess(CollOf(q, a), DebtOf(q, a), price, 110);
    }
  }

  lemma RatioTransfers(r: nat, whole: nat, debt: nat, value: nat, debt': nat)
    requires r * debt <= whole && 100 * whole < 150 * 1_000_000_000_000_000_000 * debt && value < r * debt'
    ensures 100 * value < 150 * 1_000_000_000_000_000_000 * debt'
  {
    var c := 1_500_000_000_000_000_000;
    if r >= c {
      MulMono(c, r, debt);
    } else {
      MulMono(r, c, debt');
    }
  }
}
