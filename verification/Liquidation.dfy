/** Liquidation by the case table of `VaultManager.sol`, one vault and a whole batch. */
module Liquidation {
  import opened Arithmetic
  import opened Sums
  import opened Units
  import opened VaultList
  import opened VaultAccounts
  import PoolModel

  /** What one liquidation, or a batch of them, takes where. */
  datatype Values = Values(
    entireDebt: nat, entireColl: nat, collGas: nat, debtGas: nat,
    debtToOffset: nat, collToSP: nat, debtToRedistribute: nat, collToRedistribute: nat, collSurplus: nat)

  const Zero: Values := Values(0, 0, 0, 0, 0, 0, 0, 0, 0)

  /** `_computeCR` */
  function CR(coll: nat, debt: nat, price: nat): nat {
    if debt > 0 then coll * price / debt else MAX_UINT
  }

  function ICR(s: System, a: Address, price: nat): nat
    requires SnapsOk(s)
  {
    if a in s.vaults then CR(EntireColl(s, s.vaults[a]), EntireDebt(s, s.vaults[a]), price) else MAX_UINT
  }

  /** The share of `coll` that goes with `part` of `whole`, rounded down. */
  function Part(coll: nat, part: nat, whole: nat): (r: nat)
    requires part <= whole && whole > 0
    ensures r <= coll
  {
    FractionAtMost(coll, part, whole);
    coll * part / whole
  }

  /** `_getOffsetAndRedistributionVals` and the gas compensation: normal mode, and recovery mode below 110%. */
  function NormalValues(debt: nat, coll: nat, pool: nat): (v: Values)
    requires debt > 0
  {
    var gas := coll / PERCENT_DIVISOR;
    var toLiquidate: nat := coll - gas;
    if pool > 0 then
      var debtToOffset := Min(debt, pool);
      var collToSP := Part(toLiquidate, debtToOffset, debt);
      Values(debt, coll, gas, BPD_GAS_COMPENSATION, debtToOffset, collToSP, debt - debtToOffset, toLiquidate - collToSP, 0)
    else Values(debt, coll, gas, BPD_GAS_COMPENSATION, 0, 0, debt, toLiquidate, 0)
  }

  lemma FractionAtMost(coll: nat, part: nat, whole: nat)
    requires part <= whole && whole > 0
    ensures coll * part / whole <= coll
    ensures part == whole ==> coll * part / whole == coll
    ensures coll * part - whole < coll * part / whole * whole <= coll * part
  {
    DivBounds(coll * part, whole);
    MulMono(part, whole, coll);
    MulMono(coll + 1, coll * part / whole, whole);
    MulMono(coll * part / whole + 1, coll, whole);
  }

  /** Pure redistribution: recovery mode at or below 100%. */
  function RedistributedValues(debt: nat, coll: nat): Values {
    Values(debt, coll, coll / PERCENT_DIVISOR, BPD_GAS_COMPENSATION, 0, 0, debt, coll - coll / PERCENT_DIVISOR, 0)
  }

  /** `_getCappedOffsetVals`: only 110% of the debt is taken, the rest is the borrower's surplus. */
  function CappedValues(debt: nat, coll: nat, price: nat): Values
    requires price > 0 && debt * MCR / price <= coll
  {
    var collToOffset := debt * MCR / price;
    var gas := collToOffset / PERCENT_DIVISOR;
    Values(debt, coll, gas, BPD_GAS_COMPENSATION, debt, collToOffset - gas, 0, 0, coll - collToOffset)
  }

  lemma CapIsWithin(debt: nat, coll: nat, price: nat)
    requires price > 0 && debt > 0 && CR(coll, debt, price) >= MCR
    ensures debt * MCR / price <= coll
  {
    var r := coll * price / debt;
    DivBounds(coll * price, debt);
    MulMono(MCR, r, debt);
    DivBounds(debt * MCR, price);
    MulMono(coll + 1, debt * MCR / price, price);
  }

  /** The recovery-mode case table; `None` where nothing is done. */
  datatype Option = None | Some(values: Values)

  function RecoveryValues(debt: nat, coll: nat, icr: nat, pool: nat, tcr: nat, price: nat): Option
    requires price > 0 && icr == CR(coll, debt, price)
  {
    if icr <= FULL_RATIO then Some(RedistributedValues(debt, coll))
    else if icr < MCR then Some(NormalValues(debt, coll, pool))
    else if icr < tcr && debt <= pool && debt > 0 then
      CapIsWithin(debt, coll, price);
      Some(CappedValues(debt, coll, price))
    else None
  }

  /** Everything the vault held is accounted for, the debt offset fits the pool, and no
      collateral is redistributed without debt. */
  predicate Conserves(v: Values, pool: nat) {
    && v.entireDebt == v.debtToOffset + v.debtToRedistribute
    && v.entireColl == v.collGas + v.collToSP + v.collToRedistribute + v.collSurplus
    && v.debtToOffset <= pool
    && (v.debtToRedistribute == 0 ==> v.collToRedistribute == 0)
    && (v.debtToOffset == 0 ==> v.collToSP == 0)
  }

  lemma NormalConserves(debt: nat, coll: nat, pool: nat)
    requires debt > 0
    ensures Conserves(NormalValues(debt, coll, pool), pool)
    ensures NormalValues(debt, coll, pool).debtToOffset == Min(debt, pool)
  {
    FractionAtMost(coll - coll / PERCENT_DIVISOR, Min(debt, pool), debt);
  }

  lemma RecoveryConserves(debt: nat, coll: nat, icr: nat, pool: nat, tcr: nat, price: nat)
    requires price > 0 && icr == CR(coll, debt, price)
    ensures var o := RecoveryValues(debt, coll, icr, pool, tcr, price);
            o.Some? ==> Conserves(o.values, pool) && o.values.entireDebt == debt > 0 && o.values.entireColl == coll
  {
    if FULL_RATIO < icr < MCR { NormalConserves(debt, coll, pool); }
  }

  /** A mixed offset splits the collateral left after compensation in the ratio of the debt: both
      halves keep the vault's ratio, up to one unit of collateral. */
  lemma MixedOffsetKeepsRatio(debt: nat, coll: nat, pool: nat)
    requires debt > 0 && 0 < pool < debt
    ensures var v := NormalValues(debt, coll, pool); var total := coll - coll / PERCENT_DIVISOR;
            && v.debtToOffset == pool && v.debtToRedistribute == debt - pool
            && v.collToSP * debt <= total * v.debtToOffset < v.collToSP * debt + debt
            && v.collToRedistribute * debt - debt < total * v.debtToRedistribute <= v.collToRedistribute * debt
  {
    var total := coll - coll / PERCENT_DIVISOR;
    FractionAtMost(total, pool, debt);
    var sp := total * pool / debt;
    assert (total - sp) * debt == total * debt - sp * debt;
    assert total * (debt - pool) == total * debt - total * pool;
  }

  /** In recovery mode at or above 110% the depositors' part is worth 110% of the debt less the compensation, rounded down. */
  lemma CappedWorth(debt: nat, coll: nat, price: nat)
    requires price > 0 && debt > 0 && CR(coll, debt, price) >= MCR
    ensures debt * MCR / price <= coll
    ensures var v := CappedValues(debt, coll, price);
            (v.collToSP + v.collGas) * price <= debt * MCR < (v.collToSP + v.collGas + 1) * price
  {
    CapIsWithin(debt, coll, price);
    DivBounds(debt * MCR, price);
  }

  // ------------------------------------------------------------------ batch

  /** `_addLiquidationValuesToTotals` */
  function Plus(t: Values, v: Values): Values {
    Values(t.entireDebt + v.entireDebt, t.entireColl + v.entireColl, t.collGas + v.collGas, t.debtGas + v.debtGas,
           t.debtToOffset + v.debtToOffset, t.collToSP + v.collToSP, t.debtToRedistribute + v.debtToRedistribute,
           t.collToRedistribute + v.collToRedistribute, t.collSurplus + v.collSurplus)
  }

  /** State of a liquidation sequence. */
  datatype Sequence = Sequence(
    system: System,
    remaining: nat,          // BPD left in the Stability Pool
    systemColl: nat,         // entire system collateral and debt, as the sequence tracks them
    systemDebt: nat,
    backToNormalMode: bool,
    totals: Values)

  datatype SequenceResult = Going(seq_: Sequence) | Reverted

  /** One vault of a batch in normal mode; a vault that is not active has the maximal ratio. */
  function NormalStep(q: Sequence, a: Address, price: nat): SequenceResult
    requires SnapsOk(q.system)
  {
    if ICR(q.system, a, price) >= MCR then Going(q)
    else
      var v := q.system.vaults[a];
      var values := NormalValues(EntireDebt(q.system, v), EntireColl(q.system, v), q.remaining);
      var retired := Retire(q.system, a);
      if retired.Revert? then Reverted
      else
        NormalConserves(EntireDebt(q.system, v), EntireColl(q.system, v), q.remaining);
        Going(q.(system := retired.system, remaining := q.remaining - values.debtToOffset, totals := Plus(q.totals, values)))
  }

  /** One vault of a batch that started in recovery mode. */
  function RecoveryStep(q: Sequence, a: Address, price: nat): SequenceResult
    requires SnapsOk(q.system) && price > 0
  {
    if a !in q.system.vaults then Going(q)
    else if q.backToNormalMode then NormalStep(q, a, price)
    else
      var icr := ICR(q.system, a, price);
      if icr >= MCR && q.remaining == 0 then Going(q)
      else
        var v := q.system.vaults[a];
        var tcr := CR(q.systemColl, q.systemDebt, price);
        var option := if |q.system.vaults| <= 1 then None
                      else RecoveryValues(EntireDebt(q.system, v), EntireColl(q.system, v), icr, q.remaining, tcr, price);
        if option.None? then Going(q.(backToNormalMode := tcr >= CCR))
        else
          var values := option.values;
          var retired := Retire(q.system, a);
          if retired.Revert? || values.debtToOffset > q.systemDebt || values.collToSP > q.systemColl then Reverted
          else
            RecoveryConserves(EntireDebt(q.system, v), EntireColl(q.system, v), icr, q.remaining, tcr, price);
            var systemColl, systemDebt := q.systemColl - values.collToSP, q.systemDebt - values.debtToOffset;
            Going(Sequence(retired.system, q.remaining - values.debtToOffset, systemColl, systemDebt,
                           CR(systemColl, systemDebt, price) >= CCR, Plus(q.totals, values)))
  }

  function Step(q: Sequence, a: Address, price: nat, recovery: bool): (r: SequenceResult)
    requires SnapsOk(q.system) && price > 0
    ensures r.Going? ==> SnapsOk(r.seq_.system)
  {
    StepKeepsSnaps(q, a, price);
    if recovery then RecoveryStep(q, a, price) else NormalStep(q, a, price)
  }

  lemma StepKeepsSnaps(q: Sequence, a: Address, price: nat)
    requires SnapsOk(q.system) && price > 0
    ensures NormalStep(q, a, price).Going? ==> SnapsOk(NormalStep(q, a, price).seq_.system)
    ensures RecoveryStep(q, a, price).Going? ==> SnapsOk(RecoveryStep(q, a, price).seq_.system)
  {
    RetireKeepsSnaps(q.system, a);
  }

  lemma RetireKeepsSnaps(s: System, a: Address)
    requires SnapsOk(s)
    ensures Retire(s, a).Ok? ==> SnapsOk(Retire(s, a).system)
  {
    forall b | b in s.vaults ensures SnapOk(s, s.vaults[b]) {
    }
  }

  function Batch(q: Sequence, users: seq<Address>, price: nat, recovery: bool): (r: SequenceResult)
    requires SnapsOk(q.system) && price > 0
    ensures r.Going? ==> SnapsOk(r.seq_.system)
    decreases |users|
  {
    if users == [] then Going(q)
    else
      var r := Step(q, users[0], price, recovery);
      if r.Reverted? then Reverted else Batch(r.seq_, users[1..], price, recovery)
  }

  /** Vaults only disappear from `s` to `t`. */
  ghost predicate OnlyCloses(s: System, t: System) {
    && t.accColl == s.accColl && t.accDebt == s.accDebt
    && forall a :: a in t.vaults ==> a in s.vaults && t.vaults[a] == s.vaults[a]
  }

  lemma {:induction false} BatchOnlyCloses(q: Sequence, users: seq<Address>, price: nat, recovery: bool)
    requires SnapsOk(q.system) && price > 0 && Batch(q, users, price, recovery).Going?
    ensures OnlyCloses(q.system, Batch(q, users, price, recovery).seq_.system)
    decreases |users|
  {
    if users != [] {
      StepOnlyCloses(q, users[0], price, recovery);
      BatchOnlyCloses(Step(q, users[0], price, recovery).seq_, users[1..], price, recovery);
    }
  }

  lemma StepOnlyCloses(q: Sequence, a: Address, price: nat, recovery: bool)
    requires SnapsOk(q.system) && price > 0 && Step(q, a, price, recovery).Going?
    ensures OnlyCloses(q.system, Step(q, a, price, recovery).seq_.system)
  {
    hide NormalValues, RecoveryValues, ICR, CR;
  }

  /** The end of `batchLiquidateVaults`: offset, redistribution, surplus, snapshots, compensation. The
      Stability Pool may refuse the offset. */
  function Finish(s: System, t: Values, pool: PoolModel.Pool): Result {
    if t.entireDebt == 0 || PoolModel.Offset(pool, t.debtToOffset, t.collToSP).Revert? then Revert else PayOut(s, t)
  }

  function PayOut(s: System, t: Values): Result {
    if t.debtToOffset > s.activeDebt || t.collToSP > s.activeColl then Revert
    else
      var offset := s.(activeDebt := s.activeDebt - t.debtToOffset, activeColl := s.activeColl - t.collToSP);
      var r := Redistribute(offset, t.debtToRedistribute, t.collToRedistribute);
      if r.Revert? || t.collSurplus + t.collGas > r.system.activeColl then Revert
      else
        var u := r.system;
        var activeColl := u.activeColl - t.collSurplus - t.collGas;
        Ok(u.(stakesSnapshot := u.totalStakes, collSnapshot := activeColl + u.defaultColl, activeColl := activeColl))
  }

  function Start(s: System, pool: nat): Sequence {
    Sequence(s, pool, s.activeColl + s.defaultColl, s.activeDebt + s.defaultDebt, false, Zero)
  }

  predicate InRecovery(s: System, price: nat) {
    CR(s.activeColl + s.defaultColl, s.activeDebt + s.defaultDebt, price) < CCR
  }

  function BatchLiquidate(s: System, users: seq<Address>, price: nat, pool: PoolModel.Pool): Result
    requires SnapsOk(s) && price > 0
  {
    var r := Batch(Start(s, pool.bpd), users, price, InRecovery(s, price));
    if users == [] || r.Reverted? then Revert else Finish(r.seq_.system, r.seq_.totals, pool)
  }

  // ----------------------------------------------- what every batch keeps

  ghost predicate SequenceInv(q: Sequence, s: System, pool: nat) {
    && SnapsOk(q.system) && CollCovered(q.system)
    && Balanced(q.system, q.totals.entireColl, q.totals.entireDebt)
    && Conserves(q.totals, pool) && q.totals.debtToOffset + q.remaining == pool
    && q.system.activeColl + q.system.defaultColl == s.activeColl + s.defaultColl
    && q.system.activeDebt + q.system.defaultDebt == s.activeDebt + s.defaultDebt
    && (DebtSafe(s) ==> DebtSafe(q.system))
  }

  lemma RetiredInv(q: Sequence, q': Sequence, s: System, pool: nat, a: Address, values: Values)
    requires SequenceInv(q, s, pool) && a in q.system.vaults && Retire(q.system, a).Ok?
    requires q'.system == Retire(q.system, a).system
    requires Conserves(values, q.remaining) && values.entireDebt == EntireDebt(q.system, q.system.vaults[a])
    requires values.entireColl == EntireColl(q.system, q.system.vaults[a])
    requires q'.totals == Plus(q.totals, values) && q'.remaining == q.remaining - values.debtToOffset
    ensures SequenceInv(q', s, pool)
  {
    RetireKeeps(q.system, a, q.totals.entireColl, q.totals.entireDebt);
  }

  lemma NormalStepInv(q: Sequence, s: System, pool: nat, a: Address, price: nat)
    requires SequenceInv(q, s, pool) && NormalStep(q, a, price).Going?
    ensures SequenceInv(NormalStep(q, a, price).seq_, s, pool)
  {
    if ICR(q.system, a, price) < MCR {
      var v := q.system.vaults[a];
      NormalConserves(EntireDebt(q.system, v), EntireColl(q.system, v), q.remaining);
      RetiredInv(q, NormalStep(q, a, price).seq_, s, pool, a, NormalValues(EntireDebt(q.system, v), EntireColl(q.system, v), q.remaining));
    }
  }

  lemma RecoveryStepInv(q: Sequence, s: System, pool: nat, a: Address, price: nat)
    requires price > 0 && SequenceInv(q, s, pool) && RecoveryStep(q, a, price).Going?
    ensures SequenceInv(RecoveryStep(q, a, price).seq_, s, pool)
  {
    if a in q.system.vaults {
      if q.backToNormalMode {
        NormalStepInv(q, s, pool, a, price);
      } else {
        var v, icr := q.system.vaults[a], ICR(q.system, a, price);
        var tcr := CR(q.systemColl, q.systemDebt, price);
        if !(icr >= MCR && q.remaining == 0) && |q.system.vaults| > 1 {
          RecoveryConserves(EntireDebt(q.system, v), EntireColl(q.system, v), icr, q.remaining, tcr, price);
          var option := RecoveryValues(EntireDebt(q.system, v), EntireColl(q.system, v), icr, q.remaining, tcr, price);
          if option.Some? {
            RetiredInv(q, RecoveryStep(q, a, price).seq_, s, pool, a, option.values);
          }
        }
      }
    }
  }

  lemma {:induction false} BatchInv(q: Sequence, s: System, pool: nat, users: seq<Address>, price: nat, recovery: bool)
    requires price > 0 && SequenceInv(q, s, pool) && Batch(q, users, price, recovery).Going?
    ensures SequenceInv(Batch(q, users, price, recovery).seq_, s, pool)
    decreases |users|
  {
    if users != [] {
      if recovery { RecoveryStepInv(q, s, pool, users[0], price); } else { NormalStepInv(q, s, pool, users[0], price); }
      BatchInv(Step(q, users[0], price, recovery).seq_, s, pool, users[1..], price, recovery);
    }
  }

  /** Reducing what the ActivePool holds for closed vaults. */
  lemma SameVaults(s: System, t: System)
    requires t.vaults == s.vaults && t.accColl == s.accColl && t.accDebt == s.accDebt
    ensures forall c :: Total(t, c) == Total(s, c)
    ensures SnapsOk(s) ==> SnapsOk(t)
    ensures Coherent(s) ==> Coherent(t)
  {
    forall c ensures Total(t, c) == Total(s, c) {
      SumIntSame(s.vaults.Keys, (a: Address) => Entry(t, c, a), (a: Address) => Entry(s, c, a));
    }
  }

  /** After a batch everything is balanced and covered again, the collateral of the two pools has
      fallen by exactly what went to the Stability Pool, the surplus pool and the liquidator, the
      debt by exactly what was offset, and the snapshots are those of the new system. */
  lemma FinishKeeps(s: System, t: Values, pool: PoolModel.Pool)
    requires SnapsOk(s) && CollCovered(s) && Balanced(s, t.entireColl, t.entireDebt) && Conserves(t, pool.bpd) && Finish(s, t, pool).Ok?
    ensures var u := Finish(s, t, pool).system;
            && Valid(u)
            && u.activeColl + u.defaultColl == s.activeColl + s.defaultColl - t.collToSP - t.collSurplus - t.collGas
            && u.activeDebt + u.defaultDebt == s.activeDebt + s.defaultDebt - t.debtToOffset
            && u.stakesSnapshot == u.totalStakes && u.collSnapshot == u.activeColl + u.defaultColl
            && u.vaults == s.vaults
            && (DebtSafe(s) && (t.debtToRedistribute == 0 || EnoughFor(t.collToRedistribute, s.errColl, s.totalStakes)) ==> DebtSafe(u))
  {
    var offset := s.(activeDebt := s.activeDebt - t.debtToOffset, activeColl := s.activeColl - t.collToSP);
    SameVaults(s, offset);
    var r := Redistribute(offset, t.debtToRedistribute, t.collToRedistribute).system;
    if t.debtToRedistribute > 0 {
      RedistributionKeepsGaps(offset, t.debtToRedistribute, t.collToRedistribute, t.entireColl - t.collToSP, t.entireDebt - t.debtToOffset);
      if Coherent(s) {
        RedistributionKeepsCoherence(offset, t.debtToRedistribute, t.collToRedistribute);
      }
    }
    SameVaults(r, Finish(s, t, pool).system);
  }

  /** The Stability Pool takes exactly the debt and the collateral meant for it. */
  ghost predicate OffsetTaken(pool: PoolModel.Pool, t: Values) {
    var r := PoolModel.Offset(pool, t.debtToOffset, t.collToSP);
    r.Ok? && r.pool.bpd == pool.bpd - t.debtToOffset && r.pool.rbtc == pool.rbtc + t.collToSP
  }

  lemma OffsetIsTaken(pool: PoolModel.Pool, t: Values)
    requires Conserves(t, pool.bpd) && PoolModel.Offset(pool, t.debtToOffset, t.collToSP).Ok?
    ensures OffsetTaken(pool, t)
  {
  }

  /** A batch that takes all the pool has is never refused. */
  lemma WholePoolAccepts(pool: PoolModel.Pool, coll: nat)
    ensures PoolModel.Offset(pool, pool.bpd, coll).Ok?
  {
  }

  /** The whole transaction. */
  lemma BatchLiquidateKeeps(s: System, users: seq<Address>, price: nat, pool: PoolModel.Pool)
    requires price > 0 && Valid(s) && BatchLiquidate(s, users, price, pool).Ok?
    ensures var u := BatchLiquidate(s, users, price, pool).system;
            var q := Batch(Start(s, pool.bpd), users, price, InRecovery(s, price)).seq_;
            && Valid(u) && Conserves(q.totals, pool.bpd) && OffsetTaken(pool, q.totals)
            && u.activeColl + u.defaultColl == s.activeColl + s.defaultColl - q.totals.collToSP - q.totals.collSurplus - q.totals.collGas
            && u.activeDebt + u.defaultDebt == s.activeDebt + s.defaultDebt - q.totals.debtToOffset
            && u.collSnapshot == u.activeColl + u.defaultColl && u.stakesSnapshot == u.totalStakes
            && (DebtSafe(s) && (q.totals.debtToRedistribute == 0 || EnoughFor(q.totals.collToRedistribute, q.system.errColl, q.system.totalStakes))
                ==> DebtSafe(u))
  {
    var q := Batch(Start(s, pool.bpd), users, price, InRecovery(s, price)).seq_;
    BatchInv(Start(s, pool.bpd), s, pool.bpd, users, price, InRecovery(s, price));
    OffsetIsTaken(pool, q.totals);
    FinishKeeps(q.system, q.totals, pool);
  }

  // ------------------------------------------ normal mode in closed form

  /** The listed vaults that are active and below the minimum ratio. */
  ghost function Underwater(s: System, users: seq<Address>, price: nat): set<Address>
    requires SnapsOk(s)
  {
    set a | a in users && ICR(s, a, price) < MCR
  }

  ghost function DebtIn(s: System, a: Address): int requires SnapsOk(s) { if a in s.vaults then EntireDebt(s, s.vaults[a]) else 0 }
  ghost function CollIn(s: System, a: Address): int requires SnapsOk(s) { if a in s.vaults then EntireColl(s, s.vaults[a]) else 0 }

  ghost function TotalDebtIn(s: System, users: set<Address>): int requires SnapsOk(s) { SumInt(users, (a: Address) => DebtIn(s, a)) }
  ghost function TotalCollIn(s: System, users: set<Address>): int requires SnapsOk(s) { SumInt(users, (a: Address) => CollIn(s, a)) }

  /** Closing one vault changes nobody else's ratio. */
  lemma RetireLeavesOthers(s: System, a: Address, users: seq<Address>, price: nat)
    requires SnapsOk(s) && Retire(s, a).Ok?
    ensures SnapsOk(Retire(s, a).system)
    ensures Underwater(Retire(s, a).system, users, price) == Underwater(s, users, price) - {a}
    ensures TotalDebtIn(Retire(s, a).system, Underwater(s, users, price) - {a}) == TotalDebtIn(s, Underwater(s, users, price) - {a})
    ensures TotalCollIn(Retire(s, a).system, Underwater(s, users, price) - {a}) == TotalCollIn(s, Underwater(s, users, price) - {a})
  {
    RetireKeepsSnaps(s, a);
    var t := Retire(s, a).system;
    forall b | b != a ensures ICR(t, b, price) == ICR(s, b, price) && DebtIn(t, b) == DebtIn(s, b) && CollIn(t, b) == CollIn(s, b) {
    }
    var rest := Underwater(s, users, price) - {a};
    SumIntSame(rest, (b: Address) => DebtIn(t, b), (b: Address) => DebtIn(s, b));
    SumIntSame(rest, (b: Address) => CollIn(t, b), (b: Address) => CollIn(s, b));
  }

  /** A normal-mode batch closes exactly the listed vaults below the minimum ratio, each once,
      offsets as much of their debt as the Stability Pool holds and redistributes the rest,
      whatever their order. */
  ghost predicate NormalOutcome(q: Sequence, q': Sequence, users: seq<Address>, price: nat)
    requires SnapsOk(q.system)
  {
    var closed := Underwater(q.system, users, price);
    && q'.system.vaults.Keys == q.system.vaults.Keys - closed
    && q'.totals.entireDebt == q.totals.entireDebt + TotalDebtIn(q.system, closed)
    && q'.totals.entireColl == q.totals.entireColl + TotalCollIn(q.system, closed)
    && q'.remaining == (if TotalDebtIn(q.system, closed) < q.remaining then q.remaining - TotalDebtIn(q.system, closed) else 0)
  }

  lemma DebtInNonneg(s: System, users: set<Address>)
    requires SnapsOk(s)
    ensures TotalDebtIn(s, users) >= 0
  {
    var f, zero := (a: Address) => DebtIn(s, a), (a: Address) => 0;
    forall a | a in users ensures 0 <= f(a) {
      if a in s.vaults { assert SnapOk(s, s.vaults[a]); }
    }
    SumIntZero<Address>(users);
    SumIntLeq(users, zero, f);
  }

  lemma {:induction false} NormalBatchExact(q: Sequence, users: seq<Address>, price: nat)
    requires price > 0 && SnapsOk(q.system) && Batch(q, users, price, false).Going?
    ensures NormalOutcome(q, Batch(q, users, price, false).seq_, users, price)
    decreases |users|
  {
    var closed := Underwater(q.system, users, price);
    if users == [] {
      assert closed == {};
    } else {
      var a, rest := users[0], users[1..];
      var q1 := Step(q, a, price, false).seq_;
      NormalBatchExact(q1, rest, price);
      if ICR(q.system, a, price) >= MCR {
        assert closed == Underwater(q.system, rest, price);
      } else {
        var left := Underwater(q.system, rest, price) - {a};
        RetireLeavesOthers(q.system, a, rest, price);
        assert closed - {a} == left && a in closed;
        SumIntRemove(closed, (b: Address) => DebtIn(q.system, b), a);
        SumIntRemove(closed, (b: Address) => CollIn(q.system, b), a);
        DebtInNonneg(q.system, left);
        assert q1.system.vaults.Keys == q.system.vaults.Keys - {a};
      }
    }
  }
}
