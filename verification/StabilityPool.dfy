/** `StabilityPool.sol` in its own integer arithmetic: deposits tracked in O(1) by the
    product `P` and the sums `S`, with scale changes, epochs and carried remainders, and the
    stakes of front ends, the null front end of untagged deposits among them. MP rewards are left out. */
module PoolModel {
  import opened Arithmetic
  import opened Sums
  import opened Units
  import opened VaultList

  const SCALE_FACTOR: nat := 1_000_000_000

  datatype Snapshot = Snapshot(S: nat, P: nat, scale: nat, epoch: nat)

  /** A front end's stake as last recorded; its snapshot has no use for `S`. */
  datatype Stake = Stake(value: nat, snap: Snapshot)

  /** `tags` has every depositor, untagged ones with the null address; an absent stake reads as 0. */
  datatype FrontEnds = FrontEnds(registered: set<Address>, tags: map<Address, Address>, stakes: map<Address, Stake>)

  /** The contract's storage. */
  datatype Pool = Pool(
    rbtc: nat,
    bpd: nat,                          // totalBPDDeposits
    deposits: map<Address, nat>,       // initialValue; an absent depositor reads as 0
    snapshots: map<Address, Snapshot>,
    P: nat,
    scale: nat,
    epoch: nat,
    sums: map<(nat, nat), nat>,        // (epoch, scale) -> S
    errColl: nat,                      // lastRBTCError_Offset
    errLoss: nat,                      // lastBPDLossError_Offset
    frontEnds: FrontEnds)

  const Genesis: Pool := Pool(0, 0, map[], map[], PRECISION, 0, 0, map[], 0, 0, FrontEnds({}, map[], map[]))

  /** A transaction either takes effect or reverts. */
  datatype Result = Ok(pool: Pool) | Revert

  function SumAt(p: Pool, epoch: nat, scale: nat): nat {
    if (epoch, scale) in p.sums then p.sums[(epoch, scale)] else 0
  }

  // ------------------------------------------------------ reading a deposit

  /** `10^9k` as a real. */
  function ScalePow(k: nat): (r: real)
    ensures r > 0.0
  {
    if k == 0 then 1.0 else Times(SCALE_FACTOR as real, ScalePow(k - 1))
  }

  /** A snapshot the pool could have handed out earlier. */
  ghost predicate SnapOk(p: Pool, snap: Snapshot) {
    && snap.P > 0
    && snap.epoch <= p.epoch
    && (snap.epoch == p.epoch ==> snap.scale <= p.scale && p.P as real <= Times(snap.P as real, ScalePow(p.scale - snap.scale)))
    && SumAt(p, snap.epoch, snap.scale) >= snap.S
  }

  ghost predicate FrontEndsOk(p: Pool) {
    && p.frontEnds.tags.Keys == p.deposits.Keys
    && forall f :: f in p.frontEnds.stakes ==> SnapOk(p, p.frontEnds.stakes[f].snap)
  }

  ghost predicate Valid(p: Pool) {
    && FrontEndsOk(p)
    && p.P > 0
    && p.deposits.Keys == p.snapshots.Keys
    && (forall a :: a in p.deposits ==> p.deposits[a] > 0 && SnapOk(p, p.snapshots[a]))
    && (forall key :: key in p.sums ==> key.0 < p.epoch || (key.0 == p.epoch && key.1 <= p.scale))
  }

  /** `_getCompoundedStakeFromSnapshots` */
  function CompoundedFrom(p: Pool, initial: nat, snap: Snapshot): nat
    requires SnapOk(p, snap)
  {
    if snap.epoch < p.epoch then 0 else
      var scaleDiff := p.scale - snap.scale;
      var stake :=
        if scaleDiff == 0 then initial * p.P / snap.P
        else if scaleDiff == 1 then initial * p.P / snap.P / SCALE_FACTOR
        else 0;
      if stake < initial / SCALE_FACTOR then 0 else stake
  }

  function GainOf(initial: nat, firstPortion: nat, secondPortion: nat, P0: nat): nat
    requires P0 > 0
  {
    initial * (firstPortion + secondPortion) / P0 / PRECISION
  }

  /** `_getRBTCGainFromSnapshots` */
  function GainFrom(p: Pool, initial: nat, snap: Snapshot): nat
    requires SnapOk(p, snap)
  {
    var firstPortion := SumAt(p, snap.epoch, snap.scale) - snap.S;
    var secondPortion := SumAt(p, snap.epoch, snap.scale + 1) / SCALE_FACTOR;
    GainOf(initial, firstPortion, secondPortion, snap.P)
  }

  function Compounded(p: Pool, a: Address): nat
    requires Valid(p)
  {
    if a in p.deposits then CompoundedFrom(p, p.deposits[a], p.snapshots[a]) else 0
  }

  function Gain(p: Pool, a: Address): nat
    requires Valid(p)
  {
    if a in p.deposits then GainFrom(p, p.deposits[a], p.snapshots[a]) else 0
  }

  function TagOf(p: Pool, a: Address): Address {
    if a in p.frontEnds.tags then p.frontEnds.tags[a] else NULL
  }

  /** `getCompoundedFrontEndStake` */
  function StakeOf(p: Pool, f: Address): nat
    requires Valid(p)
  {
    if f in p.frontEnds.stakes then CompoundedFrom(p, p.frontEnds.stakes[f].value, p.frontEnds.stakes[f].snap) else 0
  }

  // ------------------------------------------------- depositor transactions

  function Fresh(p: Pool): Snapshot {
    Snapshot(SumAt(p, p.epoch, p.scale), p.P, p.scale, p.epoch)
  }

  /** `_updateDepositAndSnapshots`, the tag apart */
  function UpdateDeposit(p: Pool, a: Address, value: nat): Pool {
    if value == 0 then p.(deposits := p.deposits - {a}, snapshots := p.snapshots - {a})
    else p.(deposits := p.deposits[a := value],
            snapshots := p.snapshots[a := Fresh(p)])
  }

  /** `_updateFrontEndStakeAndSnapshots`, and the depositor's tag: set while there is a deposit. */
  function UpdateFrontEnd(p: Pool, a: Address, value: nat, f: Address, stake: nat): FrontEnds {
    FrontEnds(p.frontEnds.registered,
              if value == 0 then p.frontEnds.tags - {a} else p.frontEnds.tags[a := f],
              if stake == 0 then p.frontEnds.stakes - {f} else p.frontEnds.stakes[f := Stake(stake, Snapshot(0, p.P, p.scale, p.epoch))])
  }

  /** A depositor's transaction as a whole: new balances, the front end's new stake, the new deposit. */
  function Settle(p: Pool, a: Address, bpd: nat, rbtc: nat, value: nat, f: Address, stake: nat): (q: Pool)
    requires Valid(p)
    ensures Valid(q)
  {
    SettledValid(p, Settled(p, a, bpd, rbtc, value, f, stake), a, bpd, rbtc, value, f, stake);
    Settled(p, a, bpd, rbtc, value, f, stake)
  }

  function Settled(p: Pool, a: Address, bpd: nat, rbtc: nat, value: nat, f: Address, stake: nat): Pool {
    UpdateDeposit(p.(bpd := bpd, rbtc := rbtc, frontEnds := UpdateFrontEnd(p, a, value, f, stake)), a, value)
  }

  /** How every depositor's transaction ends: the front end's stake, the pool's BPD and its RBTC are
      reduced by subtractions that revert below zero. */
  function Conclude(p: Pool, a: Address, bpd: int, rbtc: int, value: nat, f: Address, stake: int): (r: Result)
    requires Valid(p)
    ensures r.Ok? ==> Valid(r.pool)
  {
    if stake < 0 || bpd < 0 || rbtc < 0 then Revert else Ok(Settle(p, a, bpd, rbtc, value, f, stake))
  }

  /** `tag` counts only for a new deposit. */
  function Provide(p: Pool, a: Address, amount: nat, tag: Address): (r: Result)
    requires Valid(p)
    ensures r.Ok? ==> Valid(r.pool)
  {
    var f := if a in p.deposits then TagOf(p, a) else tag;
    if (tag != NULL && tag !in p.frontEnds.registered) || a in p.frontEnds.registered || amount == 0 then Revert
    else Conclude(p, a, p.bpd + amount, p.rbtc - Gain(p, a), Compounded(p, a) + amount, f, StakeOf(p, f) + amount)
  }

  /** A withdrawal also needs, unless `amount` is 0, that no vault is below the minimum ratio. */
  function Withdraw(p: Pool, a: Address, amount: nat): (r: Result)
    requires Valid(p)
    ensures r.Ok? ==> Valid(r.pool)
  {
    var f, paid := TagOf(p, a), Min(amount, Compounded(p, a));
    if a !in p.deposits then Revert
    else Conclude(p, a, p.bpd - paid, p.rbtc - Gain(p, a), Compounded(p, a) - paid, f, StakeOf(p, f) - paid)
  }

  /** `withdrawRBTCGainToVault`, for a depositor who has a vault that takes the gain */
  function ClaimGain(p: Pool, a: Address): (r: Result)
    requires Valid(p)
    ensures r.Ok? ==> Valid(r.pool)
  {
    var f := TagOf(p, a);
    if a !in p.deposits || Gain(p, a) == 0 then Revert
    else Conclude(p, a, p.bpd, p.rbtc - Gain(p, a), Compounded(p, a), f, StakeOf(p, f))
  }

  /** `registerFrontEnd`; kickback rates only concern MP. */
  function Register(p: Pool, a: Address): Result {
    if a in p.frontEnds.registered || a in p.deposits then Revert
    else Ok(p.(frontEnds := p.frontEnds.(registered := p.frontEnds.registered + {a})))
  }

  // ---------------------------------------------------------------- offset

  /** BPD lost per unit deposited, rounded up, and the remainder carried to the next offset. */
  function LossPerUnit(bpd: nat, errLoss: nat, debt: nat): (nat, nat)
    requires 0 < debt <= bpd && (debt < bpd ==> errLoss <= debt * PRECISION)
  {
    if debt == bpd then (PRECISION, 0)
    else
      var numerator: nat := debt * PRECISION - errLoss;
      var loss := numerator / bpd + 1;
      (loss, CarriedLoss(bpd, numerator, loss))
  }

  function CarriedLoss(bpd: nat, numerator: nat, loss: nat): nat
    requires bpd > 0 && loss == numerator / bpd + 1
  {
    DivBounds(numerator, bpd);
    loss * bpd - numerator
  }

  /** The new product, and whether the scale moves, when every deposit is to be cut by `factor / PRECISION`. */
  function NextP(P: nat, factor: nat): nat {
    if P * factor / PRECISION < SCALE_FACTOR then P * factor * SCALE_FACTOR / PRECISION else P * factor / PRECISION
  }

  function ScaleStep(P: nat, factor: nat): nat {
    if P * factor / PRECISION < SCALE_FACTOR then 1 else 0
  }

  lemma LossAtMostOne(bpd: nat, errLoss: nat, debt: nat)
    requires 0 < debt <= bpd && (debt < bpd ==> errLoss <= debt * PRECISION)
    ensures 0 < LossPerUnit(bpd, errLoss, debt).0 <= PRECISION
    ensures LossPerUnit(bpd, errLoss, debt).1 <= bpd
    ensures debt < bpd ==> LossPerUnit(bpd, errLoss, debt).0 * bpd + errLoss == debt * PRECISION + LossPerUnit(bpd, errLoss, debt).1
  {
    if debt < bpd {
      var numerator := debt * PRECISION - errLoss;
      DivBounds(numerator, bpd);
      QuotientBelow(numerator, bpd, PRECISION);
    }
  }

  /** `_updateRewardSumAndProduct`; `newP == 0` fails its final assertion. */
  function UpdateSumAndProduct(p: Pool, gainPerUnit: nat, loss: nat): Result
    requires loss <= PRECISION
  {
    var factor := PRECISION - loss;
    var newS := SumAt(p, p.epoch, p.scale) + gainPerUnit * p.P;
    var q := p.(sums := p.sums[(p.epoch, p.scale) := newS]);
    if factor == 0 then Ok(q.(epoch := p.epoch + 1, scale := 0, P := PRECISION))
    else if NextP(p.P, factor) == 0 then Revert
    else Ok(q.(P := NextP(p.P, factor), scale := p.scale + ScaleStep(p.P, factor)))
  }

  /** What `_computeRewardsPerUnitStaked` accepts. */
  predicate CanOffset(p: Pool, debt: nat) {
    0 < debt <= p.bpd && (debt < p.bpd ==> p.errLoss <= debt * PRECISION)
  }

  function LossOf(p: Pool, debt: nat): (loss: nat)
    requires CanOffset(p, debt)
    ensures loss <= PRECISION
  {
    LossAtMostOne(p.bpd, p.errLoss, debt);
    LossPerUnit(p.bpd, p.errLoss, debt).0
  }

  /** The RBTC per unit that an offset credits. */
  function GainPerUnit(p: Pool, coll: nat): nat
    requires p.bpd > 0
  {
    (coll * PRECISION + p.errColl) / p.bpd
  }

  /** The remainder of that division, carried to the next offset. */
  function CarriedColl(p: Pool, coll: nat): (r: nat)
    requires p.bpd > 0
    ensures GainPerUnit(p, coll) * p.bpd + r == coll * PRECISION + p.errColl && r < p.bpd
  {
    DivBounds(coll * PRECISION + p.errColl, p.bpd);
    coll * PRECISION + p.errColl - GainPerUnit(p, coll) * p.bpd
  }

  function Offset(p: Pool, debt: nat, coll: nat): Result {
    if p.bpd == 0 || debt == 0 then Ok(p)
    else if !CanOffset(p, debt) then Revert
    else
      var updated := UpdateSumAndProduct(p, GainPerUnit(p, coll), LossOf(p, debt));
      if updated.Revert? then Revert
      else Ok(updated.pool.(errColl := CarriedColl(p, coll), errLoss := LossPerUnit(p.bpd, p.errLoss, debt).1,
                            bpd := p.bpd - debt, rbtc := p.rbtc + coll))
  }

  // -------------------------------------------------- what a deposit is worth

  /** The exact value behind a recorded deposit: `d * P / P_0`, scale changes undone. */
  function Worth(initial: real, P: real, P0: real, pow: real): real
    requires P0 > 0.0 && pow > 0.0
  {
    initial * P / (P0 * pow)
  }

  /** The exact RBTC behind a gain: `d * (S - S_0) / P_0`. */
  function Earned(initial: real, s: real, P0: real): real
    requires P0 > 0.0
  {
    initial * s / (P0 * PRECISION as real)
  }

  ghost function HeldFrom(p: Pool, initial: nat, snap: Snapshot): real
    requires SnapOk(p, snap)
  {
    if snap.epoch < p.epoch then 0.0
    else Worth(initial as real, p.P as real, snap.P as real, ScalePow(p.scale - snap.scale))
  }

  /** How far `S` has moved since the snapshot, the next scale's part divided by 1e9. */
  ghost function Span(p: Pool, snap: Snapshot): real {
    (SumAt(p, snap.epoch, snap.scale) - snap.S) as real + SumAt(p, snap.epoch, snap.scale + 1) as real / SCALE_FACTOR as real
  }

  ghost function OwedFrom(p: Pool, initial: nat, snap: Snapshot): real
    requires SnapOk(p, snap)
  {
    Earned(initial as real, Span(p, snap), snap.P as real)
  }

  ghost function Held(p: Pool, a: Address): real
    requires Valid(p)
  {
    if a in p.deposits then HeldFrom(p, p.deposits[a], p.snapshots[a]) else 0.0
  }

  ghost function Owed(p: Pool, a: Address): real
    requires Valid(p)
  {
    if a in p.deposits then OwedFrom(p, p.deposits[a], p.snapshots[a]) else 0.0
  }

  lemma FlooredWorth(d: nat, P: nat, P0: nat)
    requires P0 > 0
    ensures Worth(d as real, P as real, P0 as real, 1.0).Floor == d * P / P0
  {
    FloorOfQuotient(d * P, P0);
    ProductAsReal(d, P);
  }

  lemma FlooredWorthNext(d: nat, P: nat, P0: nat, pow: real)
    requires P0 > 0 && pow == SCALE_FACTOR as real
    ensures Worth(d as real, P as real, P0 as real, pow).Floor == d * P / P0 / SCALE_FACTOR
  {
    NestedDivision(d * P, P0, SCALE_FACTOR);
    FloorOfQuotient(d * P, SCALE_FACTOR * P0);
    ProductAsReal(d, P);
    ProductAsReal(SCALE_FACTOR, P0);
  }

  /** Within one scale change the contract reads a deposit as its exact value rounded down,
      unless less than a billionth of it is left; past that, or once emptied, as nothing. */
  lemma CompoundedIsFloorOfHeld(p: Pool, a: Address)
    requires Valid(p) && a in p.deposits
    ensures var held := Held(p, a); var snap := p.snapshots[a];
            Compounded(p, a) ==
              if snap.epoch == p.epoch && p.scale - snap.scale <= 1 && held.Floor >= p.deposits[a] / SCALE_FACTOR
              then held.Floor else 0
  {
    assert SnapOk(p, p.snapshots[a]);
    ReadingIsFloor(p, p.deposits[a], p.snapshots[a]);
  }

  /** The same of any recorded value, a front end's stake included. */
  lemma ReadingIsFloor(p: Pool, d: nat, snap: Snapshot)
    requires SnapOk(p, snap)
    ensures var held := HeldFrom(p, d, snap);
            CompoundedFrom(p, d, snap) ==
              if snap.epoch == p.epoch && p.scale - snap.scale <= 1 && held.Floor >= d / SCALE_FACTOR then held.Floor else 0
  {
    if snap.epoch == p.epoch && p.scale - snap.scale <= 1 {
      assert ScalePow(0) == 1.0 && ScalePow(1) == SCALE_FACTOR as real * ScalePow(0);
      hide Worth, ScalePow;
      FlooredWorth(d, p.P, snap.P);
      FlooredWorthNext(d, p.P, snap.P, ScalePow(1));
    }
  }

  lemma WorthBounds(d: real, P: real, P0: real, pow: real)
    requires d >= 0.0 && P >= 0.0 && P0 > 0.0 && pow > 0.0 && P <= P0 * pow
    ensures 0.0 <= Worth(d, P, P0, pow) <= d
  {
    var n, m := d * P, P0 * pow;
    assert 0.0 <= n <= d * m;
    QuotientMonotone(0.0, n, m);
    QuotientMonotone(n, d * m, m);
    assert d * m / m == d;
  }

  lemma HeldBounds(p: Pool, a: Address)
    requires Valid(p)
    ensures 0.0 <= Held(p, a)
    ensures a in p.deposits ==> Held(p, a) <= p.deposits[a] as real
    ensures Compounded(p, a) as real <= Held(p, a)
    ensures a in p.deposits ==> Compounded(p, a) <= p.deposits[a]
  {
    if a in p.deposits {
      var snap := p.snapshots[a];
      assert SnapOk(p, snap);
      CompoundedIsFloorOfHeld(p, a);
      if snap.epoch == p.epoch {
        WorthBounds(p.deposits[a] as real, p.P as real, snap.P as real, ScalePow(p.scale - snap.scale));
      }
    }
  }

  lemma FlooredGain(d: nat, first: nat, next: nat, P0: nat)
    requires P0 > 0
    ensures (d * (first + next / SCALE_FACTOR) / P0 / PRECISION) as real
            <= Earned(d as real, first as real + next as real / SCALE_FACTOR as real, P0 as real)
  {
    var whole := first + next / SCALE_FACTOR;
    var s := first as real + next as real / SCALE_FACTOR as real;
    FloorAtMost(next, SCALE_FACTOR, next as real, SCALE_FACTOR as real);
    NestedDivision(d * whole, P0, PRECISION);
    ProductAsReal(d, whole);
    ProductAsReal(PRECISION, P0);
    ProductMonotone(d as real, whole as real, s);
    FloorAtMost(d * whole, PRECISION * P0, d as real * s, P0 as real * PRECISION as real);
  }

  /** The gain paid never exceeds the exact gain. */
  lemma GainAtMostOwed(p: Pool, a: Address)
    requires Valid(p)
    ensures 0.0 <= Gain(p, a) as real <= Owed(p, a)
  {
    if a in p.deposits {
      var snap := p.snapshots[a];
      assert SnapOk(p, snap);
      FlooredGain(p.deposits[a], SumAt(p, snap.epoch, snap.scale) - snap.S, SumAt(p, snap.epoch, snap.scale + 1), snap.P);
    }
  }

  // ------------------------------------------------ what one offset does

  /** The fraction every live deposit keeps, the same for all of them. */
  function Cut(P: nat, factor: nat): real
    requires P > 0
  {
    NextP(P, factor) as real / (P as real * ScalePow(ScaleStep(P, factor)))
  }

  lemma ScaleOf(P: nat, factor: nat)
    ensures ScalePow(ScaleStep(P, factor)) == if P * factor / PRECISION < SCALE_FACTOR then SCALE_FACTOR as real else 1.0
  {
    assert ScalePow(1) == SCALE_FACTOR as real * ScalePow(0);
  }

  lemma CutBounds(P: nat, factor: nat)
    requires P > 0 && factor <= PRECISION
    ensures 0.0 <= Cut(P, factor) <= factor as real / PRECISION as real <= 1.0
    ensures NextP(P, factor) as real <= P as real * ScalePow(ScaleStep(P, factor))
  {
    ScaleOf(P, factor);
    var k := if P * factor / PRECISION < SCALE_FACTOR then SCALE_FACTOR else 1;
    var n := P * factor * k;
    DivBounds(n, PRECISION);
    assert NextP(P, factor) == n / PRECISION;
    var m := P * k;
    assert n == m * factor && m > 0;
    assert m as real == P as real * ScalePow(ScaleStep(P, factor));
    CutArithmetic(NextP(P, factor), m, factor);
  }

  lemma CutArithmetic(next: nat, m: nat, factor: nat)
    requires m > 0 && factor <= PRECISION && next * PRECISION <= m * factor
    ensures 0.0 <= next as real / m as real <= factor as real / PRECISION as real <= 1.0
    ensures next <= m
  {
    MulMono(factor, PRECISION, m);
    MulMono(m + 1, next, PRECISION);
    var x, y := next as real, factor as real / PRECISION as real;
    assert y * PRECISION as real == factor as real;
    assert (next * PRECISION) as real == x * PRECISION as real;
    assert (m * factor) as real == m as real * factor as real;
    assert x <= m as real * y;
    QuotientMonotone(x, m as real * y, m as real);
    assert m as real * y / m as real == y;
  }

  lemma WorthScales(d: real, P: real, P0: real, pow: real, P': real, step: real)
    requires P > 0.0 && P0 > 0.0 && pow > 0.0 && step > 0.0
    ensures Times(step, pow) > 0.0 && Worth(d, P', P0, Times(step, pow)) == Times(P' / (P * step), Worth(d, P, P0, pow))
  {
    var n, m := d * P', P0 * (step * pow);
    var c, w := P' / (P * step), d * P / (P0 * pow);
    assert c * (P * step) == P' && w * (P0 * pow) == d * P;
    assert (c * w) * m == n by {
      assert (c * w) * m == (c * step) * (w * (P0 * pow));
      assert (c * step) * (d * P) == d * (c * (P * step));
    }
    SameQuotient(n, m, c * w);
  }

  /** What `S` grows by, seen from a snapshot `pow` scale units ago. */
  function Increment(perUnit: real, P: real, pow: real): real
    requires pow > 0.0
  {
    perUnit * P / pow
  }

  lemma EarnedGrows(d: real, s: real, P0: real, extra: real, P: real, pow: real, perUnit: real)
    requires P0 > 0.0 && pow > 0.0 && extra == Increment(perUnit, P, pow)
    ensures Earned(d, s + extra, P0) == Earned(d, s, P0) + Times(perUnit / PRECISION as real, Worth(d, P, P0, pow))
  {
    var m := P0 * PRECISION as real;
    var e, w, u := d * s / m, d * P / (P0 * pow), perUnit / PRECISION as real;
    assert e * m == d * s && w * (P0 * pow) == d * P && u * PRECISION as real == perUnit && extra * pow == perUnit * P;
    assert (u * w) * m == d * extra by {
      assert (u * w) * m * pow == (u * PRECISION as real) * (w * (P0 * pow));
      assert perUnit * (d * P) == d * (extra * pow);
      Cancel((u * w) * m, d * extra, pow);
    }
    SameQuotient(d * (s + extra), m, e + u * w);
  }

  predicate Partial(p: Pool, debt: nat) {
    CanOffset(p, debt) && LossOf(p, debt) < PRECISION
  }

  function FactorOf(p: Pool, debt: nat): nat
    requires CanOffset(p, debt)
  {
    PRECISION - LossOf(p, debt)
  }

  lemma ScaledBound(next: real, P: real, step: real, P0: real, pow: real)
    requires step > 0.0 && next <= P * step && P <= Times(P0, pow)
    ensures next <= Times(P0, Times(step, pow))
  {
    ProductMonotone(step, P, P0 * pow);
    assert step * (P0 * pow) == P0 * (step * pow);
  }

  lemma {:induction false} ScalePowAdd(a: nat, b: nat)
    ensures ScalePow(a + b) == Times(ScalePow(a), ScalePow(b))
  {
    if a > 0 {
      ScalePowAdd(a - 1, b);
      TimesAssoc(SCALE_FACTOR as real, ScalePow(a - 1), ScalePow(b));
      assert ScalePow(a + b) == Times(SCALE_FACTOR as real, ScalePow(a - 1 + b));
    }
  }

  lemma SnapStays(p: Pool, q: Pool, snap: Snapshot, step: nat)
    requires SnapOk(p, snap) && p.epoch <= q.epoch
    requires SumAt(q, snap.epoch, snap.scale) >= SumAt(p, snap.epoch, snap.scale)
    requires q.epoch == p.epoch ==> q.scale == p.scale + step && q.P as real <= p.P as real * ScalePow(step)
    ensures SnapOk(q, snap)
  {
    hide SumAt, ScalePow;
    if snap.epoch == q.epoch {
      ScalePowAdd(step, p.scale - snap.scale);
      assert step + (p.scale - snap.scale) == q.scale - snap.scale;
      ScaledBound(q.P as real, p.P as real, ScalePow(step), snap.P as real, ScalePow(p.scale - snap.scale));
    }
  }

  lemma OffsetKeepsSnap(p: Pool, debt: nat, coll: nat, snap: Snapshot)
    requires p.P > 0 && CanOffset(p, debt) && Offset(p, debt, coll).Ok? && SnapOk(p, snap)
    ensures SnapOk(Offset(p, debt, coll).pool, snap)
  {
    SumsAfter(p, debt, coll, snap.epoch, snap.scale);
    CutBounds(p.P, FactorOf(p, debt));
    SnapStays(p, Offset(p, debt, coll).pool, snap, ScaleStep(p.P, FactorOf(p, debt)));
  }

  /** Every live deposit is cut by one and the same fraction, or to nothing when the pool is emptied. */
  lemma OffsetHeld(p: Pool, debt: nat, coll: nat, initial: nat, snap: Snapshot)
    requires p.P > 0 && CanOffset(p, debt) && Offset(p, debt, coll).Ok? && SnapOk(p, snap)
    ensures SnapOk(Offset(p, debt, coll).pool, snap)
    ensures HeldFrom(Offset(p, debt, coll).pool, initial, snap)
            == if Partial(p, debt) then Times(Cut(p.P, FactorOf(p, debt)), HeldFrom(p, initial, snap)) else 0.0
  {
    OffsetKeepsSnap(p, debt, coll, snap);
    hide Worth, LossPerUnit, NextP, GainPerUnit, CarriedColl;
    if Partial(p, debt) && snap.epoch == p.epoch {
      var factor := FactorOf(p, debt);
      var step, pow := ScalePow(ScaleStep(p.P, factor)), ScalePow(p.scale - snap.scale);
      ScalePowAdd(ScaleStep(p.P, factor), p.scale - snap.scale);
      WorthScales(initial as real, p.P as real, snap.P as real, pow, NextP(p.P, factor) as real, step);
    }
  }

  function PerUnit(p: Pool, coll: nat): real
    requires p.bpd > 0
  {
    GainPerUnit(p, coll) as real / PRECISION as real
  }

  /** Every deposit is credited with its share of the collateral as it stood before the cut;
      only one that has seen two scale changes gets less, namely nothing. */
  lemma OffsetOwed(p: Pool, debt: nat, coll: nat, initial: nat, snap: Snapshot)
    requires p.P > 0 && CanOffset(p, debt) && Offset(p, debt, coll).Ok? && SnapOk(p, snap)
    ensures SnapOk(Offset(p, debt, coll).pool, snap)
    ensures OwedFrom(Offset(p, debt, coll).pool, initial, snap)
            == OwedFrom(p, initial, snap)
               + if snap.epoch == p.epoch && p.scale - snap.scale > 1 then 0.0
                 else Times(PerUnit(p, coll), HeldFrom(p, initial, snap))
  {
    OffsetKeepsSnap(p, debt, coll, snap);
    SpanGrows(p, debt, coll, snap);
    if snap.epoch == p.epoch && p.scale - snap.scale <= 1 {
      var pow := ScalePow(p.scale - snap.scale);
      EarnedGrows(initial as real, Span(p, snap), snap.P as real, Increment(GainPerUnit(p, coll) as real, p.P as real, pow),
                  p.P as real, pow, GainPerUnit(p, coll) as real);
    }
  }

  lemma SumsAfter(p: Pool, debt: nat, coll: nat, e: nat, s: nat)
    requires CanOffset(p, debt) && Offset(p, debt, coll).Ok?
    ensures SumAt(Offset(p, debt, coll).pool, e, s)
            == SumAt(p, e, s) + if e == p.epoch && s == p.scale then GainPerUnit(p, coll) * p.P else 0
  {
  }

  lemma SpanGrows(p: Pool, debt: nat, coll: nat, snap: Snapshot)
    requires p.P > 0 && CanOffset(p, debt) && Offset(p, debt, coll).Ok? && SnapOk(p, snap)
    ensures Span(Offset(p, debt, coll).pool, snap)
            == Span(p, snap) + if snap.epoch == p.epoch && p.scale - snap.scale <= 1
                               then Increment(GainPerUnit(p, coll) as real, p.P as real, ScalePow(p.scale - snap.scale)) else 0.0
  {
    hide GainPerUnit;
    SumsAfter(p, debt, coll, snap.epoch, snap.scale);
    SumsAfter(p, debt, coll, snap.epoch, snap.scale + 1);
    IncrementNow(GainPerUnit(p, coll), p.P, SumAt(p, snap.epoch, snap.scale + 1));
  }

  /** The increment of `S`, in the snapshot's own scale and one scale later. */
  lemma IncrementNow(q: nat, P: nat, sum: nat)
    ensures (q * P) as real == Increment(q as real, P as real, ScalePow(0))
    ensures (sum + q * P) as real / SCALE_FACTOR as real == sum as real / SCALE_FACTOR as real + Increment(q as real, P as real, ScalePow(1))
  {
    ProductAsReal(q, P);
    assert ScalePow(0) == 1.0 && ScalePow(1) == SCALE_FACTOR as real;
    QuotientOfSum(sum as real, q as real * P as real, SCALE_FACTOR as real);
  }

  lemma OffsetKeepsValid(p: Pool, debt: nat, coll: nat)
    requires Valid(p) && CanOffset(p, debt) && Offset(p, debt, coll).Ok?
    ensures Valid(Offset(p, debt, coll).pool)
  {
    forall a | a in p.deposits ensures SnapOk(Offset(p, debt, coll).pool, p.snapshots[a]) {
      OffsetKeepsSnap(p, debt, coll, p.snapshots[a]);
    }
    forall f | f in p.frontEnds.stakes ensures SnapOk(Offset(p, debt, coll).pool, p.frontEnds.stakes[f].snap) {
      OffsetKeepsSnap(p, debt, coll, p.frontEnds.stakes[f].snap);
    }
  }

  // ------------------------------------------------------- the whole pool

  ghost function HeldBy(p: Pool): Address -> real
    requires Valid(p)
  {
    (a: Address) => Held(p, a)
  }

  ghost function OwedTo(p: Pool): Address -> real
    requires Valid(p)
  {
    (a: Address) => Owed(p, a)
  }

  ghost function TotalHeld(p: Pool): real
    requires Valid(p)
  {
    Sum(p.deposits.Keys, HeldBy(p))
  }

  ghost function TotalOwed(p: Pool): real
    requires Valid(p)
  {
    Sum(p.deposits.Keys, OwedTo(p))
  }

  /** A deposit just recorded reads back as it is, with no gain yet. */
  lemma FreshReads(p: Pool, value: nat)
    requires p.P > 0 && (p.epoch, p.scale + 1) !in p.sums
    ensures SnapOk(p, Fresh(p))
    ensures HeldFrom(p, value, Fresh(p)) == value as real && OwedFrom(p, value, Fresh(p)) == 0.0
    ensures CompoundedFrom(p, value, Fresh(p)) == value && GainFrom(p, value, Fresh(p)) == 0
  {
    assert ScalePow(0) == 1.0;
    SameQuotient(value as real * p.P as real, p.P as real * ScalePow(0), value as real);
    UniqueQuotient(value * p.P, p.P, value);
    DivBounds(value, SCALE_FACTOR);
    assert Span(p, Fresh(p)) == 0.0;
  }

  /** `q` is `p` with the deposit of `a` recorded as `value`, balances and front ends as they may be. */
  predicate Updated(p: Pool, q: Pool, a: Address, value: nat) {
    q == UpdateDeposit(p.(bpd := q.bpd, rbtc := q.rbtc, frontEnds := q.frontEnds), a, value)
  }

  lemma UpdateKeepsValid(p: Pool, q: Pool, a: Address, value: nat)
    requires Valid(p) && Updated(p, q, a, value) && FrontEndsOk(q)
    ensures Valid(q)
    ensures q.deposits.Keys == if value == 0 then p.deposits.Keys - {a} else p.deposits.Keys + {a}
  {
    forall b | b in q.deposits ensures q.deposits[b] > 0 && b in q.snapshots && SnapOk(q, q.snapshots[b]) {
      UpdatedSnap(p, q, a, value, b);
    }
  }

  lemma UpdatedSnap(p: Pool, q: Pool, a: Address, value: nat, b: Address)
    requires Valid(p) && Updated(p, q, a, value) && b in q.deposits
    ensures q.deposits[b] > 0 && b in q.snapshots && SnapOk(q, q.snapshots[b])
  {
    if b == a {
      FreshOk(q);
    } else {
      assert SnapOk(p, p.snapshots[b]);
      SnapStays(p, q, p.snapshots[b], 0);
    }
  }

  lemma FreshOk(p: Pool)
    requires p.P > 0
    ensures SnapOk(p, Fresh(p))
  {
    assert ScalePow(0) == 1.0;
  }

  lemma SettledValid(p: Pool, q: Pool, a: Address, bpd: nat, rbtc: nat, value: nat, f: Address, stake: nat)
    requires Valid(p) && q == Settled(p, a, bpd, rbtc, value, f, stake)
    ensures Valid(q) && Updated(p, q, a, value)
  {
    SettledFrontEnds(p, q, a, bpd, rbtc, value, f, stake);
    UpdateKeepsValid(p, q, a, value);
  }

  lemma SettledIsUpdate(p: Pool, a: Address, bpd: nat, rbtc: nat, value: nat, f: Address, stake: nat)
    requires Valid(p)
    ensures Updated(p, Settle(p, a, bpd, rbtc, value, f, stake), a, value)
  {
    SettledFrontEnds(p, Settled(p, a, bpd, rbtc, value, f, stake), a, bpd, rbtc, value, f, stake);
  }

  lemma SettledFrontEnds(p: Pool, q: Pool, a: Address, bpd: nat, rbtc: nat, value: nat, f: Address, stake: nat)
    requires Valid(p) && q == Settled(p, a, bpd, rbtc, value, f, stake)
    ensures FrontEndsOk(q) && Updated(p, q, a, value)
  {
    assert (p.epoch, p.scale + 1) !in p.sums;
    StakeSnapshotReads(q, stake);
    forall g | g in q.frontEnds.stakes ensures SnapOk(q, q.frontEnds.stakes[g].snap) {
      if g != f || stake == 0 { SnapStays(p, q, p.frontEnds.stakes[g].snap, 0); }
    }
  }

  lemma StakeSnapshotReads(p: Pool, stake: nat)
    requires p.P > 0
    ensures SnapOk(p, Snapshot(0, p.P, p.scale, p.epoch)) && CompoundedFrom(p, stake, Snapshot(0, p.P, p.scale, p.epoch)) == stake
  {
    assert ScalePow(0) == 1.0;
    UniqueQuotient(stake * p.P, p.P, stake);
    DivBounds(stake, SCALE_FACTOR);
  }

  /** The front end's stake reads back as recorded; no other front end's stake or depositor's tag changes. */
  lemma SettledStakes(p: Pool, a: Address, bpd: nat, rbtc: nat, value: nat, f: Address, stake: nat)
    requires Valid(p)
    ensures var q := Settle(p, a, bpd, rbtc, value, f, stake);
            && StakeOf(q, f) == stake
            && (forall g :: g != f ==> StakeOf(q, g) == StakeOf(p, g))
            && (forall b :: b != a ==> TagOf(q, b) == TagOf(p, b)) && (value > 0 ==> TagOf(q, a) == f)
  {
    var q := Settle(p, a, bpd, rbtc, value, f, stake);
    StakeSnapshotReads(q, stake);
    forall g | g != f ensures StakeOf(q, g) == StakeOf(p, g) {
      if g in p.frontEnds.stakes {
        assert SnapOk(p, p.frontEnds.stakes[g].snap);
      }
    }
  }

  lemma UpdateSelf(p: Pool, q: Pool, a: Address, value: nat)
    requires Valid(p) && Valid(q) && Updated(p, q, a, value)
    ensures Held(q, a) == value as real && Owed(q, a) == 0.0 && Compounded(q, a) == value && Gain(q, a) == 0
  {
    if value > 0 {
      assert (p.epoch, p.scale + 1) !in p.sums;
      FreshReads(q, value);
    }
  }

  /** Nobody else's deposit or gain changes when `a` updates a deposit. */
  lemma UpdateOthers(p: Pool, q: Pool, a: Address, value: nat, b: Address)
    requires Valid(p) && Valid(q) && Updated(p, q, a, value) && b != a
    ensures b in q.deposits <==> b in p.deposits
    ensures Held(q, b) == Held(p, b) && Owed(q, b) == Owed(p, b)
    ensures Compounded(q, b) == Compounded(p, b) && Gain(q, b) == Gain(p, b)
  {
    if b in p.deposits {
      var snap := p.snapshots[b];
      assert SnapOk(p, snap) && q.snapshots[b] == snap;
      assert SumAt(q, snap.epoch, snap.scale) == SumAt(p, snap.epoch, snap.scale);
      assert SumAt(q, snap.epoch, snap.scale + 1) == SumAt(p, snap.epoch, snap.scale + 1);
    }
  }

  lemma UpdateTotal(p: Pool, q: Pool, a: Address, value: nat, f: Address -> real, g: Address -> real)
    requires q.deposits.Keys == if value == 0 then p.deposits.Keys - {a} else p.deposits.Keys + {a}
    requires forall b: Address :: b != a ==> g(b) == f(b)
    requires a !in p.deposits ==> f(a) == 0.0
    requires value == 0 ==> g(a) == 0.0
    ensures Sum(q.deposits.Keys, g) == Sum(p.deposits.Keys, f) - f(a) + g(a)
  {
    var rest := p.deposits.Keys - {a};
    if a in p.deposits {
      SumRemove(p.deposits.Keys, f, a);
    } else {
      assert rest == p.deposits.Keys;
    }
    if value > 0 {
      SumRemove(q.deposits.Keys, g, a);
    }
    assert q.deposits.Keys - {a} == rest && (value == 0 ==> rest == q.deposits.Keys);
    SumSame(rest, f, g);
  }

  lemma UpdateTotals(p: Pool, q: Pool, a: Address, value: nat)
    requires Valid(p) && Updated(p, q, a, value) && FrontEndsOk(q)
    ensures Valid(q)
    ensures TotalHeld(q) == TotalHeld(p) - Held(p, a) + value as real
    ensures TotalOwed(q) == TotalOwed(p) - Owed(p, a)
  {
    UpdateKeepsValid(p, q, a, value);
    UpdateSelf(p, q, a, value);
    forall b: Address | b != a ensures Held(q, b) == Held(p, b) && Owed(q, b) == Owed(p, b) {
      UpdateOthers(p, q, a, value, b);
    }
    UpdateTotal(p, q, a, value, HeldBy(p), HeldBy(q));
    UpdateTotal(p, q, a, value, OwedTo(p), OwedTo(q));
  }

  lemma HeldScales(p: Pool, q: Pool, cut: real)
    requires Valid(p) && Valid(q) && q.deposits.Keys == p.deposits.Keys
    requires forall a :: a in p.deposits ==> Held(q, a) == Times(cut, Held(p, a))
    ensures TotalHeld(q) == Times(cut, TotalHeld(p))
  {
    var keys, zero := p.deposits.Keys, (a: Address) => 0.0;
    SumZero<Address>(keys);
    SumScale(keys, HeldBy(q), zero, HeldBy(p), cut);
  }

  lemma OwedGrows(p: Pool, q: Pool, perUnit: real)
    requires Valid(p) && Valid(q) && q.deposits.Keys == p.deposits.Keys
    requires forall a :: a in p.deposits ==> Owed(q, a) <= Owed(p, a) + Times(perUnit, Held(p, a))
    ensures TotalOwed(q) <= TotalOwed(p) + Times(perUnit, TotalHeld(p))
  {
    SumLeqScale(p.deposits.Keys, OwedTo(q), OwedTo(p), HeldBy(p), perUnit);
  }

  lemma OffsetOwedAtMost(p: Pool, debt: nat, coll: nat, a: Address)
    requires Valid(p) && CanOffset(p, debt) && Offset(p, debt, coll).Ok? && a in p.deposits
    ensures Valid(Offset(p, debt, coll).pool)
    ensures Owed(Offset(p, debt, coll).pool, a) <= Owed(p, a) + Times(PerUnit(p, coll), Held(p, a))
  {
    OffsetKeepsValid(p, debt, coll);
    OffsetOwed(p, debt, coll, p.deposits[a], p.snapshots[a]);
    HeldBounds(p, a);
    NonnegProduct(PerUnit(p, coll), Held(p, a));
  }

  lemma OffsetTotals(p: Pool, debt: nat, coll: nat)
    requires Valid(p) && CanOffset(p, debt) && Offset(p, debt, coll).Ok?
    ensures Valid(Offset(p, debt, coll).pool)
    ensures TotalHeld(Offset(p, debt, coll).pool) == if Partial(p, debt) then Times(Cut(p.P, FactorOf(p, debt)), TotalHeld(p)) else 0.0
    ensures TotalOwed(Offset(p, debt, coll).pool) <= TotalOwed(p) + Times(PerUnit(p, coll), TotalHeld(p))
  {
    OffsetKeepsValid(p, debt, coll);
    var q := Offset(p, debt, coll).pool;
    var cut := if Partial(p, debt) then Cut(p.P, FactorOf(p, debt)) else 0.0;
    forall a | a in p.deposits
      ensures Held(q, a) == Times(cut, Held(p, a)) && Owed(q, a) <= Owed(p, a) + Times(PerUnit(p, coll), Held(p, a))
    {
      OffsetHeld(p, debt, coll, p.deposits[a], p.snapshots[a]);
      OffsetOwedAtMost(p, debt, coll, a);
    }
    HeldScales(p, q, cut);
    OwedGrows(p, q, PerUnit(p, coll));
  }


  /** A product at or above the scale boundary never vanishes in one offset; it stays at or above
      the boundary exactly when `P * factor` is at least one. */
  lemma ScaleBoundary(P: nat, factor: nat)
    requires P >= SCALE_FACTOR && 0 < factor <= PRECISION
    ensures NextP(P, factor) > 0
    ensures NextP(P, factor) >= SCALE_FACTOR <==> P * factor >= PRECISION
    ensures P <= PRECISION ==> NextP(P, factor) <= PRECISION
  {
    MulMono(SCALE_FACTOR, P, factor);
    MulMono(P, PRECISION, factor);
    MulMono(factor, PRECISION, PRECISION);
    DivBounds(P * factor, PRECISION);
    var n := P * factor * SCALE_FACTOR;
    DivBounds(n, PRECISION);
  }

  // ------------------------------------------------------------ the contract

  /** The contract. Every transaction either has the effect of its specification above or
      reverts and changes nothing. */
  class StabilityPool {
    var rbtc: nat
    var totalBPDDeposits: nat
    var deposits: map<Address, nat>
    var depositSnapshots: map<Address, Snapshot>
    var P: nat
    var currentScale: nat
    var currentEpoch: nat
    var epochToScaleToSum: map<(nat, nat), nat>
    var lastRBTCErrorOffset: nat
    var lastBPDLossErrorOffset: nat
    var registered: set<Address>              // registered front ends
    var frontEndTags: map<Address, Address>
    var frontEndStakes: map<Address, Stake>   // with their snapshots

    function State(): Pool
      reads this
    {
      Pool(rbtc, totalBPDDeposits, deposits, depositSnapshots, P, currentScale, currentEpoch, epochToScaleToSum,
           lastRBTCErrorOffset, lastBPDLossErrorOffset, FrontEnds(registered, frontEndTags, frontEndStakes))
    }

    constructor ()
      ensures State() == Genesis && Valid(State())
      ensures P == 1_000_000_000_000_000_000 && currentScale == currentEpoch == 0
    {
      rbtc, totalBPDDeposits, deposits, depositSnapshots := 0, 0, map[], map[];
      P, currentScale, currentEpoch, epochToScaleToSum := PRECISION, 0, 0, map[];
      lastRBTCErrorOffset, lastBPDLossErrorOffset := 0, 0;
      registered, frontEndTags, frontEndStakes := {}, map[], map[];
    }

    function GetCompoundedBPDDeposit(depositor: Address): nat
      requires Valid(State())
      reads this
    {
      Compounded(State(), depositor)
    }

    function GetDepositorRBTCGain(depositor: Address): nat
      requires Valid(State())
      reads this
    {
      Gain(State(), depositor)
    }

    method UpdateDepositAndSnapshots(depositor: Address, newValue: nat)
      modifies this
      ensures State() == UpdateDeposit(old(State()), depositor, newValue)
    {
      if newValue == 0 {
        deposits := deposits - {depositor};
        depositSnapshots := depositSnapshots - {depositor};
        return;
      }
      deposits := deposits[depositor := newValue];
      var currentS := if (currentEpoch, currentScale) in epochToScaleToSum then epochToScaleToSum[(currentEpoch, currentScale)] else 0;
      depositSnapshots := depositSnapshots[depositor := Snapshot(currentS, P, currentScale, currentEpoch)];
    }

    function GetCompoundedFrontEndStake(frontEnd: Address): nat
      requires Valid(State())
      reads this
    {
      StakeOf(State(), frontEnd)
    }

    method UpdateFrontEndStakeAndSnapshots(frontEnd: Address, newValue: nat)
      modifies this`frontEndStakes
      ensures frontEndStakes == if newValue == 0 then old(frontEndStakes) - {frontEnd}
                                else old(frontEndStakes)[frontEnd := Stake(newValue, Snapshot(0, P, currentScale, currentEpoch))]
    {
      if newValue == 0 {
        frontEndStakes := frontEndStakes - {frontEnd};
        return;
      }
      frontEndStakes := frontEndStakes[frontEnd := Stake(newValue, Snapshot(0, P, currentScale, currentEpoch))];
    }

    /** The end of every depositor's transaction: the front end's stake, the pool's balances, the
        deposit and its tag, or a revert. */
    method ConcludeDeposit(sender: Address, newDeposits: int, newRBTC: int, newValue: nat, frontEnd: Address, newStake: int) returns (ok: bool)
      requires Valid(State())
      modifies this
      ensures ok == Conclude(old(State()), sender, newDeposits, newRBTC, newValue, frontEnd, newStake).Ok?
      ensures State() == if ok then Conclude(old(State()), sender, newDeposits, newRBTC, newValue, frontEnd, newStake).pool else old(State())
    {
      if newStake < 0 || newDeposits < 0 || newRBTC < 0 { return false; }
      UpdateFrontEndStakeAndSnapshots(frontEnd, newStake);
      totalBPDDeposits, rbtc := newDeposits, newRBTC;
      frontEndTags := if newValue == 0 then frontEndTags - {sender} else frontEndTags[sender := frontEnd];
      UpdateDepositAndSnapshots(sender, newValue);
      ok := true;
    }

    method ProvideToSP(sender: Address, amount: nat, frontEndTag: Address) returns (ok: bool)
      requires Valid(State())
      modifies this
      ensures ok == Provide(old(State()), sender, amount, frontEndTag).Ok?
      ensures State() == if ok then Provide(old(State()), sender, amount, frontEndTag).pool else old(State())
      ensures Valid(State())
    {
      hide Compounded, Gain, StakeOf, Valid;
      if (frontEndTag != NULL && frontEndTag !in registered) || sender in registered || amount == 0 { return false; }
      var gain := GetDepositorRBTCGain(sender);
      var compounded := GetCompoundedBPDDeposit(sender);
      var frontEnd := if sender in deposits then TagOf(State(), sender) else frontEndTag;
      var stake := GetCompoundedFrontEndStake(frontEnd);
      ok := ConcludeDeposit(sender, totalBPDDeposits + amount, rbtc - gain, compounded + amount, frontEnd, stake + amount);
    }

    /** `noVaultBelowMCR` is the answer of the price feed and the sorted list. */
    method WithdrawFromSP(sender: Address, amount: nat, noVaultBelowMCR: bool) returns (ok: bool)
      requires Valid(State())
      modifies this
      ensures ok == ((amount == 0 || noVaultBelowMCR) && Withdraw(old(State()), sender, amount).Ok?)
      ensures State() == if ok then Withdraw(old(State()), sender, amount).pool else old(State())
      ensures Valid(State())
    {
      hide Compounded, Gain, StakeOf, Valid;
      if amount != 0 && !noVaultBelowMCR { return false; }
      if sender !in deposits { return false; }
      var gain := GetDepositorRBTCGain(sender);
      var compounded := GetCompoundedBPDDeposit(sender);
      var toWithdraw := Min(amount, compounded);
      var frontEnd := TagOf(State(), sender);
      var stake: int := GetCompoundedFrontEndStake(frontEnd);
      ok := ConcludeDeposit(sender, totalBPDDeposits - toWithdraw, rbtc - gain, compounded - toWithdraw, frontEnd, stake - toWithdraw);
    }

    /** `hasVault` is the vault manager's answer; `adjusts` says whether the adjustment of that vault with
        the gain goes through, which is the last thing the transaction does. */
    method WithdrawRBTCGainToVault(sender: Address, hasVault: bool, adjusts: bool) returns (ok: bool)
      requires Valid(State())
      modifies this
      ensures ok == (hasVault && adjusts && ClaimGain(old(State()), sender).Ok?)
      ensures State() == if ok then ClaimGain(old(State()), sender).pool else old(State())
      ensures Valid(State())
    {
      hide Compounded, Gain, StakeOf, Valid;
      if sender !in deposits || !hasVault { return false; }
      var gain := GetDepositorRBTCGain(sender);
      if gain == 0 { return false; }
      var compounded := GetCompoundedBPDDeposit(sender);
      var frontEnd := TagOf(State(), sender);
      var stake := GetCompoundedFrontEndStake(frontEnd);
      var before := State();
      ok := ConcludeDeposit(sender, totalBPDDeposits, rbtc - gain, compounded, frontEnd, stake);
      if ok && !adjusts {
        Rollback(before);
        ok := false;
      }
    }

    /** Undoes whatever a transaction that reverts has written. */
    method Rollback(saved: Pool)
      modifies this
      ensures State() == saved
    {
      rbtc, totalBPDDeposits, deposits, depositSnapshots := saved.rbtc, saved.bpd, saved.deposits, saved.snapshots;
      registered, frontEndTags, frontEndStakes := saved.frontEnds.registered, saved.frontEnds.tags, saved.frontEnds.stakes;
      RollbackTrackers(saved);
    }

    method RollbackTrackers(saved: Pool)
      modifies this`P, this`currentScale, this`currentEpoch, this`epochToScaleToSum, this`lastRBTCErrorOffset, this`lastBPDLossErrorOffset
      ensures P == saved.P && currentScale == saved.scale && currentEpoch == saved.epoch && epochToScaleToSum == saved.sums
      ensures lastRBTCErrorOffset == saved.errColl && lastBPDLossErrorOffset == saved.errLoss
    {
      P, currentScale, currentEpoch, epochToScaleToSum := saved.P, saved.scale, saved.epoch, saved.sums;
      lastRBTCErrorOffset, lastBPDLossErrorOffset := saved.errColl, saved.errLoss;
    }

    method RegisterFrontEnd(sender: Address) returns (ok: bool)
      modifies this`registered
      ensures ok == Register(old(State()), sender).Ok?
      ensures State() == if ok then Register(old(State()), sender).pool else old(State())
    {
      if sender in registered || sender in deposits { return false; }
      registered := registered + {sender};
      ok := true;
    }

    /** `_computeRewardsPerUnitStaked`, with the remainders it carries forward. */
    method ComputeRewardsPerUnitStaked(collToAdd: nat, debtToOffset: nat)
      returns (ok: bool, gainPerUnit: nat, lossPerUnit: nat, newCollError: nat, newLossError: nat)
      requires totalBPDDeposits > 0 && debtToOffset > 0
      ensures ok == CanOffset(State(), debtToOffset)
      ensures ok ==> (lossPerUnit, newLossError) == LossPerUnit(totalBPDDeposits, lastBPDLossErrorOffset, debtToOffset)
      ensures ok ==> gainPerUnit == GainPerUnit(State(), collToAdd) && newCollError == CarriedColl(State(), collToAdd)
    {
      ok, gainPerUnit, lossPerUnit, newCollError, newLossError := false, 0, PRECISION, 0, 0;
      if debtToOffset > totalBPDDeposits { return; }
      if debtToOffset < totalBPDDeposits {
        if lastBPDLossErrorOffset > debtToOffset * PRECISION { return; }
        var lossNumerator: nat := debtToOffset * PRECISION - lastBPDLossErrorOffset;
        lossPerUnit := lossNumerator / totalBPDDeposits + 1;
        newLossError := CarriedLoss(totalBPDDeposits, lossNumerator, lossPerUnit);
      }
      gainPerUnit := (collToAdd * PRECISION + lastRBTCErrorOffset) / totalBPDDeposits;
      newCollError := CarriedColl(State(), collToAdd);
      ok := true;
    }

    method UpdateRewardSumAndProduct(gainPerUnit: nat, lossPerUnit: nat) returns (ok: bool)
      requires lossPerUnit <= PRECISION
      modifies this
      ensures ok == UpdateSumAndProduct(old(State()), gainPerUnit, lossPerUnit).Ok?
      ensures State() == if ok then UpdateSumAndProduct(old(State()), gainPerUnit, lossPerUnit).pool else old(State())
    {
      var newProductFactor: nat := PRECISION - lossPerUnit;
      var newS := SumAt(State(), currentEpoch, currentScale) + gainPerUnit * P;
      if newProductFactor == 0 {
        epochToScaleToSum := epochToScaleToSum[(currentEpoch, currentScale) := newS];
        currentEpoch, currentScale, P := currentEpoch + 1, 0, PRECISION;
      } else if P * newProductFactor / PRECISION < SCALE_FACTOR {
        var newP := P * newProductFactor * SCALE_FACTOR / PRECISION;
        if newP == 0 { return false; }
        epochToScaleToSum := epochToScaleToSum[(currentEpoch, currentScale) := newS];
        currentScale, P := currentScale + 1, newP;
      } else {
        epochToScaleToSum := epochToScaleToSum[(currentEpoch, currentScale) := newS];
        P := P * newProductFactor / PRECISION;
      }
      ok := true;
    }

    method OffsetDebt(debtToOffset: nat, collToAdd: nat) returns (ok: bool)
      requires Valid(State())
      modifies this
      ensures ok == Offset(old(State()), debtToOffset, collToAdd).Ok?
      ensures State() == if ok then Offset(old(State()), debtToOffset, collToAdd).pool else old(State())
      ensures Valid(State())
    {
      hide GainPerUnit, CarriedColl, LossPerUnit, NextP, Valid;
      if totalBPDDeposits == 0 || debtToOffset == 0 { return true; }
      ghost var before := State();
      var gainPerUnit, lossPerUnit, newCollError, newLossError;
      ok, gainPerUnit, lossPerUnit, newCollError, newLossError := ComputeRewardsPerUnitStaked(collToAdd, debtToOffset);
      if !ok { return; }
      LossAtMostOne(totalBPDDeposits, lastBPDLossErrorOffset, debtToOffset);
      ok := UpdateRewardSumAndProduct(gainPerUnit, lossPerUnit);
      if !ok { return; }
      lastRBTCErrorOffset, lastBPDLossErrorOffset := newCollError, newLossError;
      totalBPDDeposits := totalBPDDeposits - debtToOffset;
      rbtc := rbtc + collToAdd;
      OffsetKeepsValid(before, debtToOffset, collToAdd);
    }
  }
}
