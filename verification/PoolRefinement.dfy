/** The O(1) tracking against the direct form it replaces: a ledger in which every offset
    loops over all deposits, cuts each by the same fraction and credits each its gain. */
module PoolRefinement {
  import opened Arithmetic
  import opened Units
  import opened VaultList
  import opened PoolModel
  import opened PoolRuns
  import opened PoolSolvency

  /** What the direct form keeps for one depositor, in exact amounts. */
  datatype Entry = Entry(held: real, gained: real)

  function CutEntry(e: Entry, cut: real, perUnit: real): Entry {
    Entry(Times(cut, e.held), e.gained + Times(perUnit, e.held))
  }

  /** The loop: everyone is credited on what they held and then cut by the same fraction. */
  function CutAll(ledger: map<Address, Entry>, cut: real, perUnit: real): map<Address, Entry> {
    map a | a in ledger :: CutEntry(ledger[a], cut, perUnit)
  }

  /** The fraction of every deposit an offset leaves: nothing when it empties the pool. */
  function Kept(p: Pool, debt: nat): real
    requires p.P > 0 && CanOffset(p, debt)
  {
    if Partial(p, debt) then Cut(p.P, FactorOf(p, debt)) else 0.0
  }

  function Record(ledger: map<Address, Entry>, a: Address, value: nat): map<Address, Entry> {
    if value == 0 then ledger - {a} else ledger[a := Entry(value as real, 0.0)]
  }

  /** The direct form of one transaction that takes effect on pool `p`. */
  function Direct(p: Pool, ledger: map<Address, Entry>, op: Op): map<Address, Entry>
    requires Valid(p)
  {
    if Apply(p, op).Revert? then ledger else
      if op.OffsetOp? then
        if CanOffset(p, op.debt) then CutAll(ledger, Kept(p, op.debt), PerUnit(p, op.coll)) else ledger
      else if op.RegisterOp? then ledger
      else Record(ledger, op.a, NewValue(p, op))
  }

  function DirectRun(p: Pool, ledger: map<Address, Entry>, ops: seq<Op>): map<Address, Entry>
    requires Valid(p)
    decreases |ops|
  {
    if ops == [] then ledger else DirectRun(Next(p, ops[0]), Direct(p, ledger, ops[0]), ops[1..])
  }

  /** The deposit is live and has seen at most one scale change. */
  predicate Current(p: Pool, a: Address)
    requires Valid(p) && a in p.deposits
  {
    p.snapshots[a].epoch == p.epoch && p.scale - p.snapshots[a].scale <= 1
  }

  /** The ledger shows what the snapshots stand for: deposits exactly, gains exactly while
      the deposit is current and never less than the snapshots pay. */
  ghost predicate Agrees(p: Pool, ledger: map<Address, Entry>) {
    && Valid(p)
    && ledger.Keys == p.deposits.Keys
    && forall a :: a in ledger ==> AgreesOn(p, a, ledger[a])
  }

  ghost predicate AgreesOn(p: Pool, a: Address, e: Entry)
    requires Valid(p)
  {
    && a in p.deposits
    && e.held == Held(p, a) && Owed(p, a) <= e.gained
    && (Current(p, a) ==> Owed(p, a) == e.gained)
  }

  lemma RecordAgreesOn(p: Pool, q: Pool, a: Address, value: nat, b: Address, e: Entry)
    requires Valid(p) && Valid(q) && Updated(p, q, a, value) && b in q.deposits
    requires if b == a then e == Entry(value as real, 0.0) else AgreesOn(p, b, e)
    ensures AgreesOn(q, b, e)
  {
    if b == a {
      UpdateSelf(p, q, a, value);
    } else {
      UpdateOthers(p, q, a, value, b);
    }
  }

  lemma RecordAgrees(p: Pool, q: Pool, ledger: map<Address, Entry>, a: Address, value: nat)
    requires Agrees(p, ledger) && Updated(p, q, a, value) && FrontEndsOk(q)
    ensures Agrees(q, Record(ledger, a, value))
  {
    hide AgreesOn, Valid, FrontEndsOk, Updated;
    UpdateKeepsValid(p, q, a, value);
    var ledger' := Record(ledger, a, value);
    forall b | b in ledger' ensures AgreesOn(q, b, ledger'[b]) {
      RecordAgreesOn(p, q, a, value, b, ledger'[b]);
    }
  }

  lemma OffsetAgreesOn(p: Pool, q: Pool, debt: nat, coll: nat, a: Address, e: Entry)
    requires Valid(p) && Valid(q) && CanOffset(p, debt) && Offset(p, debt, coll) == Ok(q) && AgreesOn(p, a, e)
    ensures AgreesOn(q, a, CutEntry(e, Kept(p, debt), PerUnit(p, coll)))
  {
    assert SnapOk(p, p.snapshots[a]);
    OffsetHeld(p, debt, coll, p.deposits[a], p.snapshots[a]);
    OffsetOwed(p, debt, coll, p.deposits[a], p.snapshots[a]);
    OffsetOwedAtMost(p, debt, coll, a);
  }

  lemma OffsetKeepsDeposits(p: Pool, q: Pool, debt: nat, coll: nat)
    requires CanOffset(p, debt) && Offset(p, debt, coll) == Ok(q)
    ensures q.deposits == p.deposits
  {
    hide GainPerUnit, CarriedColl, LossPerUnit, NextP;
  }

  lemma CutAgrees(p: Pool, q: Pool, ledger: map<Address, Entry>, cut: real, perUnit: real)
    requires Agrees(p, ledger) && Valid(q) && q.deposits == p.deposits
    requires forall a :: a in ledger ==> AgreesOn(q, a, CutEntry(ledger[a], cut, perUnit))
    ensures Agrees(q, CutAll(ledger, cut, perUnit))
  {
    hide AgreesOn, CutEntry, Valid;
    var after := CutAll(ledger, cut, perUnit);
    assert after.Keys == ledger.Keys;
  }

  lemma OffsetAgrees(p: Pool, q: Pool, debt: nat, coll: nat, ledger: map<Address, Entry>)
    requires Agrees(p, ledger) && Valid(q) && CanOffset(p, debt) && Offset(p, debt, coll) == Ok(q)
    ensures Agrees(q, CutAll(ledger, Kept(p, debt), PerUnit(p, coll)))
  {
    assert p.P > 0;
    hide AgreesOn, CutEntry, CutAll, Kept, PerUnit, Offset, Valid, CanOffset;
    OffsetKeepsDeposits(p, q, debt, coll);
    forall a | a in ledger ensures AgreesOn(q, a, CutEntry(ledger[a], Kept(p, debt), PerUnit(p, coll))) {
      OffsetAgreesOn(p, q, debt, coll, a, ledger[a]);
    }
    CutAgrees(p, q, ledger, Kept(p, debt), PerUnit(p, coll));
  }

  lemma DepositorAgrees(p: Pool, ledger: map<Address, Entry>, op: Op)
    requires Agrees(p, ledger) && ByDepositor(op) && Apply(p, op).Ok?
    ensures Agrees(Apply(p, op).pool, Direct(p, ledger, op))
  {
    hide Agrees, Updated, Provide, Withdraw, ClaimGain, Compounded, Gain, Record;
    assert Valid(p) by { AgreesIsValid(p, ledger); }
    ApplyIsUpdate(p, op);
    RecordAgrees(p, Apply(p, op).pool, ledger, op.a, NewValue(p, op));
  }

  lemma AgreesIsValid(p: Pool, ledger: map<Address, Entry>)
    requires Agrees(p, ledger)
    ensures Valid(p)
  {
  }

  lemma NextAgrees(p: Pool, ledger: map<Address, Entry>, op: Op)
    requires Agrees(p, ledger)
    ensures Agrees(Next(p, op), Direct(p, ledger, op))
  {
    if Apply(p, op).Ok? {
      if ByDepositor(op) {
        DepositorAgrees(p, ledger, op);
      } else if op.RegisterOp? {
        RegisteringChangesNothing(p, op.frontEnd);
      } else if CanOffset(p, op.debt) {
        OffsetKeepsValid(p, op.debt, op.coll);
        OffsetAgrees(p, Apply(p, op).pool, op.debt, op.coll, ledger);
      }
    }
  }

  /** The fast form refines the direct form over every run, scale changes and emptied pools included. */
  lemma {:induction false} FastRefinesDirect(p: Pool, ledger: map<Address, Entry>, ops: seq<Op>)
    requires Agrees(p, ledger)
    ensures Agrees(Run(p, ops), DirectRun(p, ledger, ops))
    decreases |ops|
  {
    if ops != [] {
      NextAgrees(p, ledger, ops[0]);
      FastRefinesDirect(Next(p, ops[0]), Direct(p, ledger, ops[0]), ops[1..]);
    }
  }

  lemma SameScaleGain(d: nat, s: nat, P0: nat)
    requires P0 > 0
    ensures d * s / P0 / PRECISION == Earned(d as real, s as real, P0 as real).Floor
  {
    var n, x, y := d * s, d as real * s as real, P0 as real * PRECISION as real;
    assert n as real == x by { ProductAsReal(d, s); }
    TwoFloors(n, P0, x, y);
    assert Earned(d as real, s as real, P0 as real) == x / y;
  }

  lemma TwoFloors(n: nat, P0: nat, x: real, y: real)
    requires P0 > 0 && n as real == x && y == P0 as real * PRECISION as real
    ensures n / P0 / PRECISION == (x / y).Floor
  {
    NestedDivision(n, P0, PRECISION);
    ProductAsReal(PRECISION, P0);
    FloorEquals(n, PRECISION * P0, x, y);
  }

  /** While the scale has not moved the gain is the exact gain rounded down. */
  lemma GainIsFloorOfOwed(p: Pool, a: Address)
    requires Valid(p) && a in p.deposits && Current(p, a) && p.snapshots[a].scale == p.scale
    ensures Gain(p, a) == Owed(p, a).Floor
  {
    var snap := p.snapshots[a];
    assert (snap.epoch, snap.scale + 1) !in p.sums && SnapOk(p, snap);
    SameScaleGain(p.deposits[a], SumAt(p, snap.epoch, snap.scale) - snap.S, snap.P);
  }

  /** What the contract reads off its snapshots, in terms of the ledger: the deposit is the
      ledger's rounded down, and zero when the scale has moved twice or less than a billionth
      is left; the gain never exceeds the ledger's and is the ledger's rounded down while the
      scale has not moved. */
  ghost predicate Reads(p: Pool, a: Address, e: Entry)
    requires Valid(p) && a in p.deposits
  {
    && Compounded(p, a) == (if Current(p, a) && e.held.Floor >= p.deposits[a] / SCALE_FACTOR then e.held.Floor else 0)
    && Gain(p, a) as real <= e.gained
    && (Current(p, a) && p.snapshots[a].scale == p.scale ==> Gain(p, a) == e.gained.Floor)
  }

  lemma ReadsEntry(p: Pool, a: Address, e: Entry)
    requires Valid(p) && AgreesOn(p, a, e)
    ensures Reads(p, a, e)
  {
    CompoundedIsFloorOfHeld(p, a);
    GainAtMostOwed(p, a);
    if Current(p, a) && p.snapshots[a].scale == p.scale {
      GainIsFloorOfOwed(p, a);
    }
  }

  /** After any run the contract reads off its snapshots what the direct ledger says. */
  lemma ReadsTheLedger(ops: seq<Op>, a: Address)
    requires a in Run(Genesis, ops).deposits
    ensures a in DirectRun(Genesis, map[], ops) && Reads(Run(Genesis, ops), a, DirectRun(Genesis, map[], ops)[a])
  {
    FastRefinesDirect(Genesis, map[], ops);
    ReadsEntry(Run(Genesis, ops), a, DirectRun(Genesis, map[], ops)[a]);
  }

  /** One unit of the new `P`, as a fraction of a deposit. */
  function UnitOf(P: nat, factor: nat): real
    requires P > 0
  {
    1.0 / (P as real * ScalePow(ScaleStep(P, factor)))
  }

  /** The common fraction is the pool's own, up to rounding: the deposits of a pool of `bpd` would
      fall to what the pool keeps, give or take the carried remainder and one unit of `P`. */
  lemma CutIsProportional(p: Pool, debt: nat)
    requires p.P > 0 && CanOffset(p, debt) && Partial(p, debt)
    ensures Times(Kept(p, debt), p.bpd as real) <= (p.bpd - debt) as real + p.errLoss as real / PRECISION as real
    ensures Times(Kept(p, debt) + UnitOf(p.P, FactorOf(p, debt)), p.bpd as real) >= (p.bpd - debt) as real - p.bpd as real / PRECISION as real
  {
    LossAtMostOne(p.bpd, p.errLoss, debt);
    var factor := FactorOf(p, debt);
    CutBounds(p.P, factor);
    CutLoses(p.P, factor);
    ProportionalBounds(Kept(p, debt), UnitOf(p.P, factor), factor, p.bpd, debt, p.errLoss, LossPerUnit(p.bpd, p.errLoss, debt).1);
  }

  lemma ProportionalBounds(kept: real, unit: real, factor: nat, bpd: nat, debt: nat, err: nat, err': nat)
    requires factor <= PRECISION && debt <= bpd && err' <= bpd
    requires (PRECISION - factor) * bpd + err == debt * PRECISION + err'
    requires kept <= factor as real / PRECISION as real <= kept + unit
    ensures Times(kept, bpd as real) <= (bpd - debt) as real + err as real / PRECISION as real
    ensures Times(kept + unit, bpd as real) >= (bpd - debt) as real - bpd as real / PRECISION as real
  {
    var w := PRECISION as real;
    FactorShare(factor, bpd, debt, err, err');
    FirstMono(kept, factor as real / w, bpd as real);
    FirstMono(factor as real / w, kept + unit, bpd as real);
    QuotientMonotone(err' as real, bpd as real, w);
    QuotientMonotone(0.0, err' as real, w);
    QuotientMonotone(0.0, err as real, w);
  }

  lemma FactorShare(factor: nat, bpd: nat, debt: nat, err: nat, err': nat)
    requires factor <= PRECISION && debt <= bpd && (PRECISION - factor) * bpd + err == debt * PRECISION + err'
    ensures Times(factor as real / PRECISION as real, bpd as real)
            == (bpd - debt) as real + err as real / PRECISION as real - err' as real / PRECISION as real
  {
    var w := PRECISION as real;
    assert factor * bpd == (bpd - debt) * PRECISION + err - err';
    ProductAsReal(factor, bpd);
    ProductAsReal(bpd - debt, PRECISION);
    var f := factor as real / w;
    assert f * bpd as real * w == factor as real * bpd as real;
    SameQuotient((bpd - debt) as real * w + err as real - err' as real, w, f * bpd as real);
  }

  lemma CutLoses(P: nat, factor: nat)
    requires P > 0 && factor <= PRECISION
    ensures factor as real / PRECISION as real <= Cut(P, factor) + UnitOf(P, factor)
  {
    ScaleOf(P, factor);
    var k := ScaleUnit(P, factor);
    var m, next := P * k, NextP(P, factor);
    MulAssoc(P, factor, k);
    MulAssoc(P, k, factor);
    DivBounds(m * factor, PRECISION);
    ProductAsReal(P, k);
    OneMore(factor, m, next, P as real * ScalePow(ScaleStep(P, factor)));
  }

  lemma OneMore(factor: nat, m: nat, next: nat, y: real)
    requires m > 0 && m * factor <= (next + 1) * PRECISION && y == m as real
    ensures factor as real / PRECISION as real <= next as real / y + 1.0 / y
  {
    var w, x := PRECISION as real, factor as real / PRECISION as real;
    ProductAsReal(m, factor);
    ProductAsReal(next + 1, PRECISION);
    assert x * w == factor as real;
    assert (x * y) * w == m as real * factor as real;
    RealMulMono(x * y, (next + 1) as real, w);
    QuotientMonotone(x * y, (next + 1) as real, y);
    SameQuotient(x * y, y, x);
    QuotientOfSum(next as real, 1.0, y);
  }
}
