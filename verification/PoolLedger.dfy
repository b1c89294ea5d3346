/** The Stability Pool against the loop its documentation describes: a ledger that sees nothing but the
    BPD and RBTC that move, and at each offset goes over all deposits, takes from each its share of
    the debt in proportion to the whole pool and credits each its share of the collateral. It knows
    neither `P` nor `S` nor any snapshot, rounds nothing, and always adds up to the pool. */
module PoolLedger {
  import opened Arithmetic
  import opened Sums
  import opened Units
  import opened VaultList
  import opened PoolModel
  import opened PoolRuns
  import opened PoolSolvency
  import opened PoolRefinement

  /** What a transaction moves: BPD and RBTC between a depositor and the pool, or an offset of `debt`
      against `bpd` deposited in all, which brings `coll`. */
  datatype Transfer =
    | Nothing
    | Between(a: Address, bpdIn: int, rbtcOut: int)
    | Absorbed(bpd: nat, debt: nat, coll: nat)

  type Ledger = map<Address, Entry>

  function EntryOf(l: Ledger, a: Address): Entry { if a in l then l[a] else Entry(0.0, 0.0) }

  function Fraction(n: int, d: nat): real
    requires d > 0
  {
    n as real / d as real
  }

  /** The loop over all deposits. */
  function Absorb(e: Entry, bpd: nat, debt: nat, coll: nat): Entry
    requires bpd > 0
  {
    Entry(Times(Fraction(bpd - debt, bpd), e.held), e.gained + Times(Fraction(coll, bpd), e.held))
  }

  function Post(l: Ledger, t: Transfer): Ledger {
    match t
    case Nothing => l
    case Between(a, bpdIn, rbtcOut) => l[a := Entry(EntryOf(l, a).held + bpdIn as real, EntryOf(l, a).gained - rbtcOut as real)]
    case Absorbed(bpd, debt, coll) => if bpd == 0 then l else map a | a in l :: Absorb(l[a], bpd, debt, coll)
  }

  predicate Offsets(p: Pool, op: Op)
    requires Valid(p)
  {
    op.OffsetOp? && CanOffset(p, op.debt) && Apply(p, op).Ok?
  }

  /** What can be seen of a transaction from outside. */
  function Observed(p: Pool, op: Op): Transfer
    requires Valid(p)
  {
    if ByDepositor(op) && Apply(p, op).Ok? then Between(op.a, Apply(p, op).pool.bpd - p.bpd, p.rbtc - Apply(p, op).pool.rbtc)
    else if Offsets(p, op) then Absorbed(p.bpd, op.debt, op.coll)
    else Nothing
  }

  function Books(p: Pool, l: Ledger, ops: seq<Op>): Ledger
    requires Valid(p)
    decreases |ops|
  {
    if ops == [] then l else Books(Next(p, ops[0]), Post(l, Observed(p, ops[0])), ops[1..])
  }

  // ---------------------------------------------------- the ledger balances

  ghost function HeldIn(l: Ledger): Address -> real { (a: Address) => EntryOf(l, a).held }
  ghost function GainedIn(l: Ledger): Address -> real { (a: Address) => EntryOf(l, a).gained }

  /** The entries add up to exactly what the pool has. */
  ghost predicate Balances(l: Ledger, p: Pool) {
    Sum(l.Keys, HeldIn(l)) == p.bpd as real && Sum(l.Keys, GainedIn(l)) == p.rbtc as real
  }

  lemma PostBetween(l: Ledger, a: Address, bpdIn: int, rbtcOut: int)
    ensures var l' := Post(l, Between(a, bpdIn, rbtcOut));
            && Sum(l'.Keys, HeldIn(l')) == Sum(l.Keys, HeldIn(l)) + bpdIn as real
            && Sum(l'.Keys, GainedIn(l')) == Sum(l.Keys, GainedIn(l)) - rbtcOut as real
  {
    var l' := Post(l, Between(a, bpdIn, rbtcOut));
    var rest := l.Keys - {a};
    assert l'.Keys - {a} == rest && a in l'.Keys && (a !in l ==> rest == l.Keys);
    SumRemove(l'.Keys, HeldIn(l'), a);
    SumRemove(l'.Keys, GainedIn(l'), a);
    if a in l {
      SumRemove(l.Keys, HeldIn(l), a);
      SumRemove(l.Keys, GainedIn(l), a);
    }
    SumSame(rest, HeldIn(l'), HeldIn(l));
    SumSame(rest, GainedIn(l'), GainedIn(l));
  }

  lemma PostAbsorbed(l: Ledger, bpd: nat, debt: nat, coll: nat)
    requires bpd > 0
    ensures var l' := Post(l, Absorbed(bpd, debt, coll));
            && Sum(l'.Keys, HeldIn(l')) == Times(Fraction(bpd - debt, bpd), Sum(l.Keys, HeldIn(l)))
            && Sum(l'.Keys, GainedIn(l')) == Sum(l.Keys, GainedIn(l)) + Times(Fraction(coll, bpd), Sum(l.Keys, HeldIn(l)))
  {
    hide Times, Fraction;
    var l', zero := Post(l, Absorbed(bpd, debt, coll)), (a: Address) => 0.0;
    assert l'.Keys == l.Keys;
    SumZero<Address>(l.Keys);
    SumScale(l.Keys, HeldIn(l'), zero, HeldIn(l), Fraction(bpd - debt, bpd));
    SumScale(l.Keys, GainedIn(l'), GainedIn(l), HeldIn(l), Fraction(coll, bpd));
  }

  lemma WholeFraction(n: int, d: nat)
    requires d > 0
    ensures Times(Fraction(n, d), d as real) == n as real
  {
  }

  lemma MoveBalances(p: Pool, q: Pool, l: Ledger, a: Address)
    requires Balances(l, p)
    ensures Balances(Post(l, Between(a, q.bpd - p.bpd, p.rbtc - q.rbtc)), q)
  {
    hide Post;
    PostBetween(l, a, q.bpd - p.bpd, p.rbtc - q.rbtc);
  }

  lemma OffsetBalances(p: Pool, q: Pool, l: Ledger, debt: nat, coll: nat)
    requires Balances(l, p) && p.bpd > 0 && q.bpd == p.bpd - debt && q.rbtc == p.rbtc + coll
    ensures Balances(Post(l, Absorbed(p.bpd, debt, coll)), q)
  {
    PostAbsorbed(l, p.bpd, debt, coll);
    WholeFraction(p.bpd - debt, p.bpd);
    WholeFraction(coll, p.bpd);
  }

  lemma PostBalances(p: Pool, l: Ledger, op: Op)
    requires Valid(p) && Balances(l, p)
    ensures Balances(Post(l, Observed(p, op)), Next(p, op))
  {
    hide Valid, Balances, Post, Provide, Withdraw, ClaimGain, GainPerUnit, CarriedColl, LossPerUnit, NextP;
    if Apply(p, op).Ok? {
      if ByDepositor(op) {
        MoveBalances(p, Apply(p, op).pool, l, op.a);
      } else if op.OffsetOp? {
        if CanOffset(p, op.debt) {
          OffsetBalances(p, Apply(p, op).pool, l, op.debt, op.coll);
        }
      } else {
        SameBalances(p, Apply(p, op).pool, l);
      }
    }
    SameBalances(p, p, l);
  }

  lemma SameBalances(p: Pool, q: Pool, l: Ledger)
    requires Balances(l, p) && q.bpd == p.bpd && q.rbtc == p.rbtc
    ensures Balances(Post(l, Nothing), q)
  {
  }

  /** Over every run the ledger's deposits add up to the pool's BPD and its gains to the pool's RBTC. */
  lemma {:induction false} BooksBalance(p: Pool, l: Ledger, ops: seq<Op>)
    requires Valid(p) && Balances(l, p)
    ensures Balances(Books(p, l, ops), Run(p, ops))
    decreases |ops|
  {
    if ops != [] {
      PostBalances(p, l, ops[0]);
      BooksBalance(Next(p, ops[0]), Post(l, Observed(p, ops[0])), ops[1..]);
    }
  }

  // ------------------------------------------ the contract keeps close to it

  predicate Within(x: real, y: real, e: real) { -e <= x - y <= e }

  /** How far one offset's common fraction may be from the pool's own. */
  ghost function CutDeviation(p: Pool, debt: nat): real
    requires p.P > 0 && CanOffset(p, debt)
  {
    Fraction(p.errLoss, PRECISION * p.bpd) + Fraction(1, PRECISION) + if Partial(p, debt) then UnitOf(p.P, FactorOf(p, debt)) else 0.0
  }

  /** How far its rate may be from the collateral per BPD. */
  function RateDeviation(p: Pool): real
    requires p.bpd > 0
  {
    Fraction(p.errColl, PRECISION * p.bpd) + Fraction(1, PRECISION)
  }

  lemma CutIsClose(p: Pool, debt: nat)
    requires p.P > 0 && CanOffset(p, debt)
    ensures Within(Kept(p, debt), Fraction(p.bpd - debt, p.bpd), CutDeviation(p, debt))
  {
    LossAtMostOne(p.bpd, p.errLoss, debt);
    if Partial(p, debt) {
      CutIsProportional(p, debt);
      UnitPositive(p.P, FactorOf(p, debt));
      var unit := UnitOf(p.P, FactorOf(p, debt));
      hide Kept, UnitOf, LossPerUnit, NextP, FactorOf, Partial;
      PerPool(Kept(p, debt), unit, p.bpd, debt, p.errLoss);
    } else {
      NearlyAll(p.bpd, debt, p.errLoss, LossPerUnit(p.bpd, p.errLoss, debt).1);
    }
  }

  lemma UnitPositive(P: nat, factor: nat)
    requires P > 0
    ensures UnitOf(P, factor) > 0.0
  {
  }

  lemma PerPool(kept: real, unit: real, bpd: nat, debt: nat, err: nat)
    requires 0 < debt <= bpd && unit > 0.0
    requires Times(kept, bpd as real) <= (bpd - debt) as real + err as real / PRECISION as real
    requires Times(kept + unit, bpd as real) >= (bpd - debt) as real - bpd as real / PRECISION as real
    ensures PRECISION * bpd > 0 && Within(kept, Fraction(bpd - debt, bpd), Fraction(err, PRECISION * bpd) + Fraction(1, PRECISION) + unit)
  {
    var b := bpd as real;
    var share, e, one := Fraction(bpd - debt, bpd), Fraction(err, PRECISION * bpd), Fraction(1, PRECISION);
    WholeFraction(bpd - debt, bpd);
    RemainderPerPool(err, bpd);
    OnePerPool(bpd);
    DistributeFirst(share, e, b);
    DistributeFirst(kept + unit, one, b);
    FractionNonneg(1, PRECISION);
    hide Times, Fraction;
    ByProduct(kept, share + e, b);
    ByProduct(share, kept + unit + one, b);
  }

  lemma OnePerPool(bpd: nat)
    ensures Times(Fraction(1, PRECISION), bpd as real) == bpd as real / PRECISION as real
  {
  }

  lemma ByProduct(x: real, y: real, b: real)
    requires b > 0.0 && Times(x, b) <= Times(y, b)
    ensures x <= y
  {
    RealMulMono(x, y, b);
  }

  lemma RemainderPerPool(err: nat, bpd: nat)
    requires bpd > 0
    ensures PRECISION * bpd > 0 && Fraction(err, PRECISION * bpd) >= 0.0
    ensures Times(Fraction(err, PRECISION * bpd), bpd as real) == err as real / PRECISION as real
  {
    var b, w := bpd as real, PRECISION as real;
    ProductAsReal(PRECISION, bpd);
    var x := Fraction(err, PRECISION * bpd);
    assert x * (w * b) == err as real;
    assert (x * b) * w == x * (w * b);
    SameQuotient(err as real, w, x * b);
    RealMulMono(0.0, x, w * b);
  }

  /** An offset that leaves nothing although not all was offset leaves less than one unit per BPD behind. */
  lemma NearlyAll(bpd: nat, debt: nat, err: nat, err': nat)
    requires 0 < debt <= bpd && err' <= bpd && (debt < bpd ==> PRECISION * bpd + err == debt * PRECISION + err')
    ensures PRECISION * bpd > 0 && Within(0.0, Fraction(bpd - debt, bpd), Fraction(err, PRECISION * bpd) + Fraction(1, PRECISION) + 0.0)
  {
    RemainderPerPool(err, bpd);
    var share, one := Fraction(bpd - debt, bpd), Fraction(1, PRECISION);
    WholeFraction(bpd - debt, bpd);
    WholeFraction(1, PRECISION);
    RealMulMono(0.0, share, bpd as real);
    if debt < bpd {
      TinyShare(bpd - debt, bpd);
    }
  }

  lemma TinyShare(left: nat, bpd: nat)
    requires bpd > 0 && left * PRECISION <= bpd
    ensures Fraction(left, bpd) <= Fraction(1, PRECISION)
  {
    var share, b, w := Fraction(left, bpd), bpd as real, PRECISION as real;
    assert share * b == left as real;
    ProductAsReal(left, PRECISION);
    assert (share * w) * b == left as real * w;
    RealMulMono(share * w, 1.0, b);
    assert Fraction(1, PRECISION) * w == 1.0;
    RealMulMono(share, Fraction(1, PRECISION), w);
  }

  lemma RateIsClose(p: Pool, coll: nat)
    requires p.bpd > 0
    ensures Within(PerUnit(p, coll), Fraction(coll, p.bpd), RateDeviation(p))
  {
    RemainderArithmetic(GainPerUnit(p, coll), p.bpd, coll, p.errColl, CarriedColl(p, coll));
    RateArithmetic(PerUnit(p, coll), p.bpd, coll, p.errColl, CarriedColl(p, coll));
  }

  lemma RateArithmetic(rate: real, bpd: nat, coll: nat, err: nat, err': nat)
    requires bpd > 0 && err' < bpd
    requires Times(rate, bpd as real) == coll as real + err as real / PRECISION as real - err' as real / PRECISION as real
    ensures PRECISION * bpd > 0 && Within(rate, Fraction(coll, bpd), Fraction(err, PRECISION * bpd) + Fraction(1, PRECISION))
  {
    var b := bpd as real;
    var share, e, one := Fraction(coll, bpd), Fraction(err, PRECISION * bpd), Fraction(1, PRECISION);
    WholeFraction(coll, bpd);
    RemainderPerPool(err, bpd);
    OnePerPool(bpd);
    DistributeFirst(share, e, b);
    DistributeFirst(rate, one, b);
    FractionNonneg(1, PRECISION);
    hide Times, Fraction;
    ByProduct(rate, share + e, b);
    ByProduct(share, rate + one, b);
  }

  // ----------------------------------------------------------- over every run

  /** How far the snapshots of one depositor may have moved from the ledger. */
  datatype Slip = Slip(held: real, gained: real)

  /** What one transaction adds to it: a depositor's own transaction what reading rounds away or a cutoff
      hides, an offset the deviation of its fraction and its rate and what a second scale change keeps
      it from crediting; and what the slip so far carries over. */
  ghost function SlipAfter(p: Pool, op: Op, a: Address, e: Slip): Slip
    requires Valid(p)
  {
    if ByDepositor(op) && Apply(p, op).Ok? && op.a == a then
      Slip(e.held + Held(p, a) - Compounded(p, a) as real, e.gained + Owed(p, a) - Gain(p, a) as real)
    else if Offsets(p, op) then
      Slip(e.held + Times(CutDeviation(p, op.debt), Held(p, a)),
           e.gained + Times(Fraction(op.coll, p.bpd), e.held) + Times(RateDeviation(p), Held(p, a)) + Uncredited(p, op.coll, a))
    else e
  }

  /** A deposit past a second scale change is credited nothing. */
  ghost function Uncredited(p: Pool, coll: nat, a: Address): real
    requires Valid(p) && p.bpd > 0
  {
    if a in p.deposits && p.snapshots[a].epoch == p.epoch && p.scale - p.snapshots[a].scale > 1 then Times(PerUnit(p, coll), Held(p, a)) else 0.0
  }

  ghost function SlipRun(p: Pool, ops: seq<Op>, a: Address, e: Slip): Slip
    requires Valid(p)
    decreases |ops|
  {
    if ops == [] then e else SlipRun(Next(p, ops[0]), ops[1..], a, SlipAfter(p, ops[0], a, e))
  }

  /** The ledger's entry of `a` is within `e` of what the snapshots stand for. */
  ghost predicate Close(p: Pool, l: Ledger, a: Address, e: Slip)
    requires Valid(p)
  {
    Within(Held(p, a), EntryOf(l, a).held, e.held) && Within(Owed(p, a), EntryOf(l, a).gained, e.gained)
  }

  lemma OwnTransactionClose(p: Pool, l: Ledger, op: Op, e: Slip)
    requires Valid(p) && ByDepositor(op) && Apply(p, op).Ok? && Close(p, l, op.a, e)
    ensures Close(Next(p, op), Post(l, Observed(p, op)), op.a, SlipAfter(p, op, op.a, e))
  {
    hide Valid, Compounded, Gain, Held, Owed, Provide, Withdraw, ClaimGain;
    ApplyIsUpdate(p, op);
    UpdateSelf(p, Apply(p, op).pool, op.a, NewValue(p, op));
    HeldBounds(p, op.a);
    GainAtMostOwed(p, op.a);
  }

  lemma OtherTransactionClose(p: Pool, l: Ledger, op: Op, a: Address, e: Slip)
    requires Valid(p) && Close(p, l, a, e) && !Offsets(p, op) && (ByDepositor(op) ==> op.a != a)
    ensures Close(Next(p, op), Post(l, Observed(p, op)), a, SlipAfter(p, op, a, e))
  {
    hide Compounded, Gain, Held, Owed, Provide, Withdraw, ClaimGain;
    if Apply(p, op).Ok? {
      if ByDepositor(op) {
        ApplyIsUpdate(p, op);
        UpdateOthers(p, Apply(p, op).pool, op.a, NewValue(p, op), a);
      } else if op.RegisterOp? {
        RegisteringChangesNothing(p, op.frontEnd);
      }
    }
  }

  /** One depositor's share in an offset, by the contract and by the ledger. */
  lemma OffsetOneClose(p: Pool, q: Pool, debt: nat, coll: nat, a: Address, x: Entry, e: Slip)
    requires Valid(p) && Valid(q) && CanOffset(p, debt) && Offset(p, debt, coll) == Ok(q)
    requires Within(Held(p, a), x.held, e.held) && Within(Owed(p, a), x.gained, e.gained)
    ensures Within(Held(q, a), Absorb(x, p.bpd, debt, coll).held, e.held + Times(CutDeviation(p, debt), Held(p, a)))
    ensures Within(Owed(q, a), Absorb(x, p.bpd, debt, coll).gained,
                   e.gained + Times(Fraction(coll, p.bpd), e.held) + Times(RateDeviation(p), Held(p, a)) + Uncredited(p, coll, a))
  {
    OffsetOne(p, q, debt, coll, a);
    CutIsClose(p, debt);
    RateIsClose(p, coll);
    HeldBounds(p, a);
    FractionBounds(p.bpd - debt, p.bpd);
    PerUnitNonneg(p, coll);
    FractionNonneg(coll, p.bpd);
    NonnegProduct(PerUnit(p, coll), Held(p, a));
    hide Valid, Held, Owed, Kept, PerUnit, Fraction, CutDeviation, RateDeviation, Offset, CanOffset, Times, Uncredited;
    HeldDrifts(Kept(p, debt), Fraction(p.bpd - debt, p.bpd), CutDeviation(p, debt), Held(p, a), x.held, e.held);
    GainDrifts(PerUnit(p, coll), Fraction(coll, p.bpd), RateDeviation(p), Held(p, a), x.held, e.held);
  }

  /** What an offset does to one depositor's snapshots. */
  lemma OffsetOne(p: Pool, q: Pool, debt: nat, coll: nat, a: Address)
    requires Valid(p) && Valid(q) && CanOffset(p, debt) && Offset(p, debt, coll) == Ok(q)
    ensures Held(q, a) == Times(Kept(p, debt), Held(p, a))
    ensures Owed(q, a) == Owed(p, a) + Times(PerUnit(p, coll), Held(p, a)) - Uncredited(p, coll, a)
  {
    hide HeldFrom, OwedFrom, PerUnit, GainPerUnit, CarriedColl, LossPerUnit, NextP, Cut, FactorOf, LossOf, FrontEndsOk;
    if a in p.deposits {
      assert SnapOk(p, p.snapshots[a]);
      OffsetHeld(p, debt, coll, p.deposits[a], p.snapshots[a]);
      OffsetOwed(p, debt, coll, p.deposits[a], p.snapshots[a]);
    }
  }

  lemma FractionBounds(n: nat, d: nat)
    requires n <= d && d > 0
    ensures 0.0 <= Fraction(n, d) <= 1.0
  {
  }

  lemma FractionNonneg(n: nat, d: nat)
    requires d > 0
    ensures Fraction(n, d) >= 0.0
  {
  }

  lemma CrossDifference(k: real, s: real, h: real, x: real)
    ensures Times(k, h) - Times(s, x) == Times(k - s, h) + Times(s, h - x)
  {
    assert Times(k - s, h) == Times(k, h) - Times(s, h);
    assert Times(s, h - x) == Times(s, h) - Times(s, x);
  }

  lemma HeldDrifts(kept: real, share: real, dev: real, held: real, x: real, e: real)
    requires Within(kept, share, dev) && 0.0 <= share <= 1.0 && held >= 0.0 && Within(held, x, e)
    ensures Within(Times(kept, held), Times(share, x), e + Times(dev, held))
  {
    FirstMono(kept - share, dev, held);
    FirstMono(-dev, kept - share, held);
    TimesMono(share, held - x, e);
    TimesMono(share, -e, held - x);
    FirstMono(share, 1.0, e);
    CrossDifference(kept, share, held, x);
    TimesNegated(share, e);
    NegatedTimes(dev, held);
    assert Times(1.0, e) == e;
  }

  lemma GainDrifts(rate: real, share: real, dev: real, held: real, x: real, e: real)
    requires Within(rate, share, dev) && share >= 0.0 && held >= 0.0 && Within(held, x, e)
    ensures Within(Times(rate, held), Times(share, x), Times(share, e) + Times(dev, held))
  {
    FirstMono(rate - share, dev, held);
    FirstMono(-dev, rate - share, held);
    TimesMono(share, held - x, e);
    TimesMono(share, -e, held - x);
    CrossDifference(rate, share, held, x);
    TimesNegated(share, e);
    NegatedTimes(dev, held);
  }

  lemma OffsetClose(p: Pool, l: Ledger, op: Op, a: Address, e: Slip)
    requires Valid(p) && Offsets(p, op) && Close(p, l, a, e)
    ensures Close(Next(p, op), Post(l, Observed(p, op)), a, SlipAfter(p, op, a, e))
  {
    hide Valid, Held, Owed, Absorb, CutDeviation, RateDeviation, Uncredited, Offset, Times, Fraction;
    OffsetKeepsValid(p, op.debt, op.coll);
    OffsetOneClose(p, Apply(p, op).pool, op.debt, op.coll, a, EntryOf(l, a), e);
    AbsorbAbsent(p.bpd, op.debt, op.coll);
    assert EntryOf(Post(l, Observed(p, op)), a) == Absorb(EntryOf(l, a), p.bpd, op.debt, op.coll);
  }

  lemma AbsorbAbsent(bpd: nat, debt: nat, coll: nat)
    requires bpd > 0
    ensures Absorb(Entry(0.0, 0.0), bpd, debt, coll) == Entry(0.0, 0.0)
  {
  }

  lemma NextClose(p: Pool, l: Ledger, op: Op, a: Address, e: Slip)
    requires Valid(p) && Close(p, l, a, e)
    ensures Close(Next(p, op), Post(l, Observed(p, op)), a, SlipAfter(p, op, a, e))
  {
    hide Valid, Close, SlipAfter, Post, Observed, Apply;
    if Offsets(p, op) {
      OffsetClose(p, l, op, a, e);
    } else if ByDepositor(op) && op.a == a {
      OwnClose(p, l, op, e);
    } else {
      OtherTransactionClose(p, l, op, a, e);
    }
  }

  lemma OwnClose(p: Pool, l: Ledger, op: Op, e: Slip)
    requires Valid(p) && ByDepositor(op) && Close(p, l, op.a, e)
    ensures Close(Next(p, op), Post(l, Observed(p, op)), op.a, SlipAfter(p, op, op.a, e))
  {
    if Apply(p, op).Ok? {
      OwnTransactionClose(p, l, op, e);
    }
  }

  /** Over every run - deposits, withdrawals, claims, offsets, scale changes, emptied pools - the
      snapshots stand for what the ledger holds, up to the slip, which is worked out along the run from what
      each reading and each offset loses. `PoolSlip` bounds it in the deposits and offsets. */
  lemma {:induction false} SnapshotsTrackTheLedger(p: Pool, l: Ledger, ops: seq<Op>, a: Address, e: Slip)
    requires Valid(p) && Close(p, l, a, e)
    ensures Close(Run(p, ops), Books(p, l, ops), a, SlipRun(p, ops, a, e))
    decreases |ops|
  {
    hide Close, SlipAfter, Post, Observed, Next, Valid;
    if ops != [] {
      NextClose(p, l, ops[0], a, e);
      SnapshotsTrackTheLedger(Next(p, ops[0]), Post(l, Observed(p, ops[0])), ops[1..], a, SlipAfter(p, ops[0], a, e));
    }
  }

  /** From the empty pool on: the books balance, and what the contract reads is within the slip of the
      ledger - never more, and less by no more than the reading itself rounds away, which is less than
      one unit unless a cutoff applies. */
  lemma TheLoopIsTracked(ops: seq<Op>, a: Address)
    ensures var p, l, e := Run(Genesis, ops), Books(Genesis, map[], ops), SlipRun(Genesis, ops, a, Slip(0.0, 0.0));
            && Balances(l, p)
            && EntryOf(l, a).held - e.held - (Held(p, a) - Compounded(p, a) as real) <= Compounded(p, a) as real <= EntryOf(l, a).held + e.held
            && EntryOf(l, a).gained - e.gained - (Owed(p, a) - Gain(p, a) as real) <= Gain(p, a) as real <= EntryOf(l, a).gained + e.gained
            && (a in p.deposits && Current(p, a) && Held(p, a).Floor >= p.deposits[a] / SCALE_FACTOR ==> Held(p, a) - Compounded(p, a) as real < 1.0)
  {
    EmptyBooks(Genesis);
    BooksBalance(Genesis, map[], ops);
    SnapshotsTrackTheLedger(Genesis, map[], ops, a, Slip(0.0, 0.0));
    var p := Run(Genesis, ops);
    HeldBounds(p, a);
    GainAtMostOwed(p, a);
    if a in p.deposits {
      CompoundedIsFloorOfHeld(p, a);
    }
  }

  lemma EmptyBooks(p: Pool)
    requires p == Genesis
    ensures Valid(p) && Balances(map[], p) && forall a :: Close(p, map[], a, Slip(0.0, 0.0))
  {
  }

  ghost predicate OnlyOffsets(p: Pool, ops: seq<Op>)
    requires Valid(p)
    decreases |ops|
  {
    ops == [] || (Offsets(p, ops[0]) && OnlyOffsets(Next(p, ops[0]), ops[1..]))
  }

  /** The product of the pool's own shares, and the sum of the deviations. */
  ghost function Shares(p: Pool, ops: seq<Op>): real
    requires Valid(p) && OnlyOffsets(p, ops)
    decreases |ops|
  {
    if ops == [] then 1.0 else Times(Fraction(p.bpd - ops[0].debt, p.bpd), Shares(Next(p, ops[0]), ops[1..]))
  }

  ghost function Deviations(p: Pool, ops: seq<Op>): real
    requires Valid(p) && OnlyOffsets(p, ops)
    decreases |ops|
  {
    if ops == [] then 0.0 else CutDeviation(p, ops[0].debt) + Deviations(Next(p, ops[0]), ops[1..])
  }

  lemma DeviationNonneg(p: Pool, debt: nat)
    requires p.P > 0 && CanOffset(p, debt)
    ensures CutDeviation(p, debt) >= 0.0
  {
    RemainderPerPool(p.errLoss, p.bpd);
    FractionNonneg(1, PRECISION);
    if Partial(p, debt) {
      UnitPositive(p.P, FactorOf(p, debt));
    }
  }

  lemma {:induction false} DeviationsNonneg(p: Pool, ops: seq<Op>)
    requires Valid(p) && OnlyOffsets(p, ops)
    ensures Deviations(p, ops) >= 0.0
    decreases |ops|
  {
    if ops != [] {
      DeviationNonneg(p, ops[0].debt);
      DeviationsNonneg(Next(p, ops[0]), ops[1..]);
    }
  }

  /** Through any sequence of offsets a deposit falls to its initial value times the product of the
      shares of the pool that survive each of them, up to the sum of their deviations times what it was. */
  ghost predicate KeepsTheShare(p: Pool, ops: seq<Op>, a: Address)
    requires Valid(p) && OnlyOffsets(p, ops)
  {
    Within(Held(Run(p, ops), a), Times(Shares(p, ops), Held(p, a)), Times(Deviations(p, ops), Held(p, a)))
  }

  lemma {:induction false} OffsetsKeepTheShare(p: Pool, ops: seq<Op>, a: Address)
    requires Valid(p) && OnlyOffsets(p, ops)
    ensures KeepsTheShare(p, ops, a)
    decreases |ops|
  {
    hide KeepsTheShare;
    if ops == [] {
      NoOffsets(p, ops, a);
    } else {
      OffsetsKeepTheShare(Next(p, ops[0]), ops[1..], a);
      OneMoreShare(p, ops, a);
    }
  }

  lemma OneMoreShare(p: Pool, ops: seq<Op>, a: Address)
    requires Valid(p) && OnlyOffsets(p, ops) && ops != [] && KeepsTheShare(Next(p, ops[0]), ops[1..], a)
    ensures KeepsTheShare(p, ops, a)
  {
    var op, q, rest := ops[0], Next(p, ops[0]), ops[1..];
    FirstShare(p, ops, op, q, rest);
    HeldBounds(p, a);
    OneShare(p, op, a);
    SharesBounds(q, rest);
    DeviationsNonneg(q, rest);
    assert p.P > 0 && CanOffset(p, op.debt) && Valid(q) && OnlyOffsets(q, rest);
    hide Held, Times, Kept, CutDeviation, Fraction, Valid, Next, CanOffset;
    ShareStep(Held(p, a), Held(q, a), Kept(p, op.debt), Fraction(p.bpd - op.debt, p.bpd), CutDeviation(p, op.debt),
              Held(Run(q, rest), a), Shares(q, rest), Deviations(q, rest), Shares(p, ops), Deviations(p, ops));
  }

  lemma NoOffsets(p: Pool, ops: seq<Op>, a: Address)
    requires Valid(p) && ops == []
    ensures KeepsTheShare(p, ops, a)
  {
    HeldBounds(p, a);
    hide Held, Times, Within;
    NoShareLost(Held(p, a), Shares(p, ops), Deviations(p, ops));
  }

  lemma NoShareLost(h: real, share: real, dev: real)
    requires share == 1.0 && dev == 0.0
    ensures Within(h, Times(share, h), Times(dev, h))
  {
  }

  lemma FirstShare(p: Pool, ops: seq<Op>, op: Op, q: Pool, rest: seq<Op>)
    requires Valid(p) && OnlyOffsets(p, ops) && ops != [] && op == ops[0] && q == Next(p, op) && rest == ops[1..]
    ensures Offsets(p, op) && OnlyOffsets(q, rest) && Run(p, ops) == Run(q, rest)
    ensures Shares(p, ops) == Times(Fraction(p.bpd - op.debt, p.bpd), Shares(q, rest))
    ensures Deviations(p, ops) == CutDeviation(p, op.debt) + Deviations(q, rest)
  {
    hide Times, Fraction, CutDeviation, Valid, Next;
  }

  lemma OneShare(p: Pool, op: Op, a: Address)
    requires Valid(p) && Offsets(p, op)
    ensures Held(Next(p, op), a) == Times(Kept(p, op.debt), Held(p, a)) && 0.0 <= Kept(p, op.debt) <= 1.0
    ensures Within(Kept(p, op.debt), Fraction(p.bpd - op.debt, p.bpd), CutDeviation(p, op.debt))
  {
    OffsetKeepsValid(p, op.debt, op.coll);
    KeptBounds(p, op.debt);
    CutIsClose(p, op.debt);
    hide Kept, Held, CutDeviation, Fraction, Valid;
    OffsetOne(p, Next(p, op), op.debt, op.coll, a);
  }

  lemma KeptBounds(p: Pool, debt: nat)
    requires p.P > 0 && CanOffset(p, debt)
    ensures 0.0 <= Kept(p, debt) <= 1.0
  {
    if Partial(p, debt) {
      CutBounds(p.P, FactorOf(p, debt));
    }
  }

  lemma {:induction false} SharesBounds(p: Pool, ops: seq<Op>)
    requires Valid(p) && OnlyOffsets(p, ops)
    ensures 0.0 <= Shares(p, ops) <= 1.0
    decreases |ops|
  {
    hide Times, Fraction, Valid, Next;
    if ops != [] {
      SharesBounds(Next(p, ops[0]), ops[1..]);
      FractionBounds(p.bpd - ops[0].debt, p.bpd);
      ProductBounds(Fraction(p.bpd - ops[0].debt, p.bpd), Shares(Next(p, ops[0]), ops[1..]));
    }
  }

  lemma ProductBounds(x: real, y: real)
    requires 0.0 <= x <= 1.0 && 0.0 <= y <= 1.0
    ensures 0.0 <= Times(x, y) <= 1.0
  {
    FirstMono(x, 1.0, y);
    NonnegProduct(x, y);
  }

  lemma ShareDifference(shares: real, kept: real, share: real, h: real)
    ensures Times(shares, Times(kept, h)) - Times(Times(share, shares), h) == Times(shares, Times(kept - share, h))
  {
    TimesAssoc(shares, share, h);
    assert Times(share, shares) == Times(shares, share);
    assert Times(kept - share, h) == Times(kept, h) - Times(share, h);
    assert Times(shares, Times(kept, h) - Times(share, h)) == Times(shares, Times(kept, h)) - Times(shares, Times(share, h));
  }

  lemma TimesNegated(x: real, y: real)
    ensures Times(x, -y) == -Times(x, y)
  {
  }

  lemma NegatedTimes(x: real, y: real)
    ensures Times(-x, y) == -Times(x, y)
  {
  }

  lemma ShareStep(h: real, h': real, kept: real, share: real, dev: real, end: real, shares: real, devs: real, all: real, total: real)
    requires h >= 0.0 && 0.0 <= kept <= 1.0 && Within(kept, share, dev) && 0.0 <= shares <= 1.0 && devs >= 0.0
    requires h' == Times(kept, h) && Within(end, Times(shares, h'), Times(devs, h'))
    requires all == Times(share, shares) && total == dev + devs
    ensures Within(end, Times(all, h), Times(total, h))
  {
    FirstMono(kept, 1.0, h);
    TimesMono(devs, Times(kept, h), h);
    FirstMono(kept - share, dev, h);
    FirstMono(-dev, kept - share, h);
    NonnegProduct(dev, h);
    FirstMono(shares, 1.0, Times(dev, h));
    TimesMono(shares, Times(kept - share, h), Times(dev, h));
    TimesMono(shares, -Times(dev, h), Times(kept - share, h));
    ShareDifference(shares, kept, share, h);
    assert Times(dev + devs, h) == Times(dev, h) + Times(devs, h);
    TimesNegated(shares, Times(dev, h));
    NegatedTimes(dev, h);
    assert Times(1.0, Times(dev, h)) == Times(dev, h) && Times(1.0, h) == h;
  }
}
