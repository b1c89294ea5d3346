/** How far the contracts' rounded stakes and rewards can move the order of two vaults that are not
    operated on: `ExactStakes` without its exact arithmetic. */
module OrderDrift {
  import opened Arithmetic
  import opened Units
  import opened VaultList
  import opened VaultAccounts
  import opened Liquidation
  import opened VaultRuns
  import PoolModel

  const NICR_PRECISION: nat := 100_000_000_000_000_000_000

  /** `_computeNominalCR` */
  function NominalCR(coll: nat, debt: nat): nat {
    if debt > 0 then coll * NICR_PRECISION / debt else MAX_UINT
  }

  /** The ratio a vault's record stands for at given accumulators. */
  function RatioAt(v: Vault, accColl: nat, accDebt: nat): nat
    requires v.snapColl <= accColl && v.snapDebt <= accDebt
  {
    NominalCR(v.coll + Reward(v.stake, accColl, v.snapColl), v.debt + Reward(v.stake, accDebt, v.snapDebt))
  }

  /** `getNominalICR` of an active vault */
  function NICR(s: System, a: Address): nat
    requires SnapsOk(s) && a in s.vaults
  {
    RatioAt(s.vaults[a], s.accColl, s.accDebt)
  }

  // ------------------------------------------------------- one redistribution

  /** An amount that grows with a stake, the growth rounded to less than one unit. */
  ghost predicate Grows(was: real, now: real, stake: real, per: real) {
    -1.0 <= now - (was + Times(stake, per)) <= 1.0
  }

  /** A stake within `k` of `rate` times the collateral. */
  ghost predicate Near(stake: real, rate: real, coll: real, k: real) {
    -k <= stake - Times(rate, coll) <= k
  }

  /** Positive exactly if the first vault has the higher ratio. */
  ghost function Lead(c1: real, d1: real, c2: real, d2: real): real { Times(c1, d2) - Times(c2, d1) }

  lemma WithinTimes(p: real, k: real, x: real)
    requires -k <= p <= k && x >= 0.0
    ensures -Times(k, x) <= Times(p, x) <= Times(k, x)
  {
    FirstMono(p, k, x);
    FirstMono(-k, p, x);
  }

  lemma AtMost(e: real, x: real)
    requires -1.0 <= e <= 1.0 && x >= 0.0
    ensures -x <= Times(e, x) <= x
  {
    WithinTimes(e, 1.0, x);
  }

  lemma ProductOff(c: real, d: real, u: real, w: real)
    ensures Times(c, d) - Times(u, w) == Times(c - u, d) + Times(d - w, u)
  {
  }

  /** Rounding four amounts by at most one unit each. */
  lemma LeadOfRounded(u1: real, w1: real, u2: real, w2: real, c1: real, d1: real, c2: real, d2: real)
    requires -1.0 <= c1 - u1 <= 1.0 && -1.0 <= d1 - w1 <= 1.0 && -1.0 <= c2 - u2 <= 1.0 && -1.0 <= d2 - w2 <= 1.0
    requires u1 >= 0.0 && u2 >= 0.0 && d1 >= 0.0 && d2 >= 0.0
    ensures var most := c1 + d1 + c2 + d2 + 2.0; -most <= Lead(c1, d1, c2, d2) - Lead(u1, w1, u2, w2) <= most
  {
    hide Times;
    ProductOff(c1, d2, u1, w2);
    ProductOff(c2, d1, u2, w1);
    AtMost(c1 - u1, d2);
    AtMost(d2 - w2, u1);
    AtMost(c2 - u2, d1);
    AtMost(d1 - w1, u2);
  }

  lemma GrownProduct(c: real, s: real, x: real, d: real, r: real, y: real)
    ensures Times(c + Times(s, x), d + Times(r, y))
            == Times(c, d) + Times(y, Times(c, r)) + Times(x, Times(s, d)) + Times(Times(s, r), Times(x, y))
  {
  }

  lemma TimesCommutes(x: real, y: real)
    ensures Times(x, y) == Times(y, x)
  {
  }

  lemma TimesDifference(c: real, x: real, y: real)
    ensures Times(c, x - y) == Times(c, x) - Times(c, y)
  {
  }

  /** Growth in proportion to the stakes, before rounding. */
  lemma LeadOfGrown(c1: real, d1: real, c2: real, d2: real, s1: real, s2: real, x: real, y: real)
    ensures Lead(c1 + Times(s1, x), d1 + Times(s1, y), c2 + Times(s2, x), d2 + Times(s2, y))
            == Lead(c1, d1, c2, d2) + Times(x, Times(s1, d2) - Times(s2, d1)) + Times(y, Times(c1, s2) - Times(c2, s1))
  {
    hide Times;
    GrownProduct(c1, s1, x, d2, s2, y);
    GrownProduct(c2, s2, x, d1, s1, y);
    TimesCommutes(s1, s2);
    TimesDifference(x, Times(s1, d2), Times(s2, d1));
    TimesDifference(y, Times(c1, s2), Times(c2, s1));
  }

  lemma StakeTimes(s: real, rate: real, c: real, d: real)
    ensures Times(s, d) == Times(rate, Times(c, d)) + Times(s - Times(rate, c), d)
  {
  }

  /** With stakes near a common rate the growth stretches the lead by a common factor. */
  lemma LeadOfStakes(c1: real, d1: real, c2: real, d2: real, s1: real, s2: real, rate: real, k: real)
    requires Near(s1, rate, c1, k) && Near(s2, rate, c2, k) && c1 >= 0.0 && c2 >= 0.0 && d1 >= 0.0 && d2 >= 0.0
    ensures -Times(k, d1 + d2) <= Times(s1, d2) - Times(s2, d1) - Times(rate, Lead(c1, d1, c2, d2)) <= Times(k, d1 + d2)
    ensures -Times(k, c1 + c2) <= Times(c1, s2) - Times(c2, s1) <= Times(k, c1 + c2)
  {
    hide Times;
    var p1, p2 := s1 - Times(rate, c1), s2 - Times(rate, c2);
    WithinTimes(p1, k, d2);
    WithinTimes(p2, k, d1);
    WithinTimes(p2, k, c1);
    WithinTimes(p1, k, c2);
    StakeTimes(s1, rate, c1, d2);
    StakeTimes(s2, rate, c2, d1);
    StakeTimes(s2, rate, c2, c1);
    StakeTimes(s1, rate, c1, c2);
    TimesCommutes(c1, s2);
    TimesCommutes(c2, s1);
    TimesCommutes(c1, c2);
    TimesDifference(rate, Times(c1, d2), Times(c2, d1));
    Distribute(k, d1, d2);
    Distribute(k, c1, c2);
  }

  /** How far a lead may be from its exact value after a growth of `x` and `y` per unit of stake. */
  ghost function Slack(c1: real, d1: real, c2: real, d2: real, k: real, x: real, y: real): real {
    Times(x, Times(k, d1 + d2)) + Times(y, Times(k, c1 + c2))
  }

  lemma LeadAfter(c1: real, d1: real, c2: real, d2: real, c1': real, d1': real, c2': real, d2': real,
                  s1: real, s2: real, rate: real, k: real, x: real, y: real)
    requires Near(s1, rate, c1, k) && Near(s2, rate, c2, k) && x >= 0.0 && y >= 0.0 && s1 >= 0.0 && s2 >= 0.0
    requires c1 >= 0.0 && c2 >= 0.0 && d1 >= 0.0 && d2 >= 0.0 && d1' >= 0.0 && d2' >= 0.0
    requires Grows(c1, c1', s1, x) && Grows(c2, c2', s2, x) && Grows(d1, d1', s1, y) && Grows(d2, d2', s2, y)
    ensures var most := Slack(c1, d1, c2, d2, k, x, y) + (c1' + d1' + c2' + d2' + 2.0);
            -most <= Lead(c1', d1', c2', d2') - Times(1.0 + Times(x, rate), Lead(c1, d1, c2, d2)) <= most
  {
    hide Times;
    var lead, was, also := Lead(c1, d1, c2, d2), Times(s1, d2) - Times(s2, d1), Times(c1, s2) - Times(c2, s1);
    NonnegProduct(s1, x);
    NonnegProduct(s2, x);
    LeadOfRounded(c1 + Times(s1, x), d1 + Times(s1, y), c2 + Times(s2, x), d2 + Times(s2, y), c1', d1', c2', d2');
    LeadOfGrown(c1, d1, c2, d2, s1, s2, x, y);
    LeadOfStakes(c1, d1, c2, d2, s1, s2, rate, k);
    hide Lead;
    WithinTimes(was - Times(rate, lead), Times(k, d1 + d2), x);
    WithinTimes(also, Times(k, c1 + c2), y);
    TimesCommutes(was - Times(rate, lead), x);
    TimesCommutes(Times(k, d1 + d2), x);
    TimesCommutes(also, y);
    TimesCommutes(Times(k, c1 + c2), y);
    TimesDifference(x, was, Times(rate, lead));
    OnePlusTimes(x, rate, lead);
  }

  lemma OnePlusTimes(x: real, r: real, z: real)
    ensures Times(1.0 + Times(x, r), z) == z + Times(x, Times(r, z))
  {
  }

  lemma StakeOff(stake: real, q: real, c: real, g: real)
    ensures Times(stake - Times(q, c), g) == Times(stake, g) - Times(Times(q, g), c)
  {
  }

  lemma RateTimes(rate: real, c: real, stake: real, x: real, e: real)
    ensures Times(rate, c + Times(stake, x) + e) == Times(rate, c) + Times(x, Times(rate, stake)) + Times(e, rate)
  {
  }

  /** The rate falls as the collateral grows, and the stake stays as near to it up to one unit more. */
  lemma NearAfter(c: real, c': real, stake: real, rate: real, k: real, x: real)
    requires Near(stake, rate, c, k) && Grows(c, c', stake, x) && x >= 0.0 && rate >= 0.0 && k >= 0.0
    ensures 1.0 + Times(x, rate) >= 1.0
    ensures var rate' := rate / (1.0 + Times(x, rate)); 0.0 <= rate' <= rate && Near(stake, rate', c', k + rate)
  {
    NonnegProduct(x, rate);
    var g, e := 1.0 + Times(x, rate), c' - (c + Times(stake, x));
    var rate' := rate / g;
    TimesQuotient(rate, g);
    SmallerQuotient(rate, g);
    hide Times;
    AtMost(e, rate);
    var off := stake - Times(rate', c');
    StakeOff(stake, rate', c', g);
    OnePlusTimes(x, rate, stake);
    TimesCommutes(stake, g);
    assert c' == c + Times(stake, x) + e;
    RateTimes(rate, c, stake, x, e);
    assert Times(off, g) == stake - Times(rate, c) - Times(e, rate);
    Shrinks(off, g, k + rate);
  }

  lemma SmallerQuotient(rate: real, g: real)
    requires rate >= 0.0 && g >= 1.0
    ensures 0.0 <= rate / g <= rate
  {
    RealMulMono(rate / g, rate, g);
    RealMulMono(0.0, rate / g, g);
    ProductMonotone(rate, 1.0, g);
  }

  lemma Shrinks(off: real, g: real, most: real)
    requires g >= 1.0 && most >= 0.0 && -most <= Times(off, g) <= most
    ensures -most <= off <= most
  {
    if off > most {
      TimesMono(off, 1.0, g);
    } else if off < -most {
      TimesMono(-off, 1.0, g);
    }
  }

  // ------------------------------------------------------------- the contract

  ghost function Coll(s: System, a: Address): real
    requires SnapsOk(s) && a in s.vaults
  {
    EntireColl(s, s.vaults[a]) as real
  }
  ghost function Debt(s: System, a: Address): real
    requires SnapsOk(s) && a in s.vaults
  {
    EntireDebt(s, s.vaults[a]) as real
  }

  ghost function VaultLead(s: System, a: Address, b: Address): real
    requires SnapsOk(s) && a in s.vaults && b in s.vaults
  {
    Lead(Coll(s, a), Debt(s, a), Coll(s, b), Debt(s, b))
  }

  ghost predicate StakeNear(s: System, a: Address, rate: real, k: real)
    requires SnapsOk(s) && a in s.vaults
  {
    Near(s.vaults[a].stake as real, rate, Coll(s, a), k)
  }

  lemma RewardRounds(stake: nat, acc: nat, snap: nat, per: nat)
    requires snap <= acc
    ensures Grows(Reward(stake, acc, snap) as real, Reward(stake, acc + per, snap) as real, stake as real, per as real / PRECISION as real)
  {
    var n, m, unit := stake * (acc - snap), stake * per, PRECISION as real;
    var more := Times(stake as real, per as real / unit);
    RewardGrows(stake, acc, per, snap);
    assert Reward(stake, acc + per, snap) == (n + m) / PRECISION;
    var up := (n + m) / PRECISION - n / PRECISION;
    assert (up - 1) * PRECISION <= m <= (up + 1) * PRECISION;
    TimesAssoc(stake as real, per as real / unit, unit);
    TimesQuotient(per as real, unit);
    ProductAsReal(stake, per);
    assert more * unit == m as real;
    RealMulMono((up - 1) as real, more, unit);
    RealMulMono(more, (up + 1) as real, unit);
  }

  /** The record of `a` is the same in both states, and the accumulators have not fallen. */
  ghost predicate Spared(s: System, t: System, a: Address) {
    && a in s.vaults && a in t.vaults && t.vaults[a] == s.vaults[a]
    && s.accColl <= t.accColl && s.accDebt <= t.accDebt
  }

  /** What every unit of stake has earned, and been charged, from `s` to `t`. */
  ghost function Earned(s: System, t: System): real { (t.accColl - s.accColl) as real / PRECISION as real }
  ghost function Charged(s: System, t: System): real { (t.accDebt - s.accDebt) as real / PRECISION as real }

  lemma AmountGrows(s: System, t: System, a: Address)
    requires SnapsOk(s) && SnapsOk(t) && Spared(s, t, a)
    ensures Grows(Coll(s, a), Coll(t, a), s.vaults[a].stake as real, Earned(s, t))
    ensures Grows(Debt(s, a), Debt(t, a), s.vaults[a].stake as real, Charged(s, t))
  {
    var v := s.vaults[a];
    assert SnapOk(s, v);
    hide Reward;
    RewardRounds(v.stake, s.accColl, v.snapColl, t.accColl - s.accColl);
    RewardRounds(v.stake, s.accDebt, v.snapDebt, t.accDebt - s.accDebt);
  }

  /** An amount and what it grows by. */
  ghost function Grown(was: real, stake: real, per: real): real { was + Times(stake, per) }

  /** What the rounding of the two stakes and of the rewards can make of a lead when every unit of stake
      earns `x` and is charged `y`; known before anything is redistributed. */
  ghost function Most(s: System, a: Address, b: Address, k: real, x: real, y: real): real
    requires SnapsOk(s) && a in s.vaults && b in s.vaults
  {
    var s1, s2 := s.vaults[a].stake as real, s.vaults[b].stake as real;
    Slack(Coll(s, a), Debt(s, a), Coll(s, b), Debt(s, b), k, x, y)
    + Grown(Coll(s, a), s1, x) + Grown(Debt(s, a), s1, y) + Grown(Coll(s, b), s2, x) + Grown(Debt(s, b), s2, y) + 6.0
  }

  /** From `s` to `t` the lead of `a` over `b` is multiplied by a factor at least one that depends on
      neither of them, up to `Most`; so a lead beyond that cannot be lost. */
  ghost predicate LeadKept(s: System, t: System, a: Address, b: Address, rate: real, k: real)
    requires SnapsOk(s) && SnapsOk(t) && Spared(s, t, a) && Spared(s, t, b)
  {
    var factor, most := 1.0 + Times(Earned(s, t), rate), Most(s, a, b, k, Earned(s, t), Charged(s, t));
    && factor >= 1.0
    && -most <= VaultLead(t, a, b) - Times(factor, VaultLead(s, a, b)) <= most
    && (VaultLead(s, a, b) > most ==> VaultLead(t, a, b) > 0.0)
  }

  /** The rate of stakes to collateral once every unit of stake has earned `x`. */
  ghost function Lower(rate: real, x: real): real
    requires 1.0 + Times(x, rate) > 0.0
  {
    rate / (1.0 + Times(x, rate))
  }

  lemma MostCovers(s: System, t: System, a: Address, b: Address, k: real)
    requires SnapsOk(s) && SnapsOk(t) && Spared(s, t, a) && Spared(s, t, b)
    ensures var x, y := Earned(s, t), Charged(s, t);
            Slack(Coll(s, a), Debt(s, a), Coll(s, b), Debt(s, b), k, x, y) + (Coll(t, a) + Debt(t, a) + Coll(t, b) + Debt(t, b) + 2.0)
            <= Most(s, a, b, k, x, y)
  {
    AmountGrows(s, t, a);
    AmountGrows(s, t, b);
    hide EntireColl, EntireDebt, Times, Earned, Charged, Slack;
  }

  lemma SparedKeepLead(s: System, t: System, a: Address, b: Address, rate: real, k: real)
    requires SnapsOk(s) && SnapsOk(t) && Spared(s, t, a) && Spared(s, t, b)
    requires rate >= 0.0 && k >= 0.0 && StakeNear(s, a, rate, k) && StakeNear(s, b, rate, k)
    ensures LeadKept(s, t, a, b, rate, k)
    ensures 0.0 <= Lower(rate, Earned(s, t)) <= rate
    ensures StakeNear(t, a, Lower(rate, Earned(s, t)), k + rate) && StakeNear(t, b, Lower(rate, Earned(s, t)), k + rate)
  {
    var x, y := Earned(s, t), Charged(s, t);
    hide EntireColl, EntireDebt;
    AmountGrows(s, t, a);
    AmountGrows(s, t, b);
    assert x >= 0.0 && y >= 0.0;
    MostCovers(s, t, a, b, k);
    hide Grows, Near, Lead, Slack, Times, Earned, Charged, Most;
    LeadAfter(Coll(s, a), Debt(s, a), Coll(s, b), Debt(s, b), Coll(t, a), Debt(t, a), Coll(t, b), Debt(t, b),
              s.vaults[a].stake as real, s.vaults[b].stake as real, rate, k, x, y);
    NearAfter(Coll(s, a), Coll(t, a), s.vaults[a].stake as real, rate, k, x);
    NearAfter(Coll(s, b), Coll(t, b), s.vaults[b].stake as real, rate, k, x);
    if VaultLead(s, a, b) > 0.0 {
      AtLeastOnce(1.0 + Times(x, rate), VaultLead(s, a, b));
    }
  }

  lemma AtLeastOnce(factor: real, lead: real)
    requires factor >= 1.0 && lead >= 0.0
    ensures Times(factor, lead) >= lead
  {
    FirstMono(1.0, factor, lead);
  }

  // -------------------------------------------------------------- whole runs

  /** The transaction is no borrower's operation on `a`. */
  predicate Leaves(op: Op, a: Address) { op.BatchLiquidateVaults? || op.id != a }

  lemma TransactSpares(s: System, op: Op, a: Address)
    requires SnapsOk(s) && WellFormed(op) && Leaves(op, a) && a in Transact(s, op).vaults
    ensures Spared(s, Transact(s, op), a)
  {
    if op.BatchLiquidateVaults? && Attempt(s, op).Ok? {
      BatchOnlyCloses(Start(s, op.pool.bpd), op.users, op.price, InRecovery(s, op.price));
      var q := Batch(Start(s, op.pool.bpd), op.users, op.price, InRecovery(s, op.price)).seq_;
      PayOutSpares(q.system, q.totals);
    }
  }

  lemma PayOutSpares(s: System, v: Values)
    requires PayOut(s, v).Ok?
    ensures var t := PayOut(s, v).system; t.vaults == s.vaults && s.accColl <= t.accColl && s.accDebt <= t.accDebt
  {
  }

  lemma {:induction false} RunSpares(s: System, ops: seq<Op>, a: Address)
    requires Valid(s) && AllWellFormed(ops) && (forall op :: op in ops ==> Leaves(op, a)) && a in Run(s, ops).vaults
    ensures Spared(s, Run(s, ops), a)
    decreases |ops|
  {
    if ops != [] {
      TransactKeeps(s, ops[0]);
      RunSpares(Transact(s, ops[0]), ops[1..], a);
      TransactSpares(s, ops[0], a);
    }
  }

  lemma StakeRounds(coll: nat, n: nat, d: nat)
    requires d > 0
    ensures n as real / d as real >= 0.0 && Near((coll * n / d) as real, n as real / d as real, coll as real, 1.0)
  {
    var rate, whole := n as real / d as real, coll as real;
    QuotientMonotone(0.0, n as real, d as real);
    FloorOfQuotient(coll * n, d);
    ProductAsReal(coll, n);
    TimesQuotient(n as real, d as real);
    TimesAssoc(whole, rate, d as real);
    TimesCommutes(whole, rate);
    assert Times(rate, whole) * d as real == (coll * n) as real;
    SameQuotient((coll * n) as real, d as real, Times(rate, whole));
  }

  /** A stake just computed is within one unit of the snapshot rate. */
  lemma NewStakeIsNear(s: System, coll: nat)
    requires CanStake(s)
    ensures var rate := if s.collSnapshot == 0 then 1.0 else s.stakesSnapshot as real / s.collSnapshot as real;
            rate >= 0.0 && Near(NewStake(s, coll) as real, rate, coll as real, 1.0)
  {
    if s.collSnapshot > 0 {
      StakeRounds(coll, s.stakesSnapshot, s.collSnapshot);
    }
  }

  // ------------------------------------------------------ leads and NICRs

  ghost function DebtOf(s: System, a: Address): nat
    requires SnapsOk(s) && a in s.vaults
  {
    EntireDebt(s, s.vaults[a])
  }

  lemma LeadInUnits(c1: nat, d1: nat, c2: nat, d2: nat)
    ensures Lead(c1 as real, d1 as real, c2 as real, d2 as real) == (c1 * d2 - c2 * d1) as real
  {
    ProductAsReal(c1, d2);
    ProductAsReal(c2, d1);
  }

  /** `n` is the ratio of `c` to `d`, rounded down. */
  lemma RatioBounds(c: nat, d: nat)
    requires d > 0
    ensures NominalCR(c, d) * d <= c * 100_000_000_000_000_000_000 < (NominalCR(c, d) + 1) * d
  {
    DivBounds(c * NICR_PRECISION, d);
  }

  lemma CrossRatios(n1: nat, c1: nat, d1: nat, n2: nat, c2: nat, d2: nat)
    requires n1 * d1 <= c1 * NICR_PRECISION < (n1 + 1) * d1 && n2 * d2 <= c2 * NICR_PRECISION < (n2 + 1) * d2 && d1 > 0 && d2 > 0
    ensures (n1 - n2 - 1) * (d1 * d2) < NICR_PRECISION * (c1 * d2 - c2 * d1) < (n1 - n2 + 1) * (d1 * d2)
  {
    Crossed(n1, c1, d1, n2, c2, d2);
    Crossed(n2, c2, d2, n1, c1, d1);
    assert (n2 - n1 - 1) * (d2 * d1) == -((n1 - n2 + 1) * (d1 * d2));
    assert NICR_PRECISION * (c2 * d1 - c1 * d2) == -(NICR_PRECISION * (c1 * d2 - c2 * d1));
  }

  lemma Crossed(n1: nat, c1: nat, d1: nat, n2: nat, c2: nat, d2: nat)
    requires n1 * d1 <= c1 * NICR_PRECISION && c2 * NICR_PRECISION < (n2 + 1) * d2 && d1 > 0 && d2 > 0
    ensures (n1 - n2 - 1) * (d1 * d2) < NICR_PRECISION * (c1 * d2 - c2 * d1)
  {
    MulMono(n1 * d1, c1 * NICR_PRECISION, d2);
    MulMono(c2 * NICR_PRECISION + 1, (n2 + 1) * d2, d1);
    FiveTerms(n1, c1, d1, n2, c2, d2, NICR_PRECISION);
  }

  lemma FiveTerms(n1: int, c1: int, d1: int, n2: int, c2: int, d2: int, w: int)
    ensures (n1 - n2 - 1) * (d1 * d2) == n1 * d1 * d2 - (n2 + 1) * d2 * d1
    ensures w * (c1 * d2 - c2 * d1) == c1 * w * d2 - c2 * w * d1
    ensures (c2 * w + 1) * d1 == c2 * w * d1 + d1
  {
  }

  lemma LeadOfRatios(c1: nat, d1: nat, c2: nat, d2: nat, n1: nat, n2: nat, lead: real)
    requires d1 > 0 && d2 > 0 && n1 == NominalCR(c1, d1) && n2 == NominalCR(c2, d2)
    requires lead == Lead(c1 as real, d1 as real, c2 as real, d2 as real)
    ensures (lead >= 0.0 ==> n1 >= n2) && (n1 > n2 ==> lead > 0.0)
    ensures ((n1 - n2 - 1) * (d1 * d2)) as real < Times(NICR_PRECISION as real, lead)
  {
    RatioBounds(c1, d1);
    RatioBounds(c2, d2);
    LeadInUnits(c1, d1, c2, d2);
    hide NominalCR, Lead, Times;
    CrossRatios(n1, c1, d1, n2, c2, d2);
    MulMono(1, d1, d2);
    ScaledLead(n1, n2, d1 * d2, c1 * d2 - c2 * d1, NICR_PRECISION);
  }

  /** The lead decides the order of the NICRs, and a gap between these bounds the lead from below. */
  lemma LeadAndRatios(s: System, a: Address, b: Address)
    requires SnapsOk(s) && a in s.vaults && b in s.vaults && DebtOf(s, a) > 0 && DebtOf(s, b) > 0
    ensures VaultLead(s, a, b) >= 0.0 ==> NICR(s, a) >= NICR(s, b)
    ensures NICR(s, a) > NICR(s, b) ==> VaultLead(s, a, b) > 0.0
    ensures ((NICR(s, a) - NICR(s, b) - 1) * (DebtOf(s, a) * DebtOf(s, b))) as real < Times(NICR_PRECISION as real, VaultLead(s, a, b))
  {
    assert NICR(s, a) == NominalCR(EntireColl(s, s.vaults[a]), DebtOf(s, a));
    assert NICR(s, b) == NominalCR(EntireColl(s, s.vaults[b]), DebtOf(s, b));
    assert Debt(s, a) == DebtOf(s, a) as real && Debt(s, b) == DebtOf(s, b) as real;
    hide NICR, NominalCR, Lead, Times, EntireColl, DebtOf, Debt;
    LeadOfRatios(EntireColl(s, s.vaults[a]), DebtOf(s, a), EntireColl(s, s.vaults[b]), DebtOf(s, b), NICR(s, a), NICR(s, b), VaultLead(s, a, b));
  }

  lemma ScaledLead(n1: int, n2: int, dd: int, lead: int, w: int)
    requires dd > 0 && w > 0 && (n1 - n2 - 1) * dd < w * lead < (n1 - n2 + 1) * dd
    ensures lead >= 0 ==> n1 >= n2
    ensures n1 > n2 ==> lead > 0
    ensures ((n1 - n2 - 1) * dd) as real < Times(w as real, lead as real)
  {
    assert (w * lead) as real == Times(w as real, lead as real);
    if lead >= 0 && n1 < n2 {
      MulMono(n1 - n2 + 1, 0, dd);
      MulMono(0, lead, w);
      assert false;
    }
    if n1 > n2 && lead <= 0 {
      MulMono(0, n1 - n2 - 1, dd);
      MulMono(lead, 0, w);
      assert false;
    }
  }

  // ------------------------------------------- the order after one liquidation

  /** What a batch adds to the accumulators, worked out before it is paid out. */
  function Added(s: System, users: seq<Address>, price: nat, pool: PoolModel.Pool): (nat, nat)
    requires SnapsOk(s) && price > 0
  {
    var r := Batch(Start(s, pool.bpd), users, price, InRecovery(s, price));
    if r.Reverted? || r.seq_.totals.debtToRedistribute == 0 || r.seq_.system.totalStakes == 0 then (0, 0)
    else
      var q := r.seq_;
      (PerUnit(q.totals.collToRedistribute, q.system.errColl, q.system.totalStakes),
       PerUnit(q.totals.debtToRedistribute, q.system.errDebt, q.system.totalStakes))
  }

  /** The ratio of a vault that a batch spares, from its record before and what the batch adds. */
  function RatioAfter(s: System, a: Address, added: (nat, nat)): nat
    requires SnapsOk(s) && a in s.vaults
  {
    assert SnapOk(s, s.vaults[a]);
    RatioAt(s.vaults[a], s.accColl + added.0, s.accDebt + added.1)
  }

  lemma BatchAdds(s: System, users: seq<Address>, price: nat, pool: PoolModel.Pool)
    requires SnapsOk(s) && price > 0 && BatchLiquidate(s, users, price, pool).Ok?
    ensures var t, added := BatchLiquidate(s, users, price, pool).system, Added(s, users, price, pool);
            && t.accColl == s.accColl + added.0 && t.accDebt == s.accDebt + added.1
            && forall a :: a in t.vaults ==> a in s.vaults && t.vaults[a] == s.vaults[a]
  {
    BatchOnlyCloses(Start(s, pool.bpd), users, price, InRecovery(s, price));
    hide Batch, PoolModel.Offset, PerUnit, Carry;
  }

  lemma RatioIsAfter(s: System, users: seq<Address>, price: nat, pool: PoolModel.Pool, a: Address)
    requires SnapsOk(s) && price > 0 && BatchLiquidate(s, users, price, pool).Ok?
    requires a in BatchLiquidate(s, users, price, pool).system.vaults
    ensures var t := BatchLiquidate(s, users, price, pool).system;
            SnapsOk(t) && a in s.vaults && NICR(t, a) == RatioAfter(s, a, Added(s, users, price, pool))
  {
    BatchAdds(s, users, price, pool);
    hide BatchLiquidate, Added;
    AddedKeepsSnaps(s, BatchLiquidate(s, users, price, pool).system);
  }

  ghost function Ratios(t: System): Address -> nat
    requires SnapsOk(t)
  {
    (a: Address) => if a in t.vaults then NICR(t, a) else 0
  }

  ghost predicate InOrderAfter(s: System, added: (nat, nat), a: Address, b: Address)
    requires SnapsOk(s)
  {
    a in s.vaults && b in s.vaults && RatioAfter(s, a, added) >= RatioAfter(s, b, added)
  }

  /** Exactly when a list of vaults that a batch spares is sorted afterwards: every two neighbours are in
      order at the accumulators as the batch will leave them. */
  lemma LiquidationKeepsListSorted(s: System, users: seq<Address>, price: nat, pool: PoolModel.Pool, order: seq<Address>)
    requires SnapsOk(s) && price > 0 && BatchLiquidate(s, users, price, pool).Ok?
    requires forall i :: 0 <= i < |order| ==> order[i] in BatchLiquidate(s, users, price, pool).system.vaults
    ensures SnapsOk(BatchLiquidate(s, users, price, pool).system)
    ensures Descending(order, Ratios(BatchLiquidate(s, users, price, pool).system))
            <==> forall i :: 0 < i < |order| ==> InOrderAfter(s, Added(s, users, price, pool), order[i - 1], order[i])
  {
    BatchAdds(s, users, price, pool);
    var t, added := BatchLiquidate(s, users, price, pool).system, Added(s, users, price, pool);
    AddedKeepsSnaps(s, t);
    hide BatchLiquidate, Added, RatioAt, NICR, RatioAfter, SnapsOk, Descending;
    NeighboursSuffice(order, Ratios(t));
    forall i | 0 < i < |order| ensures Ratios(t)(order[i - 1]) >= Ratios(t)(order[i]) <==> InOrderAfter(s, added, order[i - 1], order[i]) {
      RatioIsAfter(s, users, price, pool, order[i - 1]);
      RatioIsAfter(s, users, price, pool, order[i]);
    }
  }

  lemma AddedKeepsSnaps(s: System, t: System)
    requires SnapsOk(s) && s.accColl <= t.accColl && s.accDebt <= t.accDebt
    requires forall a :: a in t.vaults ==> a in s.vaults && t.vaults[a] == s.vaults[a]
    ensures SnapsOk(t)
  {
    forall a | a in t.vaults ensures SnapOk(t, t.vaults[a]) {
      assert SnapOk(s, s.vaults[a]);
    }
  }

  lemma {:induction false} NeighboursSuffice(order: seq<Address>, nicr: Address -> nat)
    ensures Descending(order, nicr) <==> forall i :: 0 < i < |order| ==> nicr(order[i - 1]) >= nicr(order[i])
  {
    if forall i :: 0 < i < |order| ==> nicr(order[i - 1]) >= nicr(order[i]) {
      forall i, j | 0 <= i < j < |order| ensures nicr(order[i]) >= nicr(order[j]) {
        DownFrom(order, nicr, i, j);
      }
    }
  }

  lemma {:induction false} DownFrom(order: seq<Address>, nicr: Address -> nat, i: nat, j: nat)
    requires i < j < |order| && forall k :: 0 < k < |order| ==> nicr(order[k - 1]) >= nicr(order[k])
    ensures nicr(order[i]) >= nicr(order[j])
    decreases j - i
  {
    if i + 1 < j {
      DownFrom(order, nicr, i, j - 1);
    }
  }

  // ------------------------------------------- the order over a whole run

  /** Every vault of the list is active in `s` and in the end, and no borrower operates on one meanwhile. */
  ghost predicate LeftAlone(s: System, ops: seq<Op>, order: seq<Address>)
    requires Valid(s) && AllWellFormed(ops)
  {
    forall i :: 0 <= i < |order| ==> order[i] in Run(s, ops).vaults && forall op :: op in ops ==> Leaves(op, order[i])
  }

  ghost predicate SortedThroughout(s: System, ops: seq<Op>, order: seq<Address>)
    requires Valid(s) && AllWellFormed(ops)
    decreases |ops|
  {
    && Descending(order, Ratios(s))
    && (ops != [] ==>
         (TransactKeeps(s, ops[0]);
          SortedThroughout(Transact(s, ops[0]), ops[1..], order)))
  }

  ghost predicate NeighboursInOrder(s: System, op: Op, order: seq<Address>)
    requires SnapsOk(s) && WellFormed(op)
  {
    op.BatchLiquidateVaults? && Attempt(s, op).Ok? ==>
      forall i :: 0 < i < |order| ==> InOrderAfter(s, Added(s, op.users, op.price, op.pool), order[i - 1], order[i])
  }

  /** At every liquidation of the run all neighbours are in order at the accumulators as it will leave them. */
  ghost predicate EachKeepsOrder(s: System, ops: seq<Op>, order: seq<Address>)
    requires Valid(s) && AllWellFormed(ops)
    decreases |ops|
  {
    ops != [] ==>
      (TransactKeeps(s, ops[0]);
       NeighboursInOrder(s, ops[0], order) && EachKeepsOrder(Transact(s, ops[0]), ops[1..], order))
  }

  lemma LeftAloneNext(s: System, ops: seq<Op>, order: seq<Address>)
    requires Valid(s) && AllWellFormed(ops) && ops != [] && LeftAlone(s, ops, order)
    ensures Valid(Transact(s, ops[0])) && LeftAlone(Transact(s, ops[0]), ops[1..], order)
    ensures forall i :: 0 <= i < |order| ==> Spared(s, Transact(s, ops[0]), order[i])
  {
    TransactKeeps(s, ops[0]);
    var t := Transact(s, ops[0]);
    forall i | 0 <= i < |order| ensures order[i] in Run(t, ops[1..]).vaults && Spared(s, t, order[i]) {
      RunSpares(t, ops[1..], order[i]);
      TransactSpares(s, ops[0], order[i]);
    }
  }

  /** One transaction keeps the list sorted exactly when it is no liquidation, or one that keeps neighbours in order. */
  lemma TransactKeepsOrder(s: System, op: Op, order: seq<Address>)
    requires Valid(s) && WellFormed(op) && SnapsOk(Transact(s, op)) && Descending(order, Ratios(s))
    requires forall i :: 0 <= i < |order| ==> Spared(s, Transact(s, op), order[i])
    ensures Descending(order, Ratios(Transact(s, op))) <==> NeighboursInOrder(s, op, order)
  {
    var t := Transact(s, op);
    if op.BatchLiquidateVaults? && Attempt(s, op).Ok? {
      LiquidationKeepsListSorted(s, op.users, op.price, op.pool, order);
    } else {
      OnlyLiquidationsAccumulate(s, op);
      hide Transact, RatioAt;
      assert forall i :: 0 <= i < |order| ==> Ratios(t)(order[i]) == Ratios(s)(order[i]);
    }
  }

  lemma OnlyLiquidationsAccumulate(s: System, op: Op)
    requires SnapsOk(s) && WellFormed(op) && (op.BatchLiquidateVaults? ==> Attempt(s, op).Revert?)
    ensures Transact(s, op).accColl == s.accColl && Transact(s, op).accDebt == s.accDebt
  {
  }

  /** So a sorted list of vaults that are left alone is sorted in every state of a run exactly when each
      liquidation of the run keeps its neighbours in order. */
  lemma {:induction false} RunSortedExactly(s: System, ops: seq<Op>, order: seq<Address>)
    requires Valid(s) && AllWellFormed(ops) && LeftAlone(s, ops, order) && Descending(order, Ratios(s))
    ensures SortedThroughout(s, ops, order) <==> EachKeepsOrder(s, ops, order)
    decreases |ops|
  {
    if ops != [] {
      LeftAloneNext(s, ops, order);
      TransactKeepsOrder(s, ops[0], order);
      var t := Transact(s, ops[0]);
      hide NeighboursInOrder, LeftAlone, Transact;
      if Descending(order, Ratios(t)) {
        RunSortedExactly(t, ops[1..], order);
      } else {
        assert !SortedThroughout(t, ops[1..], order);
      }
    }
  }
}
