/** Each Stability Pool transaction from outside: exactly when it goes through, and what can be read
    afterwards, in amounts. */
module PoolOperations {
  import opened Arithmetic
  import opened Units
  import opened VaultList
  import opened PoolModel
  import opened PoolRuns
  import opened PoolStakes

  // ------------------------------------------------------------------ reading

  /** `x` is `n / d`, rounded down, unless that is less than a billionth of `initial`; then it is 0. */
  predicate FloorOrNothing(x: nat, n: nat, d: nat, initial: nat) {
    if n < initial / 1_000_000_000 * d then x == 0 else x * d <= n < (x + 1) * d
  }

  /** What a recorded amount reads as: at the product of now against that of then, through at most one scale
      change, which is a factor of a billion; otherwise, or in a later epoch, as nothing. */
  lemma ReadingExactly(p: Pool, initial: nat, snap: Snapshot)
    requires SnapOk(p, snap)
    ensures var x := CompoundedFrom(p, initial, snap);
            if snap.epoch == p.epoch && p.scale == snap.scale then FloorOrNothing(x, initial * p.P, snap.P, initial)
            else if snap.epoch == p.epoch && p.scale == snap.scale + 1 then FloorOrNothing(x, initial * p.P, snap.P * 1_000_000_000, initial)
            else x == 0
  {
    var n := initial * p.P;
    ReadsNow(n, snap.P, initial);
    ReadsNext(n, snap.P, initial);
    hide FloorOrNothing;
  }

  lemma ReadsNow(n: nat, d: nat, initial: nat)
    requires d > 0
    ensures FloorOrNothing(if n / d < initial / SCALE_FACTOR then 0 else n / d, n, d, initial)
  {
    FloorAgainst(n, d, initial / SCALE_FACTOR);
  }

  lemma ReadsNext(n: nat, d: nat, initial: nat)
    requires d > 0
    ensures FloorOrNothing(if n / d / SCALE_FACTOR < initial / SCALE_FACTOR then 0 else n / d / SCALE_FACTOR, n, d * 1_000_000_000, initial)
  {
    NestedDivision(n, d, SCALE_FACTOR);
    ReadsNow(n, SCALE_FACTOR * d, initial);
    assert SCALE_FACTOR * d == d * 1_000_000_000;
  }

  lemma FloorAgainst(n: nat, d: nat, least: nat)
    requires d > 0
    ensures n / d * d <= n < (n / d + 1) * d
    ensures n / d < least <==> n < least * d
  {
    DivBounds(n, d);
    MulMono(n / d + 1, least, d);
    MulMono(least, n / d, d);
  }

  /** What a gain reads as: the deposit's part of what the sums have grown by since, the next scale's a
      billionth of it, rounded down. */
  lemma GainExactly(p: Pool, initial: nat, snap: Snapshot)
    requires SnapOk(p, snap)
    ensures var x, span := GainFrom(p, initial, snap), SumAt(p, snap.epoch, snap.scale) - snap.S + SumAt(p, snap.epoch, snap.scale + 1) / 1_000_000_000;
            x * (snap.P * 1_000_000_000_000_000_000) <= initial * span < (x + 1) * (snap.P * 1_000_000_000_000_000_000)
  {
    var span := SumAt(p, snap.epoch, snap.scale) - snap.S + SumAt(p, snap.epoch, snap.scale + 1) / SCALE_FACTOR;
    NestedDivision(initial * span, snap.P, PRECISION);
    DivBounds(initial * span, PRECISION * snap.P);
    assert PRECISION * snap.P == snap.P * 1_000_000_000_000_000_000;
    hide SumAt;
  }

  // ------------------------------------------------------- depositors

  /** Prices, sums and remainders, and who is registered: no depositor moves them. */
  predicate SameTracking(p: Pool, q: Pool) {
    && q.P == p.P && q.scale == p.scale && q.epoch == p.epoch && q.sums == p.sums && q.errColl == p.errColl && q.errLoss == p.errLoss
    && q.frontEnds.registered == p.frontEnds.registered
  }

  /** `a` ends with `value` on deposit under `f`, whose stake becomes `stake`; the gain is paid out; and
      nobody else's deposit, gain, tag or stake is touched. */
  ghost predicate Settles(p: Pool, q: Pool, a: Address, value: nat, f: Address, stake: nat)
    requires Valid(p) && Valid(q)
  {
    && SameTracking(p, q) && q.rbtc == p.rbtc - Gain(p, a)
    && Compounded(q, a) == value && Gain(q, a) == 0 && (a in q.deposits <==> value > 0) && (value > 0 ==> TagOf(q, a) == f)
    && StakeOf(q, f) == stake && (forall g :: g != f ==> StakeOf(q, g) == StakeOf(p, g))
    && forall b :: b != a ==> (b in q.deposits <==> b in p.deposits) && Compounded(q, b) == Compounded(p, b) && Gain(q, b) == Gain(p, b) && TagOf(q, b) == TagOf(p, b)
  }

  lemma SettleSettles(p: Pool, a: Address, bpd: nat, value: nat, f: Address, stake: nat)
    requires Valid(p) && Gain(p, a) <= p.rbtc
    ensures var q := Settle(p, a, bpd, p.rbtc - Gain(p, a), value, f, stake); Settles(p, q, a, value, f, stake) && q.bpd == bpd
  {
    hide Compounded, Gain, StakeOf, Valid, Updated, Settled;
    var q := Settle(p, a, bpd, p.rbtc - Gain(p, a), value, f, stake);
    SettleMoves(p, a, bpd, p.rbtc - Gain(p, a), value, f, stake);
    SettledIsUpdate(p, a, bpd, p.rbtc - Gain(p, a), value, f, stake);
    SettledStakes(p, a, bpd, p.rbtc - Gain(p, a), value, f, stake);
    UpdateSelf(p, q, a, value);
    forall b | b != a ensures (b in q.deposits <==> b in p.deposits) && Compounded(q, b) == Compounded(p, b) && Gain(q, b) == Gain(p, b) {
      UpdateOthers(p, q, a, value, b);
    }
    hide Settle;
  }

  lemma SettleMoves(p: Pool, a: Address, bpd: nat, rbtc: nat, value: nat, f: Address, stake: nat)
    requires Valid(p)
    ensures var q := Settle(p, a, bpd, rbtc, value, f, stake);
            SameTracking(p, q) && q.bpd == bpd && q.rbtc == rbtc && (a in q.deposits <==> value > 0)
  {
    hide Valid;
  }

  /** A deposit needs a positive amount, a depositor who is no front end, and no tag or a registered one; the
      tag counts only for a new depositor. */
  lemma ProvideExactly(p: Pool, a: Address, amount: nat, tag: Address)
    requires Valid(p)
    ensures Provide(p, a, amount, tag).Ok?
            <==> amount > 0 && a !in p.frontEnds.registered && (tag == NULL || tag in p.frontEnds.registered) && Gain(p, a) <= p.rbtc
    ensures var r, f := Provide(p, a, amount, tag), if a in p.deposits then TagOf(p, a) else tag;
            r.Ok? ==> Settles(p, r.pool, a, Compounded(p, a) + amount, f, StakeOf(p, f) + amount) && r.pool.bpd == p.bpd + amount
  {
    hide Compounded, Gain, StakeOf, Valid, Settle, Settles;
    var f := if a in p.deposits then TagOf(p, a) else tag;
    if Provide(p, a, amount, tag).Ok? {
      SettleSettles(p, a, p.bpd + amount, Compounded(p, a) + amount, f, StakeOf(p, f) + amount);
    }
  }

  /** A withdrawal pays the amount asked for or, if that is less, all there is; pool, stake and RBTC must
      have it. */
  lemma WithdrawExactly(p: Pool, a: Address, amount: nat)
    requires Valid(p)
    ensures var paid := if amount < Compounded(p, a) then amount else Compounded(p, a);
            && (Withdraw(p, a, amount).Ok? <==> a in p.deposits && paid <= p.bpd && paid <= StakeOf(p, TagOf(p, a)) && Gain(p, a) <= p.rbtc)
            && (Withdraw(p, a, amount).Ok? ==>
                 Settles(p, Withdraw(p, a, amount).pool, a, Compounded(p, a) - paid, TagOf(p, a), StakeOf(p, TagOf(p, a)) - paid)
                 && Withdraw(p, a, amount).pool.bpd == p.bpd - paid)
  {
    hide Compounded, Gain, StakeOf, Valid, Settle, Settles;
    var f, paid := TagOf(p, a), if amount < Compounded(p, a) then amount else Compounded(p, a);
    if Withdraw(p, a, amount).Ok? {
      SettleSettles(p, a, p.bpd - paid, Compounded(p, a) - paid, f, StakeOf(p, f) - paid);
    }
  }

  /** Moving a gain to a vault needs a gain, and the RBTC for it; deposit and stake are recorded anew as they read. */
  lemma ClaimExactly(p: Pool, a: Address)
    requires Valid(p)
    ensures ClaimGain(p, a).Ok? <==> a in p.deposits && 0 < Gain(p, a) <= p.rbtc
    ensures var r, f := ClaimGain(p, a), TagOf(p, a);
            r.Ok? ==> Settles(p, r.pool, a, Compounded(p, a), f, StakeOf(p, f)) && r.pool.bpd == p.bpd
  {
    hide Compounded, Gain, StakeOf, Valid, Settle, Settles;
    if ClaimGain(p, a).Ok? {
      SettleSettles(p, a, p.bpd, Compounded(p, a), TagOf(p, a), StakeOf(p, TagOf(p, a)));
    }
  }

  /** Nobody with a deposit becomes a front end, and nobody twice. */
  lemma RegisterExactly(p: Pool, a: Address)
    ensures Register(p, a).Ok? <==> a !in p.frontEnds.registered && a !in p.deposits
    ensures Register(p, a).Ok? ==>
              Register(p, a).pool == p.(frontEnds := FrontEnds(p.frontEnds.registered + {a}, p.frontEnds.tags, p.frontEnds.stakes))
  {
  }

  // ------------------------------------------------------------------ offsets

  /** The loss of every BPD, in units of 10^-18: all of it when the pool is emptied, and otherwise rounded
      up, never exactly, the excess carried to the next offset. */
  predicate LossIs(bpd: nat, before: nat, debt: nat, loss: nat, after: nat) {
    if debt == bpd then loss == 1_000_000_000_000_000_000 && after == 0
    else loss * bpd + before == debt * 1_000_000_000_000_000_000 + after && 0 < after <= bpd
  }

  lemma LossExactly(p: Pool, debt: nat)
    requires CanOffset(p, debt)
    ensures LossIs(p.bpd, p.errLoss, debt, LossPerUnit(p.bpd, p.errLoss, debt).0, LossPerUnit(p.bpd, p.errLoss, debt).1)
  {
    if debt < p.bpd {
      DivBounds(debt * PRECISION - p.errLoss, p.bpd);
    }
  }

  /** The product after an offset that leaves `factor` of every unit: rounded down, and a billion times that
      at the next scale as soon as it falls below a billion; a new epoch starts at one whole, at scale 0. */
  predicate ProductIs(p: Pool, q: Pool, factor: nat) {
    var n := p.P * factor;
    if factor == 0 then q.epoch == p.epoch + 1 && q.scale == 0 && q.P == 1_000_000_000_000_000_000
    else
      && q.epoch == p.epoch
      && if n < 1_000_000_000_000_000_000_000_000_000
         then q.scale == p.scale + 1 && q.P * 1_000_000_000 <= n < (q.P + 1) * 1_000_000_000
         else q.scale == p.scale && q.P * 1_000_000_000_000_000_000 <= n < (q.P + 1) * 1_000_000_000_000_000_000
  }

  /** No product can be lost: it would have to fall below a billionth of the last digit. */
  predicate Vanishes(p: Pool, factor: nat) { factor > 0 && p.P * factor < 1_000_000_000 }

  lemma NextPExactly(P: nat, factor: nat)
    ensures var n := P * factor;
            if n < 1_000_000_000_000_000_000_000_000_000
            then ScaleStep(P, factor) == 1 && NextP(P, factor) * 1_000_000_000 <= n < (NextP(P, factor) + 1) * 1_000_000_000
            else ScaleStep(P, factor) == 0 && NextP(P, factor) * 1_000_000_000_000_000_000 <= n < (NextP(P, factor) + 1) * 1_000_000_000_000_000_000
  {
    var n := P * factor;
    FloorAgainst(n, PRECISION, SCALE_FACTOR);
    assert n * SCALE_FACTOR / PRECISION == n / SCALE_FACTOR by {
      DivBounds(n, SCALE_FACTOR);
      UniqueQuotient(n * SCALE_FACTOR, PRECISION, n / SCALE_FACTOR);
    }
    DivBounds(n, SCALE_FACTOR);
  }

  /** The sums, balances and remainders after an offset that credits `gain` to every unit. */
  ghost predicate Credits(p: Pool, q: Pool, debt: nat, coll: nat, gain: nat) {
    && gain * p.bpd + q.errColl == coll * 1_000_000_000_000_000_000 + p.errColl && q.errColl < p.bpd
    && (forall e: nat, s: nat :: SumAt(q, e, s) == SumAt(p, e, s) + if e == p.epoch && s == p.scale then gain * p.P else 0)
    && q.bpd == p.bpd - debt && q.rbtc == p.rbtc + coll
    && q.deposits == p.deposits && q.snapshots == p.snapshots && q.frontEnds == p.frontEnds
  }

  /** Exactly when the pool takes an offset, and what it then is. */
  lemma OffsetExactly(p: Pool, debt: nat, coll: nat) returns (loss: nat, after: nat, gain: nat)
    requires p.bpd > 0 && debt > 0
    ensures CanOffset(p, debt) <==> debt <= p.bpd && (debt < p.bpd ==> p.errLoss <= debt * 1_000_000_000_000_000_000)
    ensures CanOffset(p, debt) ==> LossIs(p.bpd, p.errLoss, debt, loss, after) && loss <= 1_000_000_000_000_000_000
    ensures Offset(p, debt, coll).Ok? <==> CanOffset(p, debt) && !Vanishes(p, 1_000_000_000_000_000_000 - loss)
    ensures var r := Offset(p, debt, coll);
            r.Ok? ==> ProductIs(p, r.pool, 1_000_000_000_000_000_000 - loss) && Credits(p, r.pool, debt, coll, gain) && r.pool.errLoss == after
  {
    loss, after, gain := 0, 0, GainPerUnit(p, coll);
    if CanOffset(p, debt) {
      loss, after := LossPerUnit(p.bpd, p.errLoss, debt).0, LossPerUnit(p.bpd, p.errLoss, debt).1;
      LossExactly(p, debt);
      LossAtMostOne(p.bpd, p.errLoss, debt);
      NextPExactly(p.P, PRECISION - loss);
      var carried := CarriedColl(p, coll);
      hide LossPerUnit, NextP, ScaleStep, GainPerUnit, CarriedColl;
      if Offset(p, debt, coll).Ok? {
        forall e: nat, s: nat ensures SumAt(Offset(p, debt, coll).pool, e, s) == SumAt(p, e, s) + if e == p.epoch && s == p.scale then gain * p.P else 0 {
          SumsAfter(p, debt, coll, e, s);
        }
      }
    }
  }

  /** With nothing deposited, or nothing to offset, an offset is taken and changes nothing. */
  lemma OffsetOfNothing(p: Pool, debt: nat, coll: nat)
    requires p.bpd == 0 || debt == 0
    ensures Offset(p, debt, coll) == Ok(p)
  {
  }
}
