/** Exactly when all depositors of the Stability Pool can withdraw everything. */
module PoolWithdrawals {
  import opened Arithmetic
  import opened Units
  import opened VaultList
  import opened PoolModel

  /** Withdraw everything, one depositor after the other. */
  function WithdrawAll(p: Pool, order: seq<Address>): Result
    requires Valid(p)
    decreases |order|
  {
    if order == [] then Ok(p)
    else
      var r := Withdraw(p, order[0], Compounded(p, order[0]));
      if r.Revert? then Revert else WithdrawAll(r.pool, order[1..])
  }

  function SumCompounded(p: Pool, order: seq<Address>): nat
    requires Valid(p)
  {
    if order == [] then 0 else Compounded(p, order[0]) + SumCompounded(p, order[1..])
  }

  function SumGains(p: Pool, order: seq<Address>): nat
    requires Valid(p)
  {
    if order == [] then 0 else Gain(p, order[0]) + SumGains(p, order[1..])
  }

  /** Deposits tagged with front end `f`. */
  function SumTagged(p: Pool, order: seq<Address>, f: Address): nat
    requires Valid(p)
  {
    if order == [] then 0
    else (if TagOf(p, order[0]) == f then Compounded(p, order[0]) else 0) + SumTagged(p, order[1..], f)
  }

  /** The pool's BPD, its RBTC and every front end's stake cover the readings; all of it can be read off beforehand. */
  ghost predicate Payable(p: Pool, order: seq<Address>)
    requires Valid(p)
  {
    && SumCompounded(p, order) <= p.bpd && SumGains(p, order) <= p.rbtc
    && forall f :: SumTagged(p, order, f) <= StakeOf(p, f)
  }

  lemma {:induction false} SameSums(p: Pool, q: Pool, order: seq<Address>)
    requires Valid(p) && Valid(q)
    requires forall i :: 0 <= i < |order| ==>
      Compounded(q, order[i]) == Compounded(p, order[i]) && Gain(q, order[i]) == Gain(p, order[i]) && TagOf(q, order[i]) == TagOf(p, order[i])
    ensures SumCompounded(q, order) == SumCompounded(p, order) && SumGains(q, order) == SumGains(p, order)
    ensures forall f :: SumTagged(q, order, f) == SumTagged(p, order, f)
  {
    if order != [] {
      SameSums(p, q, order[1..]);
    }
  }

  /** What one full withdrawal changes. */
  lemma FullWithdrawal(p: Pool, a: Address)
    requires Valid(p) && a in p.deposits
    ensures var r := Withdraw(p, a, Compounded(p, a)); var f := TagOf(p, a);
            && (r.Ok? <==> Compounded(p, a) <= p.bpd && Gain(p, a) <= p.rbtc && Compounded(p, a) <= StakeOf(p, f))
            && (r.Ok? ==>
                 && r.pool.deposits.Keys == p.deposits.Keys - {a}
                 && r.pool.bpd == p.bpd - Compounded(p, a) && r.pool.rbtc == p.rbtc - Gain(p, a)
                 && StakeOf(r.pool, f) == StakeOf(p, f) - Compounded(p, a) && (forall g :: g != f ==> StakeOf(r.pool, g) == StakeOf(p, g))
                 && (forall b :: b != a ==> Compounded(r.pool, b) == Compounded(p, b) && Gain(r.pool, b) == Gain(p, b) && TagOf(r.pool, b) == TagOf(p, b)))
  {
    hide Compounded, Gain, StakeOf;
    var r, f := Withdraw(p, a, Compounded(p, a)), TagOf(p, a);
    if r.Ok? {
      var stake := StakeOf(p, f) - Compounded(p, a);
      SettledStakes(p, a, r.pool.bpd, r.pool.rbtc, 0, f, stake);
      SettledIsUpdate(p, a, r.pool.bpd, r.pool.rbtc, 0, f, stake);
      UpdateKeepsValid(p, r.pool, a, 0);
      forall b | b != a ensures Compounded(r.pool, b) == Compounded(p, b) && Gain(r.pool, b) == Gain(p, b) {
        UpdateOthers(p, r.pool, a, 0, b);
      }
    }
  }

  /** All depositors can withdraw everything, in a given order, exactly when the pool is payable - which
      does not depend on the order. Together they get exactly what they read at the start, and
      are left with nothing. */
  lemma {:induction false} EveryoneCanWithdraw(p: Pool, order: seq<Address>)
    requires Valid(p) && Distinct(order) && forall i :: 0 <= i < |order| ==> order[i] in p.deposits
    ensures WithdrawAll(p, order).Ok? <==> Payable(p, order)
    ensures var r := WithdrawAll(p, order);
            r.Ok? ==> r.pool.deposits.Keys == p.deposits.Keys - Members(order)
                      && r.pool.bpd == p.bpd - SumCompounded(p, order) && r.pool.rbtc == p.rbtc - SumGains(p, order)
    decreases |order|
  {
    hide Compounded, Gain, StakeOf, SumTagged, Withdraw, Valid, Payable;
    if order == [] {
      assert p.deposits.Keys - Members(order) == p.deposits.Keys;
      NothingToPay(p);
    } else {
      var a, rest := order[0], order[1..];
      FullWithdrawal(p, a);
      var r := Withdraw(p, a, Compounded(p, a));
      if r.Ok? {
        SameSums(p, r.pool, rest);
        EveryoneCanWithdraw(r.pool, rest);
        assert order == [a] + rest;
        PayableAfter(p, r.pool, a, rest);
        assert Members(order) == {a} + Members(rest);
      } else {
        FirstUnpaid(p, order);
      }
    }
  }

  lemma NothingToPay(p: Pool)
    requires Valid(p)
    ensures Payable(p, [])
  {
  }

  lemma FirstUnpaid(p: Pool, order: seq<Address>)
    requires Valid(p) && order != []
    ensures var a := order[0];
            Payable(p, order) ==> Compounded(p, a) <= p.bpd && Gain(p, a) <= p.rbtc && Compounded(p, a) <= StakeOf(p, TagOf(p, a))
  {
    hide Compounded, Gain, StakeOf;
    assert Compounded(p, order[0]) <= SumTagged(p, order, TagOf(p, order[0]));
  }

  ghost function Members(order: seq<Address>): set<Address> { set a | a in order }

  lemma PayableAfter(p: Pool, q: Pool, a: Address, rest: seq<Address>)
    requires Valid(p) && Valid(q)
    requires q.bpd == p.bpd - Compounded(p, a) && q.rbtc == p.rbtc - Gain(p, a)
    requires forall g :: StakeOf(q, g) == StakeOf(p, g) - if g == TagOf(p, a) then Compounded(p, a) else 0
    requires SumCompounded(q, rest) == SumCompounded(p, rest) && SumGains(q, rest) == SumGains(p, rest)
    requires forall f :: SumTagged(q, rest, f) == SumTagged(p, rest, f)
    ensures Payable(q, rest) <==> Payable(p, [a] + rest)
  {
    hide Compounded, Gain, StakeOf;
    var order := [a] + rest;
    assert order[0] == a && order[1..] == rest;
    forall f ensures SumTagged(p, order, f) == SumTagged(p, rest, f) + if f == TagOf(p, a) then Compounded(p, a) else 0 {
    }
    forall f ensures SumTagged(q, rest, f) <= StakeOf(q, f) <==> SumTagged(p, order, f) <= StakeOf(p, f) {
    }
  }

  // -------------------------------------------------- read before an offset

  /** What a deposit or a stake will read as once `debt` has been offset, from the trackers as they are. */
  function ReadingAfter(p: Pool, debt: nat, initial: nat, snap: Snapshot): nat
    requires SnapOk(p, snap) && CanOffset(p, debt)
  {
    if snap.epoch < p.epoch || !Partial(p, debt) then 0
    else
      var factor := FactorOf(p, debt);
      var scaleDiff := p.scale - snap.scale + ScaleStep(p.P, factor);
      var whole := initial * NextP(p.P, factor) / snap.P;
      var reading := if scaleDiff == 0 then whole else if scaleDiff == 1 then whole / SCALE_FACTOR else 0;
      if reading < initial / SCALE_FACTOR then 0 else reading
  }

  /** An entry of `S` with what the offset adds to the current one. */
  function SumWith(p: Pool, coll: nat, e: nat, s: nat): (r: nat)
    requires p.bpd > 0
    ensures r >= SumAt(p, e, s)
  {
    SumAt(p, e, s) + if (e, s) == (p.epoch, p.scale) then GainPerUnit(p, coll) * p.P else 0
  }

  /** What a gain will be, if the offset brings `coll`. */
  function GainAfter(p: Pool, coll: nat, initial: nat, snap: Snapshot): nat
    requires SnapOk(p, snap) && p.bpd > 0
  {
    var first: nat := SumWith(p, coll, snap.epoch, snap.scale) - snap.S;
    GainOf(initial, first, SumWith(p, coll, snap.epoch, snap.scale + 1) / SCALE_FACTOR, snap.P)
  }

  lemma ReadsAfter(p: Pool, debt: nat, coll: nat, initial: nat, snap: Snapshot)
    requires p.P > 0 && CanOffset(p, debt) && Offset(p, debt, coll).Ok? && SnapOk(p, snap)
    ensures SnapOk(Offset(p, debt, coll).pool, snap)
    ensures CompoundedFrom(Offset(p, debt, coll).pool, initial, snap) == ReadingAfter(p, debt, initial, snap)
    ensures GainFrom(Offset(p, debt, coll).pool, initial, snap) == GainAfter(p, coll, initial, snap)
  {
    hide GainPerUnit, CarriedColl, LossPerUnit, NextP;
    OffsetKeepsSnap(p, debt, coll, snap);
    SumsAfter(p, debt, coll, snap.epoch, snap.scale);
    SumsAfter(p, debt, coll, snap.epoch, snap.scale + 1);
  }

  function DepositAfter(p: Pool, debt: nat, a: Address): nat
    requires Valid(p) && CanOffset(p, debt)
  {
    if a in p.deposits then ReadingAfter(p, debt, p.deposits[a], p.snapshots[a]) else 0
  }

  function DepositGainAfter(p: Pool, coll: nat, a: Address): nat
    requires Valid(p) && p.bpd > 0
  {
    if a in p.deposits then GainAfter(p, coll, p.deposits[a], p.snapshots[a]) else 0
  }

  function StakeAfter(p: Pool, debt: nat, f: Address): nat
    requires Valid(p) && CanOffset(p, debt)
  {
    if f in p.frontEnds.stakes then ReadingAfter(p, debt, p.frontEnds.stakes[f].value, p.frontEnds.stakes[f].snap) else 0
  }

  function SumAfter(p: Pool, debt: nat, order: seq<Address>): nat
    requires Valid(p) && CanOffset(p, debt)
  {
    if order == [] then 0 else DepositAfter(p, debt, order[0]) + SumAfter(p, debt, order[1..])
  }

  function SumGainsAfter(p: Pool, coll: nat, order: seq<Address>): nat
    requires Valid(p) && p.bpd > 0
  {
    if order == [] then 0 else DepositGainAfter(p, coll, order[0]) + SumGainsAfter(p, coll, order[1..])
  }

  function SumTaggedAfter(p: Pool, debt: nat, order: seq<Address>, f: Address): nat
    requires Valid(p) && CanOffset(p, debt)
  {
    if order == [] then 0
    else (if TagOf(p, order[0]) == f then DepositAfter(p, debt, order[0]) else 0) + SumTaggedAfter(p, debt, order[1..], f)
  }

  /** The guard of an offset, in integers and from the state before it. */
  ghost predicate LeavesPayable(p: Pool, debt: nat, coll: nat, order: seq<Address>)
    requires Valid(p) && CanOffset(p, debt)
  {
    && SumAfter(p, debt, order) <= p.bpd - debt && SumGainsAfter(p, coll, order) <= p.rbtc + coll
    && forall f :: SumTaggedAfter(p, debt, order, f) <= StakeAfter(p, debt, f)
  }

  lemma OffsetReads(p: Pool, q: Pool, debt: nat, coll: nat, a: Address)
    requires Valid(p) && Valid(q) && CanOffset(p, debt) && Offset(p, debt, coll) == Ok(q)
    ensures Compounded(q, a) == DepositAfter(p, debt, a) && Gain(q, a) == DepositGainAfter(p, coll, a)
    ensures StakeOf(q, a) == StakeAfter(p, debt, a)
  {
    hide CompoundedFrom, GainFrom, ReadingAfter, GainAfter, CarriedColl, LossPerUnit, NextP, GainPerUnit;
    if a in p.deposits {
      assert SnapOk(p, p.snapshots[a]);
      ReadsAfter(p, debt, coll, p.deposits[a], p.snapshots[a]);
    }
    if a in p.frontEnds.stakes {
      assert SnapOk(p, p.frontEnds.stakes[a].snap);
      ReadsAfter(p, debt, coll, p.frontEnds.stakes[a].value, p.frontEnds.stakes[a].snap);
    }
  }

  lemma {:induction false} OffsetSums(p: Pool, q: Pool, debt: nat, coll: nat, order: seq<Address>)
    requires Valid(p) && Valid(q) && CanOffset(p, debt) && Offset(p, debt, coll) == Ok(q)
    ensures SumCompounded(q, order) == SumAfter(p, debt, order) && SumGains(q, order) == SumGainsAfter(p, coll, order)
    ensures forall f :: SumTagged(q, order, f) == SumTaggedAfter(p, debt, order, f)
  {
    hide Compounded, Gain, StakeOf, DepositAfter, DepositGainAfter, StakeAfter, CarriedColl, LossPerUnit, NextP, GainPerUnit, Valid;
    if order != [] {
      OffsetReads(p, q, debt, coll, order[0]);
      OffsetSums(p, q, debt, coll, order[1..]);
    }
  }

  /** Exactly when an offset leaves a pool from which everyone can withdraw everything. */
  lemma OffsetLeavesEveryonePaid(p: Pool, debt: nat, coll: nat, order: seq<Address>)
    requires Valid(p) && CanOffset(p, debt) && Offset(p, debt, coll).Ok?
    requires Distinct(order) && forall i :: 0 <= i < |order| ==> order[i] in p.deposits
    ensures Valid(Offset(p, debt, coll).pool)
    ensures WithdrawAll(Offset(p, debt, coll).pool, order).Ok? <==> LeavesPayable(p, debt, coll, order)
  {
    OffsetKeepsValid(p, debt, coll);
    var q := Offset(p, debt, coll).pool;
    hide Compounded, Gain, StakeOf, StakeAfter, CarriedColl, LossPerUnit, NextP, GainPerUnit, Valid, WithdrawAll;
    OffsetSums(p, q, debt, coll, order);
    forall f ensures StakeOf(q, f) == StakeAfter(p, debt, f) {
      OffsetReads(p, q, debt, coll, f);
    }
    EveryoneCanWithdraw(q, order);
  }
}
