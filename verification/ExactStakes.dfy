/** Redistribution with corrected stakes, in exact arithmetic: the rules of
    `VaultManager.sol` over reals, so that the ordering result is not blurred by
    rounding (the rounded accounting is in module VaultAccounts). */
module ExactStakes {
  import opened Arithmetic
  import opened Sums
  import opened VaultList

  datatype Vault = Vault(coll: real, debt: real, stake: real, snapColl: real, snapDebt: real)

  datatype System = System(
    vaults: map<Address, Vault>,
    totalStakes: real,
    stakesSnapshot: real,   // totalStakes just after the latest liquidation
    collSnapshot: real,     // system collateral just after the latest liquidation; 0 before the first
    accColl: real,          // B_RBTC
    accDebt: real,          // B_BPDDebt
    totalColl: real)        // collateral of ActivePool and DefaultPool together

  /** What can happen. `Adjust` gives the collateral and debt after a borrower operation or a
      partial redemption. A liquidation is one `Remove` per vault and then one `Redistribute`
      with whatever collateral and debt the Stability Pool did not take, possibly none. */
  datatype Op =
    | Open(id: Address, coll: real, debt: real)
    | Adjust(id: Address, coll: real, debt: real)
    | ApplyPending(id: Address)
    | Remove(id: Address)
    | Redistribute(coll: real, debt: real)

  const Empty: System := System(map[], 0.0, 0.0, 0.0, 0.0, 0.0, 0.0)

  function Pending(stake: real, acc: real, snap: real): real { stake * (acc - snap) }

  /** Entire collateral and debt: recorded plus pending. */
  function EntireColl(s: System, v: Vault): real { v.coll + Pending(v.stake, s.accColl, v.snapColl) }
  function EntireDebt(s: System, v: Vault): real { v.debt + Pending(v.stake, s.accDebt, v.snapDebt) }

  function NewStake(s: System, coll: real): real {
    if s.collSnapshot == 0.0 then coll else coll * s.stakesSnapshot / s.collSnapshot
  }

  /** `_applyPendingRewards`, with its guard on the collateral snapshot alone. */
  function Applied(s: System, v: Vault): Vault {
    if v.snapColl < s.accColl
    then v.(coll := EntireColl(s, v), debt := EntireDebt(s, v), snapColl := s.accColl, snapDebt := s.accDebt)
    else v
  }

  predicate Enabled(s: System, op: Op) {
    match op
    case Open(id, coll, debt) => id !in s.vaults && coll > 0.0 && debt > 0.0
    case Adjust(id, coll, debt) => id in s.vaults && coll > 0.0 && debt > 0.0
    case ApplyPending(id) => id in s.vaults
    case Remove(id) => id in s.vaults && |s.vaults| > 1
    case Redistribute(coll, debt) => s.vaults != map[] && ((coll == 0.0 && debt == 0.0) || (coll > 0.0 && debt > 0.0))
  }

  function Step(s: System, op: Op): System
    requires Enabled(s, op)
  {
    match op
    case Open(id, coll, debt) =>
      var stake := NewStake(s, coll);
      s.(vaults := s.vaults[id := Vault(coll, debt, stake, s.accColl, s.accDebt)],
         totalStakes := s.totalStakes + stake, totalColl := s.totalColl + coll)
    case Adjust(id, coll, debt) =>
      var old_ := s.vaults[id];
      var stake := NewStake(s, coll);
      s.(vaults := s.vaults[id := Applied(s, old_).(coll := coll, debt := debt, stake := stake)],
         totalStakes := s.totalStakes - old_.stake + stake, totalColl := s.totalColl - EntireColl(s, old_) + coll)
    case ApplyPending(id) =>
      s.(vaults := s.vaults[id := Applied(s, s.vaults[id])])
    case Remove(id) =>
      s.(vaults := s.vaults - {id}, totalStakes := s.totalStakes - s.vaults[id].stake,
         totalColl := s.totalColl - EntireColl(s, s.vaults[id]))
    case Redistribute(coll, debt) =>
      var s' := if debt == 0.0 || s.totalStakes == 0.0 then s
                else s.(accColl := s.accColl + coll / s.totalStakes, accDebt := s.accDebt + debt / s.totalStakes,
                        totalColl := s.totalColl + coll);
      s'.(stakesSnapshot := s'.totalStakes, collSnapshot := s'.totalColl)
  }

  /** Stake per unit of entire collateral: the same for every vault. */
  function Rate(s: System): real {
    if s.collSnapshot == 0.0 then 1.0 else s.stakesSnapshot / s.collSnapshot
  }

  /** `stake` buys its vault's share at the common rate. */
  predicate AtRate(rate: real, stake: real, coll: real) { stake == rate * coll }

  ghost predicate VaultInv(s: System, v: Vault) {
    && v.coll > 0.0 && v.debt > 0.0 && v.stake > 0.0
    && v.snapColl <= s.accColl && v.snapDebt <= s.accDebt
    && (v.snapColl == s.accColl ==> v.snapDebt == s.accDebt)
    && AtRate(Rate(s), v.stake, EntireColl(s, v))
  }

  ghost function StakeOf(s: System): Address -> real { a => if a in s.vaults then s.vaults[a].stake else 0.0 }
  ghost function CollOf(s: System): Address -> real { a => if a in s.vaults then EntireColl(s, s.vaults[a]) else 0.0 }

  ghost predicate Inv(s: System) {
    && Rate(s) > 0.0
    && (forall a :: a in s.vaults ==> VaultInv(s, s.vaults[a]))
    && s.totalStakes == Sum(s.vaults.Keys, StakeOf(s))
    && s.totalColl == Sum(s.vaults.Keys, CollOf(s))
  }

  lemma InvEmpty()
    ensures Inv(Empty)
  {
  }

  lemma MulNonneg(x: real, y: real)
    requires x >= 0.0 && y >= 0.0
    ensures x * y >= 0.0
  {
  }

  lemma EntireAtLeastRaw(s: System, v: Vault)
    requires VaultInv(s, v)
    ensures EntireColl(s, v) >= v.coll > 0.0 && EntireDebt(s, v) >= v.debt > 0.0
  {
    var x, y := s.accColl - v.snapColl, s.accDebt - v.snapDebt;
    MulNonneg(v.stake, x);
    MulNonneg(v.stake, y);
    assert EntireColl(s, v) == v.coll + v.stake * x && EntireDebt(s, v) == v.debt + v.stake * y;
  }

  lemma TotalsProportional(s: System)
    requires Inv(s)
    ensures AtRate(Rate(s), s.totalStakes, s.totalColl)
    ensures s.vaults != map[] ==> s.totalStakes > 0.0 && s.totalColl > 0.0
  {
    var stakes, colls, r := StakeOf(s), CollOf(s), Rate(s);
    forall a | a in s.vaults.Keys ensures AtRate(r, stakes(a), colls(a)) && stakes(a) > 0.0 && colls(a) > 0.0 {
      assert VaultInv(s, s.vaults[a]);
      EntireAtLeastRaw(s, s.vaults[a]);
    }
    SumPositive(s.vaults.Keys, stakes);
    SumPositive(s.vaults.Keys, colls);
    RateOfSums(s.vaults.Keys, stakes, colls, r);
    assert s.vaults != map[] ==> s.vaults.Keys != {};
  }

  lemma RateOfSums(keys: set<Address>, stakes: Address -> real, colls: Address -> real, r: real)
    requires forall a :: a in keys ==> AtRate(r, stakes(a), colls(a))
    ensures AtRate(r, Sum(keys, stakes), Sum(keys, colls))
  {
    SumZero(keys);
    SumScale(keys, stakes, (a: Address) => 0.0, colls, r);
  }

  /** In every reachable state a vault's share of all stakes is its share of all collateral. */
  lemma EntireCollIsProportional(s: System, id: Address)
    requires Inv(s) && id in s.vaults
    ensures EntireColl(s, s.vaults[id]) * s.totalStakes == s.vaults[id].stake * s.totalColl
  {
    TotalsProportional(s);
    assert VaultInv(s, s.vaults[id]);
    SharesAgree(Rate(s), EntireColl(s, s.vaults[id]), s.vaults[id].stake, s.totalStakes, s.totalColl);
  }

  lemma SharesAgree(r: real, e: real, stake: real, stakes: real, coll: real)
    requires AtRate(r, stake, e) && AtRate(r, stakes, coll)
    ensures e * stakes == stake * coll
  {
    assert e * (r * coll) == (r * e) * coll;
  }

  lemma NewStakeIsRate(s: System, coll: real)
    requires Rate(s) > 0.0 && coll > 0.0
    ensures NewStake(s, coll) == Rate(s) * coll > 0.0
  {
  }

  // ------------------------------------------------ every step keeps Inv

  /** Replacing or adding one vault, the rest untouched. */
  lemma InvWithVault(s: System, s': System, id: Address, v: Vault)
    requires Inv(s)
    requires s' == s.(vaults := s.vaults[id := v], totalStakes := s'.totalStakes, totalColl := s'.totalColl)
    requires VaultInv(s', v)
    requires s'.totalStakes == s.totalStakes - StakeOf(s)(id) + v.stake
    requires s'.totalColl == s.totalColl - CollOf(s)(id) + EntireColl(s', v)
    ensures Inv(s')
  {
    var rest := s.vaults.Keys - {id};
    forall a | a in s'.vaults ensures VaultInv(s', s'.vaults[a]) {
      if a != id {
        assert VaultInv(s, s.vaults[a]);
        assert Rate(s') == Rate(s) && EntireColl(s', s.vaults[a]) == EntireColl(s, s.vaults[a]);
      }
    }
    if id in s.vaults {
      SumRemove(s.vaults.Keys, StakeOf(s), id);
      SumRemove(s.vaults.Keys, CollOf(s), id);
    }
    assert s'.vaults.Keys - {id} == rest && (id !in s.vaults ==> rest == s.vaults.Keys);
    SumRemove(s'.vaults.Keys, StakeOf(s'), id);
    SumRemove(s'.vaults.Keys, CollOf(s'), id);
    SumSame(rest, StakeOf(s), StakeOf(s'));
    SumSame(rest, CollOf(s), CollOf(s'));
  }

  lemma InvRemove(s: System, id: Address)
    requires Inv(s) && Enabled(s, Remove(id))
    ensures Inv(Step(s, Remove(id)))
  {
    var s' := Step(s, Remove(id));
    forall a | a in s'.vaults ensures VaultInv(s', s'.vaults[a]) {
      assert VaultInv(s, s.vaults[a]);
      assert Rate(s') == Rate(s) && EntireColl(s', s.vaults[a]) == EntireColl(s, s.vaults[a]);
    }
    SumRemove(s.vaults.Keys, StakeOf(s), id);
    SumRemove(s.vaults.Keys, CollOf(s), id);
    assert s'.vaults.Keys == s.vaults.Keys - {id};
    SumSame(s'.vaults.Keys, StakeOf(s), StakeOf(s'));
    SumSame(s'.vaults.Keys, CollOf(s), CollOf(s'));
  }

  /** Applying pending rewards moves them from pending to recorded and nothing else. */
  lemma AppliedKeepsEntire(s: System, v: Vault)
    requires VaultInv(s, v)
    ensures EntireColl(s, Applied(s, v)) == EntireColl(s, v)
    ensures EntireDebt(s, Applied(s, v)) == EntireDebt(s, v)
    ensures VaultInv(s, Applied(s, v))
    ensures Applied(s, v).snapColl == s.accColl && Applied(s, v).snapDebt == s.accDebt
  {
    EntireAtLeastRaw(s, v);
  }

  /** What a redistribution does to one vault: collateral grows by the factor `1 + x`. */
  lemma RedistributeOne(s: System, v: Vault, coll: real, debt: real)
    requires Inv(s) && VaultInv(s, v) && s.vaults != map[] && coll > 0.0 && debt > 0.0
    ensures s.totalStakes > 0.0 && s.totalColl > 0.0
    ensures var s' := Step(s, Redistribute(coll, debt));
            && EntireColl(s', v) == Grown(EntireColl(s, v), Rate(s), coll, s.totalStakes)
            && EntireDebt(s', v) == EntireDebt(s, v) + Share(EntireColl(s, v), Rate(s), debt, s.totalStakes)
            && AtRate(Rate(s'), v.stake, EntireColl(s', v))
  {
    TotalsProportional(s);
    var s' := Step(s, Redistribute(coll, debt));
    var t, e, r := s.totalStakes, EntireColl(s, v), Rate(s);
    PendingGrows(e, r, v.stake, s.accColl, v.snapColl, coll, t);
    PendingGrows(e, r, v.stake, s.accDebt, v.snapDebt, debt, t);
    NewRate(e, r, coll, t, s.totalColl);
  }

  /** What a vault with collateral `e` gets of `c` when stakes are `r` per collateral and total `t`. */
  function Share(e: real, r: real, c: real, t: real): real
    requires t > 0.0
  {
    e * (r * c / t)
  }

  function Grown(e: real, r: real, c: real, t: real): real
    requires t > 0.0
  {
    e * (1.0 + r * c / t)
  }

  lemma PendingGrows(e: real, r: real, stake: real, acc: real, snap: real, c: real, t: real)
    requires AtRate(r, stake, e) && t > 0.0
    ensures Pending(stake, acc + c / t, snap) == Pending(stake, acc, snap) + Share(e, r, c, t)
    ensures Grown(e, r, c, t) == e + Share(e, r, c, t)
  {
    var x, y := acc - snap, c / t;
    assert stake * (x + y) == stake * x + stake * y;
    assert r * c / t == r * y;
    assert r * e * y == e * (r * y);
  }

  lemma NewRate(e: real, r: real, c: real, t: real, total: real)
    requires t > 0.0 && total > 0.0 && c > 0.0 && t == r * total
    ensures r * e == t / (total + c) * Grown(e, r, c, t)
  {
    var x := r * c / t;
    assert x * t == r * c;
    var g := total + c;
    assert t * (1.0 + x) == t + r * c == r * g by {
      assert r * g == r * total + r * c;
      assert t * (1.0 + x) == t + t * x;
    }
    var q := t / g;
    assert q * g == t;
    assert q * (1.0 + x) * g == r * g by {
      assert q * (1.0 + x) * g == (q * g) * (1.0 + x);
    }
    Cancel(q * (1.0 + x), r, g);
    assert r * e == q * (1.0 + x) * e == q * (e * (1.0 + x));
  }

  lemma InvRedistribute(s: System, coll: real, debt: real)
    requires Inv(s) && Enabled(s, Redistribute(coll, debt))
    ensures Inv(Step(s, Redistribute(coll, debt)))
  {
    var s' := Step(s, Redistribute(coll, debt));
    TotalsProportional(s);
    forall a | a in s'.vaults ensures VaultInv(s', s'.vaults[a]) {
      assert VaultInv(s, s.vaults[a]);
      if debt == 0.0 {
        SnapshotKeepsRate(Rate(s), s.totalStakes, s.totalColl);
      } else {
        RedistributeOne(s, s.vaults[a], coll, debt);
        assert coll / s.totalStakes > 0.0 && debt / s.totalStakes > 0.0;
      }
    }
    SumSame(s.vaults.Keys, StakeOf(s), StakeOf(s'));
    RedistributedTotal(s, coll, debt);
  }

  lemma RedistributedColl(s: System, v: Vault, coll: real, debt: real)
    requires Inv(s) && VaultInv(s, v) && s.vaults != map[] && coll > 0.0 && debt > 0.0
    ensures s.totalStakes > 0.0
    ensures EntireColl(Step(s, Redistribute(coll, debt)), v) == EntireColl(s, v) + Times(coll / s.totalStakes, v.stake)
  {
    TotalsProportional(s);
    PendingGrows(EntireColl(s, v), Rate(s), v.stake, s.accColl, v.snapColl, coll, s.totalStakes);
    ShareIsStake(EntireColl(s, v), Rate(s), v.stake, coll, s.totalStakes);
  }

  /** The entire collaterals together grow by exactly the collateral redistributed. */
  lemma RedistributedTotal(s: System, coll: real, debt: real)
    requires Inv(s) && Enabled(s, Redistribute(coll, debt))
    ensures var s' := Step(s, Redistribute(coll, debt)); s'.totalColl == Sum(s'.vaults.Keys, CollOf(s'))
  {
    var s' := Step(s, Redistribute(coll, debt));
    TotalsProportional(s);
    if debt == 0.0 {
      SumSame(s.vaults.Keys, CollOf(s), CollOf(s'));
    } else {
      assert s.totalStakes > 0.0;
      var perStake := coll / s.totalStakes;
      var before, after := CollOf(s), CollOf(s');
      forall a | a in s.vaults.Keys ensures after(a) == before(a) + Times(perStake, StakeOf(s)(a)) {
        RedistributedColl(s, s.vaults[a], coll, debt);
      }
      SumScale(s.vaults.Keys, after, before, StakeOf(s), perStake);
      TimesQuotient(coll, s.totalStakes);
    }
  }

  lemma ShareIsStake(e: real, r: real, stake: real, c: real, t: real)
    requires AtRate(r, stake, e) && t > 0.0
    ensures Share(e, r, c, t) == Times(c / t, stake)
  {
    var y := c / t;
    assert r * c / t == r * y;
    assert e * (r * y) == y * (r * e);
  }

  lemma SnapshotKeepsRate(r: real, stakes: real, coll: real)
    requires AtRate(r, stakes, coll) && coll > 0.0
    ensures stakes / coll == r
  {
    Cancel(stakes / coll, r, coll);
  }

  /** Every operation keeps the invariant. */
  lemma StepKeepsInv(s: System, op: Op)
    requires Inv(s) && Enabled(s, op)
    ensures Inv(Step(s, op))
  {
    var s' := Step(s, op);
    match op
    case Open(id, coll, debt) =>
      FreshVault(s, s', coll, debt, NewStake(s, coll));
      InvWithVault(s, s', id, s'.vaults[id]);
    case Adjust(id, coll, debt) =>
      AppliedKeepsEntire(s, s.vaults[id]) by { assert VaultInv(s, s.vaults[id]); }
      FreshVault(s, s', coll, debt, NewStake(s, coll));
      InvWithVault(s, s', id, s'.vaults[id]);
    case ApplyPending(id) =>
      AppliedKeepsEntire(s, s.vaults[id]) by { assert VaultInv(s, s.vaults[id]); }
      InvWithVault(s, s', id, s'.vaults[id]);
    case Remove(id) => InvRemove(s, id);
    case Redistribute(coll, debt) => InvRedistribute(s, coll, debt);
  }

  /** A vault just opened or adjusted has nothing pending and a stake at the common rate. */
  lemma FreshVault(s: System, s': System, coll: real, debt: real, stake: real)
    requires Inv(s) && coll > 0.0 && debt > 0.0 && stake == NewStake(s, coll)
    requires s'.accColl == s.accColl && s'.accDebt == s.accDebt && Rate(s') == Rate(s)
    ensures var v := Vault(coll, debt, stake, s.accColl, s.accDebt);
            VaultInv(s', v) && EntireColl(s', v) == coll && EntireDebt(s', v) == debt
  {
    NewStakeIsRate(s, coll);
    assert AtRate(Rate(s), stake, coll);
  }

  /** What each operation does to a vault's entire amounts; a vault not named keeps its record. */
  lemma StepExactly(s: System, op: Op)
    requires Inv(s) && Enabled(s, op)
    ensures var s' := Step(s, op);
            match op
            case Open(id, coll, debt) =>
              s'.vaults.Keys == s.vaults.Keys + {id} && s'.vaults == s.vaults[id := s'.vaults[id]]
              && EntireColl(s', s'.vaults[id]) == coll && EntireDebt(s', s'.vaults[id]) == debt
            case Adjust(id, coll, debt) =>
              s'.vaults.Keys == s.vaults.Keys && s'.vaults == s.vaults[id := s'.vaults[id]]
              && EntireColl(s', s'.vaults[id]) == coll && EntireDebt(s', s'.vaults[id]) == debt
            case ApplyPending(id) =>
              s' == s.(vaults := s.vaults[id := Vault(EntireColl(s, s.vaults[id]), EntireDebt(s, s.vaults[id]), s.vaults[id].stake, s.accColl, s.accDebt)])
            case Remove(id) => s'.vaults == s.vaults - {id} && s'.accColl == s.accColl && s'.accDebt == s.accDebt
            case Redistribute(_, _) => s'.vaults == s.vaults && s'.stakesSnapshot == s.totalStakes && s'.collSnapshot == s'.totalColl
  {
    match op
    case Open(id, coll, debt) =>
      FreshVault(s, Step(s, op), coll, debt, NewStake(s, coll));
    case Adjust(id, coll, debt) =>
      assert VaultInv(s, s.vaults[id]);
      AppliedKeepsEntire(s, s.vaults[id]);
      FreshVault(s, Step(s, op), coll, debt, NewStake(s, coll));
    case ApplyPending(id) =>
      assert VaultInv(s, s.vaults[id]);
      NothingPending(s.vaults[id].stake, s.accColl);
      NothingPending(s.vaults[id].stake, s.accDebt);
    case _ =>
  }

  lemma NothingPending(stake: real, acc: real)
    ensures Pending(stake, acc, acc) == 0.0
  {
  }

  /** A redistribution gives every vault that part of the collateral and of the debt which its collateral is
      of all collateral. */
  lemma RedistributedInShares(s: System, id: Address, coll: real, debt: real)
    requires Inv(s) && id in s.vaults && Enabled(s, Redistribute(coll, debt))
    ensures var s', v := Step(s, Redistribute(coll, debt)), s.vaults[id];
            && s.totalColl > 0.0
            && Times(EntireColl(s', v) - EntireColl(s, v), s.totalColl) == Times(EntireColl(s, v), coll)
            && Times(EntireDebt(s', v) - EntireDebt(s, v), s.totalColl) == Times(EntireColl(s, v), debt)
  {
    var v := s.vaults[id];
    assert VaultInv(s, v);
    TotalsProportional(s);
    if debt > 0.0 {
      RedistributeOne(s, v, coll, debt);
      PendingGrows(EntireColl(s, v), Rate(s), v.stake, s.accColl, v.snapColl, coll, s.totalStakes);
      ShareOfTotal(EntireColl(s, v), Rate(s), coll, s.totalStakes, s.totalColl);
      ShareOfTotal(EntireColl(s, v), Rate(s), debt, s.totalStakes, s.totalColl);
    } else {
      assert Times(0.0, s.totalColl) == 0.0 && Times(EntireColl(s, v), 0.0) == 0.0;
    }
  }

  lemma ShareOfTotal(e: real, r: real, c: real, t: real, total: real)
    requires AtRate(r, t, total) && t > 0.0
    ensures Times(Share(e, r, c, t), total) == Times(e, c)
  {
    var x := r * c / t;
    assert x * t == r * c;
    assert t * (x * total) == t * c by {
      assert t * (x * total) == (x * t) * total == (r * c) * total == (r * total) * c;
    }
    assert x * total == c;
    assert e * x * total == e * (x * total);
  }

  // ------------------------------------------------------------- ordering

  /** Debt per collateral, pending rewards included: the NICR upside down. */
  function DebtRatio(s: System, id: Address): real
    requires id in s.vaults
  {
    Ratio(EntireDebt(s, s.vaults[id]), EntireColl(s, s.vaults[id]))
  }

  function Ratio(debt: real, coll: real): real { if coll == 0.0 then 0.0 else debt / coll }

  /** The operation is not on the vault itself; applying its pending rewards is allowed. */
  predicate Spares(op: Op, id: Address) {
    match op
    case Open(other, _, _) => other != id
    case Adjust(other, _, _) => other != id
    case Remove(other) => other != id
    case _ => true
  }

  lemma QuietStep(s: System, op: Op, id: Address)
    requires Inv(s) && Enabled(s, op) && id in s.vaults && Spares(op, id)
    requires op.Redistribute? ==> op.debt == 0.0
    ensures id in Step(s, op).vaults && DebtRatio(Step(s, op), id) == DebtRatio(s, id)
  {
    assert VaultInv(s, s.vaults[id]);
    AppliedKeepsEntire(s, s.vaults[id]);
  }

  /** The affine map of a redistribution, from the rate, the amounts and the total stakes alone. */
  function Slope(r: real, c: real, t: real): real
    requires t > 0.0 && r * c / t > 0.0
  {
    1.0 / (1.0 + r * c / t)
  }

  function Shift(r: real, c: real, debt: real, t: real): real
    requires t > 0.0 && r * c / t > 0.0
  {
    (r * debt / t) / (1.0 + r * c / t)
  }

  lemma SlopePositive(r: real, c: real, t: real)
    requires t > 0.0 && r * c / t > 0.0
    ensures Slope(r, c, t) > 0.0
  {
  }

  lemma RedistributedRatio(s: System, id: Address, coll: real, debt: real)
    requires Inv(s) && id in s.vaults && coll > 0.0 && debt > 0.0
    ensures s.totalStakes > 0.0 && Rate(s) * coll / s.totalStakes > 0.0
    ensures DebtRatio(Step(s, Redistribute(coll, debt)), id)
            == Times(Slope(Rate(s), coll, s.totalStakes), DebtRatio(s, id)) + Shift(Rate(s), coll, debt, s.totalStakes)
  {
    var v := s.vaults[id];
    assert VaultInv(s, v);
    EntireAtLeastRaw(s, v);
    RedistributeOne(s, v, coll, debt);
    PositiveShare(Rate(s), coll, s.totalStakes);
    RatioMap(EntireColl(s, v), EntireDebt(s, v), Rate(s), coll, debt, s.totalStakes);
  }

  /** The ratio of `id` in `s'` is its ratio in `s` under the map `x -> m * x + b`. */
  predicate Mapped(s: System, s': System, id: Address, m: real, b: real) {
    id in s.vaults && id in s'.vaults && DebtRatio(s', id) == Times(m, DebtRatio(s, id)) + b
  }

  lemma RedistributedMapped(s: System, id: Address, coll: real, debt: real)
    requires Inv(s) && id in s.vaults && coll > 0.0 && debt > 0.0
    ensures s.totalStakes > 0.0 && Rate(s) * coll / s.totalStakes > 0.0
    ensures Mapped(s, Step(s, Redistribute(coll, debt)), id, Slope(Rate(s), coll, s.totalStakes), Shift(Rate(s), coll, debt, s.totalStakes))
  {
    RedistributedRatio(s, id, coll, debt);
    hide DebtRatio, Slope, Shift;
  }

  lemma RedistributeIsAffine(s: System, coll: real, debt: real) returns (m: real, b: real)
    requires Inv(s) && Enabled(s, Redistribute(coll, debt)) && debt > 0.0
    ensures m > 0.0
    ensures forall id :: id in s.vaults ==> Mapped(s, Step(s, Redistribute(coll, debt)), id, m, b)
  {
    TotalsProportional(s);
    PositiveShare(Rate(s), coll, s.totalStakes);
    m, b := Slope(Rate(s), coll, s.totalStakes), Shift(Rate(s), coll, debt, s.totalStakes);
    SlopePositive(Rate(s), coll, s.totalStakes);
    hide Slope, Shift, Mapped, Step, Rate;
    forall id | id in s.vaults ensures Mapped(s, Step(s, Redistribute(coll, debt)), id, m, b) {
      RedistributedMapped(s, id, coll, debt);
    }
  }

  /** One step moves the ratios of all vaults it spares by one and the same increasing affine map. */
  lemma StepIsAffine(s: System, op: Op) returns (m: real, b: real)
    requires Inv(s) && Enabled(s, op)
    ensures m > 0.0
    ensures forall id :: id in s.vaults && Spares(op, id) ==> Mapped(s, Step(s, op), id, m, b)
  {
    if op.Redistribute? && op.debt > 0.0 {
      m, b := RedistributeIsAffine(s, op.coll, op.debt);
    } else {
      m, b := 1.0, 0.0;
      forall id | id in s.vaults && Spares(op, id) ensures Mapped(s, Step(s, op), id, m, b) {
        QuietStep(s, op, id);
      }
    }
  }

  lemma PositiveShare(r: real, c: real, t: real)
    requires r > 0.0 && c > 0.0 && t > 0.0
    ensures r * c / t > 0.0
  {
  }

  lemma RatioMap(e: real, d: real, r: real, c: real, debt: real, t: real)
    requires e > 0.0 && t > 0.0 && r * c / t > 0.0
    ensures Ratio(d + Share(e, r, debt, t), Grown(e, r, c, t)) == Times(Slope(r, c, t), Ratio(d, e)) + Shift(r, c, debt, t)
  {
    var x, y := r * c / t, r * debt / t;
    var g := e * (1.0 + x);
    var q, z := d / e, 1.0 + x;
    var sum := (1.0 / z) * q + y / z;
    assert sum * z == q + y by {
      assert (1.0 / z) * z == 1.0 && (y / z) * z == y;
      assert sum * z == (1.0 / z) * z * q + (y / z) * z;
    }
    assert sum * g == d + e * y by {
      assert sum * g == (sum * z) * e;
      assert q * e == d;
    }
    assert g > 0.0;
    Cancel((d + e * y) / g, sum, g);
  }

  ghost predicate EnabledRun(s: System, ops: seq<Op>)
    decreases |ops|
  {
    ops == [] || (Enabled(s, ops[0]) && EnabledRun(Step(s, ops[0]), ops[1..]))
  }

  ghost function Run(s: System, ops: seq<Op>): System
    requires EnabledRun(s, ops)
    decreases |ops|
  {
    if ops == [] then s else Run(Step(s, ops[0]), ops[1..])
  }

  ghost predicate SparedBy(ops: seq<Op>, id: Address) {
    forall i :: 0 <= i < |ops| ==> Spares(ops[i], id)
  }

  lemma {:induction false} RunKeepsInv(s: System, ops: seq<Op>)
    requires Inv(s) && EnabledRun(s, ops)
    ensures Inv(Run(s, ops))
    decreases |ops|
  {
    if ops != [] {
      StepKeepsInv(s, ops[0]);
      RunKeepsInv(Step(s, ops[0]), ops[1..]);
    }
  }

  /** So does a whole run of liquidations, openings, adjustments and closings. */
  lemma {:induction false} RunIsAffine(s: System, ops: seq<Op>) returns (m: real, b: real)
    requires Inv(s) && EnabledRun(s, ops)
    ensures m > 0.0
    ensures forall id :: id in s.vaults && SparedBy(ops, id) ==> Mapped(s, Run(s, ops), id, m, b)
    decreases |ops|
  {
    if ops == [] {
      m, b := 1.0, 0.0;
    } else {
      var s1 := Step(s, ops[0]);
      StepKeepsInv(s, ops[0]);
      var m1, b1 := StepIsAffine(s, ops[0]);
      var m2, b2 := RunIsAffine(s1, ops[1..]);
      m, b := Times(m2, m1), Times(m2, b1) + b2;
      PositiveTimes(m2, m1);
      hide Mapped, Times;
      forall id | id in s.vaults && SparedBy(ops, id) ensures Mapped(s, Run(s, ops), id, m, b) {
        SparedThroughout(ops, id);
        MappedTwice(s, s1, Run(s, ops), id, m1, b1, m2, b2);
      }
    }
  }

  lemma SparedThroughout(ops: seq<Op>, id: Address)
    requires SparedBy(ops, id) && ops != []
    ensures Spares(ops[0], id) && SparedBy(ops[1..], id)
  {
  }

  lemma MappedTwice(s: System, s1: System, s2: System, id: Address, m1: real, b1: real, m2: real, b2: real)
    requires Mapped(s, s1, id, m1, b1) && Mapped(s1, s2, id, m2, b2)
    ensures Mapped(s, s2, id, Times(m2, m1), Times(m2, b1) + b2)
  {
    TimesAssoc(m2, m1, DebtRatio(s, id));
    Distribute(m2, Times(m1, DebtRatio(s, id)), b1);
  }

  /** Hence two vaults not operated on keep their order, whatever happens to the others. */
  lemma OrderPreserved(s: System, ops: seq<Op>, i: Address, j: Address)
    requires Inv(s) && EnabledRun(s, ops)
    requires i in s.vaults && j in s.vaults && SparedBy(ops, i) && SparedBy(ops, j)
    ensures i in Run(s, ops).vaults && j in Run(s, ops).vaults
    ensures DebtRatio(s, i) <= DebtRatio(s, j) <==> DebtRatio(Run(s, ops), i) <= DebtRatio(Run(s, ops), j)
  {
    var m, b := RunIsAffine(s, ops);
    assert Mapped(s, Run(s, ops), i, m, b) && Mapped(s, Run(s, ops), j, m, b);
    Increasing(m, DebtRatio(s, i), DebtRatio(s, j));
  }

  lemma Increasing(m: real, x: real, y: real)
    requires m > 0.0
    ensures x <= y <==> Times(m, x) <= Times(m, y)
  {
    assert Times(m, y) - Times(m, x) == m * (y - x);
  }

  // ----------------------------------------- the sorted list never goes stale

  /** `order` holds exactly the ids of the active vaults, once each. */
  ghost predicate Lists(s: System, order: seq<Address>) {
    Distinct(order) && forall id :: id in order <==> id in s.vaults
  }

  /** Highest NICR first. */
  ghost predicate Sorted(s: System, order: seq<Address>) {
    && (forall i :: 0 <= i < |order| ==> order[i] in s.vaults)
    && (forall i, j :: 0 <= i < j < |order| ==> DebtRatio(s, order[i]) <= DebtRatio(s, order[j]))
  }

  /** The gap before `k` brackets the ratio of `id`: all that the list insertion promises. */
  ghost predicate Brackets(s: System, order: seq<Address>, id: Address, k: nat)
    requires id in s.vaults && forall i :: 0 <= i < |order| ==> order[i] in s.vaults
  {
    && k <= |order|
    && (k > 0 ==> DebtRatio(s, order[k - 1]) <= DebtRatio(s, id))
    && (k < |order| ==> DebtRatio(s, id) <= DebtRatio(s, order[k]))
  }

  /** What the contracts do to the list at one operation: only the vault operated on is
      inserted, re-inserted or removed, and a redistribution touches nothing. */
  ghost predicate ListStep(s: System, op: Op, order: seq<Address>, order': seq<Address>)
    requires Enabled(s, op)
  {
    var s' := Step(s, op);
    match op
    case Open(id, _, _) =>
      (forall i :: 0 <= i < |order| ==> order[i] in s'.vaults) &&
      exists k :: Brackets(s', order, id, k) && order' == InsertAt(order, k, id)
    case Adjust(id, _, _) =>
      var rest := Without(order, id);
      (forall i :: 0 <= i < |rest| ==> rest[i] in s'.vaults) &&
      exists k :: Brackets(s', rest, id, k) && order' == InsertAt(rest, k, id)
    case Remove(id) => order' == Without(order, id)
    case _ => order' == order
  }

  lemma {:induction false} WithoutHolds(order: seq<Address>, id: Address, a: Address)
    requires Distinct(order)
    ensures a in Without(order, id) <==> a in order && a != id
  {
    if order != [] {
      var rest := order[1..];
      WithoutHolds(rest, id, a);
      assert a in order <==> a == order[0] || a in rest;
      assert order[0] !in rest;
    }
  }

  lemma {:induction false} WithoutKeepsSorted(s: System, order: seq<Address>, id: Address)
    requires Distinct(order) && Sorted(s, order)
    ensures Distinct(Without(order, id)) && Sorted(s, Without(order, id))
    ensures order != [] && Without(order, id) != [] ==> DebtRatio(s, order[0]) <= DebtRatio(s, Without(order, id)[0])
  {
    if order != [] {
      var rest := order[1..];
      WithoutKeepsSorted(s, rest, id);
      WithoutHolds(rest, id, order[0]);
    }
  }

  lemma WithoutOne(s: System, order: seq<Address>, id: Address)
    requires Lists(s, order) && Sorted(s, order)
    ensures Distinct(Without(order, id)) && Sorted(s, Without(order, id))
    ensures forall a :: a in Without(order, id) <==> a in s.vaults && a != id
  {
    WithoutKeepsSorted(s, order, id);
    forall a ensures a in Without(order, id) <==> a in order && a != id {
      WithoutHolds(order, id, a);
    }
  }

  /** The ratios of spared vaults stay in order through a step. */
  lemma StepKeepsSorted(s: System, op: Op, order: seq<Address>)
    requires Inv(s) && Enabled(s, op) && Sorted(s, order)
    requires forall i :: 0 <= i < |order| ==> Spares(op, order[i])
    ensures Sorted(Step(s, op), order)
  {
    if order == [] { return; }
    var m, b := StepIsAffine(s, op);
    forall i, j | 0 <= i < j < |order|
      ensures DebtRatio(Step(s, op), order[i]) <= DebtRatio(Step(s, op), order[j])
    {
      assert Mapped(s, Step(s, op), order[i], m, b) && Mapped(s, Step(s, op), order[j], m, b);
      Increasing(m, DebtRatio(s, order[i]), DebtRatio(s, order[j]));
    }
  }

  lemma InsertKeepsSorted(s: System, order: seq<Address>, id: Address, k: nat)
    requires Sorted(s, order) && Distinct(order) && id !in order && id in s.vaults && Brackets(s, order, id, k)
    ensures Sorted(s, InsertAt(order, k, id)) && Distinct(InsertAt(order, k, id))
    ensures forall a :: a in InsertAt(order, k, id) <==> a == id || a in order
  {
    InsertHolds(order, k, id);
    var longer := InsertAt(order, k, id);
    forall i, j | 0 <= i < j < |longer| ensures DebtRatio(s, longer[i]) <= DebtRatio(s, longer[j]) {
      if i < k < j { assert DebtRatio(s, order[i]) <= DebtRatio(s, order[j - 1]); }
      if i < k - 1 && j == k { assert DebtRatio(s, order[i]) <= DebtRatio(s, order[k - 1]); }
      if i == k && j > k + 1 { assert DebtRatio(s, order[k]) <= DebtRatio(s, order[j - 1]); }
    }
  }

  lemma InsertHolds(order: seq<Address>, k: nat, id: Address)
    requires Distinct(order) && id !in order && k <= |order|
    ensures Distinct(InsertAt(order, k, id))
    ensures forall a :: a in InsertAt(order, k, id) <==> a == id || a in order
  {
    var longer := InsertAt(order, k, id);
    assert longer[k] == id;
    forall a | a in order ensures a in longer {
      var j :| 0 <= j < |order| && order[j] == a;
      assert longer[if j < k then j else j + 1] == a;
    }
  }

  lemma OpenedSorted(s: System, op: Op, order: seq<Address>, order': seq<Address>)
    requires Inv(s) && Enabled(s, op) && op.Open? && Lists(s, order) && Sorted(s, order) && ListStep(s, op, order, order')
    ensures Lists(Step(s, op), order') && Sorted(Step(s, op), order')
  {
    var s' := Step(s, op);
    StepKeepsSorted(s, op, order);
    var k :| Brackets(s', order, op.id, k) && order' == InsertAt(order, k, op.id);
    InsertKeepsSorted(s', order, op.id, k);
  }

  lemma AdjustedSorted(s: System, op: Op, order: seq<Address>, order': seq<Address>)
    requires Inv(s) && Enabled(s, op) && op.Adjust? && Lists(s, order) && Sorted(s, order) && ListStep(s, op, order, order')
    ensures Lists(Step(s, op), order') && Sorted(Step(s, op), order')
  {
    var s' := Step(s, op);
    WithoutOne(s, order, op.id);
    var rest := Without(order, op.id);
    StepKeepsSorted(s, op, rest);
    var k :| Brackets(s', rest, op.id, k) && order' == InsertAt(rest, k, op.id);
    InsertKeepsSorted(s', rest, op.id, k);
  }

  lemma ListStepKeepsSorted(s: System, op: Op, order: seq<Address>, order': seq<Address>)
    requires Inv(s) && Enabled(s, op) && Lists(s, order) && Sorted(s, order) && ListStep(s, op, order, order')
    ensures Lists(Step(s, op), order') && Sorted(Step(s, op), order')
  {
    match op
    case Open(_, _, _) =>
      OpenedSorted(s, op, order, order');
    case Adjust(_, _, _) =>
      AdjustedSorted(s, op, order, order');
    case Remove(id) =>
      WithoutOne(s, order, id);
      StepKeepsSorted(s, op, order');
    case _ =>
      StepKeepsSorted(s, op, order);
  }

  ghost predicate ListRun(s: System, ops: seq<Op>, order: seq<Address>, order': seq<Address>)
    requires EnabledRun(s, ops)
    decreases |ops|
  {
    if ops == [] then order' == order
    else exists order1 :: ListStep(s, ops[0], order, order1) && ListRun(Step(s, ops[0]), ops[1..], order1, order')
  }

  /** Over every run, with insertions at any bracketing gap, the list holds exactly the
      active vaults and is sorted by current ratio, though no liquidation re-inserts anything. */
  lemma {:induction false} ListStaysSorted(s: System, ops: seq<Op>, order: seq<Address>, order': seq<Address>)
    requires Inv(s) && EnabledRun(s, ops) && Lists(s, order) && Sorted(s, order) && ListRun(s, ops, order, order')
    ensures Lists(Run(s, ops), order') && Sorted(Run(s, ops), order')
    decreases |ops|
  {
    if ops != [] {
      var order1 :| ListStep(s, ops[0], order, order1) && ListRun(Step(s, ops[0]), ops[1..], order1, order');
      StepKeepsInv(s, ops[0]);
      ListStepKeepsSorted(s, ops[0], order, order1);
      ListStaysSorted(Step(s, ops[0]), ops[1..], order1, order');
    }
  }

  /** In particular from the empty list on. */
  lemma SortedFromEmpty(ops: seq<Op>, order': seq<Address>)
    requires EnabledRun(Empty, ops) && ListRun(Empty, ops, [], order')
    ensures Inv(Run(Empty, ops)) && Lists(Run(Empty, ops), order') && Sorted(Run(Empty, ops), order')
  {
    InvEmpty();
    RunKeepsInv(Empty, ops);
    ListStaysSorted(Empty, ops, [], order');
  }
}
