/** A run of the contracts in which rounding swaps two vaults that are not operated on. */
module OrderSwap {
  import opened Arithmetic
  import opened Units
  import opened VaultList
  import opened VaultAccounts
  import opened Liquidation
  import opened VaultRuns
  import opened OrderDrift
  import PoolModel

  /** The second vault has a little more debt per collateral than the first. */
  function OpensTwo(rest: seq<Op>): seq<Op> {
    [OpenVault(1, 3 * U / 2, 3000 * U)] + ([OpenVault(2, 3 * U, 6000 * U + 1)] + rest)
  }

  /** A third vault opens and is liquidated while the Stability Pool is empty. */
  function LiquidatesOne(pool: PoolModel.Pool): seq<Op> {
    [OpenVault(3, 104 * (U / 1000), 2350 * U)] + ([BatchLiquidateVaults([3], 10000 * U, pool)] + [])
  }

  ghost predicate TwoOpen(s: System) {
    s == System(map[1 := Vault(3000 * U, 3 * U / 2, 3 * U / 2, 0, 0), 2 := Vault(6000 * U + 1, 3 * U, 3 * U, 0, 0)],
                9 * U / 2, 0, 0, 0, 0, 0, 0, 9 * U / 2, 9000 * U + 1, 0, 0)
  }

  const ThirdVault: Vault := Vault(2350 * U, 104 * (U / 1000), 104 * (U / 1000), 0, 0)

  ghost predicate ThreeOpen(s: System) {
    s == System(map[1 := Vault(3000 * U, 3 * U / 2, 3 * U / 2, 0, 0), 2 := Vault(6000 * U + 1, 3 * U, 3 * U, 0, 0), 3 := ThirdVault],
                9 * U / 2 + 104 * (U / 1000), 0, 0, 0, 0, 0, 0, 9 * U / 2 + 104 * (U / 1000), 11350 * U + 1, 0, 0)
  }

  /** The third vault is closed, its amounts are still in the ActivePool. */
  ghost predicate ThirdClosed(s: System) {
    s == System(map[1 := Vault(3000 * U, 3 * U / 2, 3 * U / 2, 0, 0), 2 := Vault(6000 * U + 1, 3 * U, 3 * U, 0, 0)],
                9 * U / 2, 0, 0, 0, 0, 0, 0, 9 * U / 2 + 104 * (U / 1000), 11350 * U + 1, 0, 0)
  }

  ghost predicate Swapped(s: System) {
    s == System(map[1 := Vault(3000 * U, 3 * U / 2, 3 * U / 2, 0, 0), 2 := Vault(6000 * U + 1, 3 * U, 3 * U, 0, 0)],
                9 * U / 2, 9 * U / 2, 9 * U / 2 + 10348 * (U / 100000), 22995555555555555, 522222222222222222222, 5 * U / 2, U,
                9 * U / 2, 9000 * U + 1, 10348 * (U / 100000), 2350 * U)
  }

  lemma OpensAll(s: System) returns (s1: System, s2: System, s3: System)
    requires Initial(s)
    ensures Open(s, 1, 3 * U / 2, 3000 * U) == Ok(s1) && Open(s1, 2, 3 * U, 6000 * U + 1) == Ok(s2) && TwoOpen(s2)
    ensures Open(s2, 3, 104 * (U / 1000), 2350 * U) == Ok(s3) && ThreeOpen(s3)
  {
    assert s.vaults == map[];
    s1 := Open(s, 1, 3 * U / 2, 3000 * U).system;
    s2 := Open(s1, 2, 3 * U, 6000 * U + 1).system;
    s3 := Open(s2, 3, 104 * (U / 1000), 2350 * U).system;
  }

  lemma ThirdIsBelow(s: System, price: nat)
    requires ThreeOpen(s) && SnapsOk(s) && price == 10000 * U
    ensures !InRecovery(s, price) && ICR(s, 3, price) < MCR
    ensures EntireDebt(s, s.vaults[3]) == 2350 * U && EntireColl(s, s.vaults[3]) == 104 * (U / 1000)
  {
  }

  lemma ClosesThird(s: System) returns (r: System)
    requires ThreeOpen(s) && SnapsOk(s)
    ensures Retire(s, 3) == Ok(r) && ThirdClosed(r)
  {
    r := Retire(s, 3).system;
    assert r.vaults == map[1 := Vault(3000 * U, 3 * U / 2, 3 * U / 2, 0, 0), 2 := Vault(6000 * U + 1, 3 * U, 3 * U, 0, 0)];
  }

  ghost predicate ThirdTaken(v: Values) {
    v == Values(2350 * U, 104 * (U / 1000), 52 * (U / 100000), BPD_GAS_COMPENSATION, 0, 0, 2350 * U, 10348 * (U / 100000), 0)
  }

  lemma WithoutPool(debt: nat, coll: nat)
    requires debt > 0
    ensures NormalValues(debt, coll, 0) == RedistributedValues(debt, coll)
  {
  }

  lemma ThirdIsRedistributed(debt: nat, coll: nat)
    requires debt == 2350 * U && coll == 104 * (U / 1000)
    ensures ThirdTaken(NormalValues(debt, coll, 0))
  {
    WithoutPool(debt, coll);
    hide NormalValues;
    UniqueQuotient(coll, PERCENT_DIVISOR, 52 * (U / 100000));
  }

  lemma PerUnitIs(amount: nat, stakes: nat, q: nat, r: nat)
    requires stakes > 0 && amount * PRECISION == q * stakes + r && r < stakes
    ensures PerUnit(amount, 0, stakes) == q && Carry(amount, 0, stakes) == r
  {
    UniqueQuotient(amount * PRECISION, stakes, q);
  }

  lemma ThirdPerUnit(coll: nat, debt: nat, stakes: nat)
    requires coll == 103_480_000_000_000_000 && debt == 2350 * PRECISION && stakes == 4_500_000_000_000_000_000
    ensures PerUnit(coll, 0, stakes) == 22_995_555_555_555_555 && Carry(coll, 0, stakes) == 2_500_000_000_000_000_000
    ensures PerUnit(debt, 0, stakes) == 522_222_222_222_222_222_222 && Carry(debt, 0, stakes) == PRECISION
  {
    hide PerUnit, Carry;
    PerUnitIs(coll, stakes, 22_995_555_555_555_555, 2_500_000_000_000_000_000);
    PerUnitIs(debt, stakes, 522_222_222_222_222_222_222, PRECISION);
  }

  lemma SpreadsThird(r: System, v: Values, pool: PoolModel.Pool, t: System)
    requires ThirdClosed(r) && pool.bpd == 0 && v == Plus(Zero, v) && ThirdTaken(v) && Swapped(t)
    ensures Finish(r, v, pool) == Ok(t)
  {
    WholePoolAccepts(pool, v.collToSP);
    ThirdPerUnit(v.collToRedistribute, v.debtToRedistribute, r.totalStakes);
    hide PoolModel.Offset, PerUnit, Carry;
  }

  lemma LiquidatesTheThird(s: System, price: nat, pool: PoolModel.Pool) returns (t: System)
    requires ThreeOpen(s) && SnapsOk(s) && price == 10000 * U && pool.bpd == 0
    ensures BatchLiquidate(s, [3], price, pool) == Ok(t) && Swapped(t)
  {
    t := System(map[1 := Vault(3000 * U, 3 * U / 2, 3 * U / 2, 0, 0), 2 := Vault(6000 * U + 1, 3 * U, 3 * U, 0, 0)],
                9 * U / 2, 9 * U / 2, 9 * U / 2 + 10348 * (U / 100000), 22995555555555555, 522222222222222222222, 5 * U / 2, U,
                9 * U / 2, 9000 * U + 1, 10348 * (U / 100000), 2350 * U);
    assert Swapped(t);
    var r := ClosesThird(s);
    ThirdIsBelow(s, price);
    var v := NormalValues(EntireDebt(s, s.vaults[3]), EntireColl(s, s.vaults[3]), pool.bpd);
    ThirdIsRedistributed(2350 * U, 104 * (U / 1000));
    assert Plus(Zero, v) == v;
    hide Swapped, ThirdTaken, ThirdClosed, ThreeOpen;
    SpreadsThird(r, v, pool, t);
    BatchOfOne(s, 3, price, pool, r, t);
  }

  lemma RatioIs(s: System, a: Address, coll: nat, debt: nat, ratio: nat)
    requires SnapsOk(s) && a in s.vaults && EntireColl(s, s.vaults[a]) == coll && EntireDebt(s, s.vaults[a]) == debt > 0
    requires ratio * debt <= coll * NICR_PRECISION < (ratio + 1) * debt
    ensures NICR(s, a) == ratio
  {
    UniqueQuotient(coll * NICR_PRECISION, debt, ratio);
  }

  lemma FirstLeads(s: System)
    requires TwoOpen(s) && SnapsOk(s)
    ensures NICR(s, 1) > NICR(s, 2)
  {
    assert EntireColl(s, s.vaults[1]) == 1_500_000_000_000_000_000 && EntireDebt(s, s.vaults[1]) == 3_000_000_000_000_000_000_000;
    assert EntireColl(s, s.vaults[2]) == 3_000_000_000_000_000_000 && EntireDebt(s, s.vaults[2]) == 6_000_000_000_000_000_000_001;
    hide NICR, TwoOpen, SnapsOk;
    assert SnapsOk(s) && 1 in s.vaults && 2 in s.vaults;
    RatioIs(s, 1, 1_500_000_000_000_000_000, 3_000_000_000_000_000_000_000, 50_000_000_000_000_000);
    RatioIs(s, 2, 3_000_000_000_000_000_000, 6_000_000_000_000_000_000_001, 49_999_999_999_999_999);
  }

  lemma AmountIs(s: System, v: Vault, coll: nat, debt: nat)
    requires SnapOk(s, v) && v.snapColl == 0 && v.snapDebt == 0
    requires PRECISION * (coll - v.coll) <= v.stake * s.accColl < PRECISION * (coll - v.coll + 1) && coll >= v.coll
    requires PRECISION * (debt - v.debt) <= v.stake * s.accDebt < PRECISION * (debt - v.debt + 1) && debt >= v.debt
    ensures EntireColl(s, v) == coll && EntireDebt(s, v) == debt
  {
    UniqueQuotient(v.stake * s.accColl, PRECISION, coll - v.coll);
    UniqueQuotient(v.stake * s.accDebt, PRECISION, debt - v.debt);
  }

  lemma AmountsSwapped(s: System)
    requires Swapped(s)
    ensures 1 in s.vaults && 2 in s.vaults && SnapOk(s, s.vaults[1]) && SnapOk(s, s.vaults[2])
    ensures EntireColl(s, s.vaults[1]) == 1_534_493_333_333_333_332 && EntireDebt(s, s.vaults[1]) == 3_783_333_333_333_333_333_333
    ensures EntireColl(s, s.vaults[2]) == 3_068_986_666_666_666_665 && EntireDebt(s, s.vaults[2]) == 7_566_666_666_666_666_666_667
  {
    AmountIs(s, s.vaults[1], 1_534_493_333_333_333_332, 3_783_333_333_333_333_333_333);
    AmountIs(s, s.vaults[2], 3_068_986_666_666_666_665, 7_566_666_666_666_666_666_667);
  }

  lemma SecondLeads(s: System)
    requires Swapped(s) && SnapsOk(s)
    ensures NICR(s, 1) < NICR(s, 2)
  {
    AmountsSwapped(s);
    hide NICR, Swapped;
    RatioIs(s, 1, 1_534_493_333_333_333_332, 3_783_333_333_333_333_333_333, 40_559_295_154_185_021);
    RatioIs(s, 2, 3_068_986_666_666_666_665, 7_566_666_666_666_666_666_667, 40_559_295_154_185_022);
  }

  lemma RunsToTwo(s: System, s1: System, s2: System, ops: seq<Op>)
    requires Initial(s) && Valid(s) && Open(s, 1, 3 * U / 2, 3000 * U) == Ok(s1) && Open(s1, 2, 3 * U, 6000 * U + 1) == Ok(s2)
    requires AllWellFormed(ops)
    ensures Valid(s2)
    ensures AllWellFormed(OpensTwo(ops)) && Run(s, OpensTwo(ops)) == Run(s2, ops)
  {
    var rest := [OpenVault(2, 3 * U, 6000 * U + 1)] + ops;
    OneMore(OpenVault(2, 3 * U, 6000 * U + 1), ops);
    hide Open, Initial, Valid, Run, AllWellFormed;
    RunOpening(s, 1, 3 * U / 2, 3000 * U, rest, s1);
    RunOpening(s1, 2, 3 * U, 6000 * U + 1, ops, s2);
  }

  lemma RunsToSwapped(s: System, s3: System, pool: PoolModel.Pool)
    requires Valid(s) && pool.bpd == 0 && Open(s, 3, 104 * (U / 1000), 2350 * U) == Ok(s3) && ThreeOpen(s3)
    ensures AllWellFormed(LiquidatesOne(pool)) && Swapped(Run(s, LiquidatesOne(pool)))
  {
    hide Open, ThreeOpen, Swapped, Valid, BatchLiquidate;
    var batch := BatchLiquidateVaults([3], 10000 * U, pool);
    RunOpening(s, 3, 104 * (U / 1000), 2350 * U, [batch] + [], s3);
    var t := LiquidatesTheThird(s3, 10000 * U, pool);
    RunBatch(s3, [3], 10000 * U, pool, [], t);
  }

  /** A lead within `Most` can be lost: the liquidation of a third vault swaps two vaults that nobody
      touches, so a list that held them in order holds them out of order afterwards. */
  lemma RoundingCanSwapTwoVaults(s: System, pool: PoolModel.Pool)
    requires Initial(s) && pool.bpd == 0
    ensures Valid(s) && AllWellFormed(OpensTwo([])) && AllWellFormed(OpensTwo(LiquidatesOne(pool)))
    ensures var was, now := Run(s, OpensTwo([])), Run(s, OpensTwo(LiquidatesOne(pool)));
            && 1 in was.vaults && 2 in was.vaults && NICR(was, 1) > NICR(was, 2)
            && now.vaults == was.vaults && NICR(now, 1) < NICR(now, 2)
  {
    InitialIsValid(s);
    var s1, s2, s3 := OpensAll(s);
    RunsToTwo(s, s1, s2, []);
    FirstLeads(s2);
    RunsToSwapped(s2, s3, pool);
    RunsToTwo(s, s1, s2, LiquidatesOne(pool));
    SecondLeads(Run(s2, LiquidatesOne(pool)));
  }
}
