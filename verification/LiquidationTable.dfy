/** The liquidation case table and the collateral ratio that decides it, stated in amounts of
    collateral and debt: who is below which ratio, and how a vault's collateral is divided. */
module LiquidationTable {
  import opened Arithmetic
  import opened Units
  import opened VaultList
  import opened VaultAccounts
  import opened Liquidation

  /** `coll` at `price` is worth less than `percent` hundredths of `debt`. */
  predicate WorthLess(coll: int, debt: int, price: nat, percent: nat) {
    100 * (coll * price) < percent * 1_000_000_000_000_000_000 * debt
  }

  // --------------------------------------------------------------- the ratio

  /** The collateral ratio is the value of the collateral per debt, rounded down. */
  lemma RatioIsFloor(coll: nat, debt: nat, price: nat)
    requires debt > 0
    ensures CR(coll, debt, price) * debt <= coll * price < (CR(coll, debt, price) + 1) * debt
  {
    DivBounds(coll * price, debt);
  }

  /** Without debt it is the largest number of 256 bits. */
  lemma NoDebtIsMaximal(coll: nat, price: nat)
    ensures CR(coll, 0, price) + 1 == 0x1_0000_0000_0000_0000 * 0x1_0000_0000_0000_0000 * (0x1_0000_0000_0000_0000 * 0x1_0000_0000_0000_0000)
  {
  }

  lemma RatioBelow(coll: nat, debt: nat, price: nat, x: nat)
    requires debt > 0
    ensures CR(coll, debt, price) < x <==> coll * price < x * debt
  {
    var r := CR(coll, debt, price);
    RatioIsFloor(coll, debt, price);
    MulMono(r + 1, x, debt);
    MulMono(x, r, debt);
  }

  /** The three thresholds: 110%, 150%, and at most 100%. */
  lemma Thresholds(coll: nat, debt: nat, price: nat)
    requires debt > 0
    ensures CR(coll, debt, price) < MCR <==> WorthLess(coll, debt, price, 110)
    ensures CR(coll, debt, price) < CCR <==> WorthLess(coll, debt, price, 150)
    ensures CR(coll, debt, price) <= FULL_RATIO <==> coll * price < 1_000_000_000_000_000_001 * debt
  {
    RatioBelow(coll, debt, price, MCR);
    RatioBelow(coll, debt, price, CCR);
    RatioBelow(coll, debt, price, FULL_RATIO + 1);
    hide CR;
    Hundredfold(coll * price, debt, 11, 100_000_000_000_000_000);
    Hundredfold(coll * price, debt, 15, 100_000_000_000_000_000);
  }

  lemma Hundredfold(value: nat, debt: nat, tenths: nat, tenth: nat)
    ensures value < tenths * tenth * debt <==> 100 * value < 10 * tenths * (10 * tenth) * debt
  {
    assert 10 * tenths * (10 * tenth) * debt == 100 * (tenths * tenth * debt);
  }

  /** Below which ratio a vault is at `price`; no vault is without debt. */
  lemma NoDebtIsHealthy(coll: nat, price: nat)
    ensures CR(coll, 0, price) > MCR && CR(coll, 0, price) > CCR && !WorthLess(coll, 0, price, 110) && !WorthLess(coll, 0, price, 150)
  {
  }

  // --------------------------------------------------------------- the table

  /** A closed vault's amounts when `offset` of its debt goes to the Stability Pool and `surplus` of its
      collateral stays its owner's: half a percent of the rest, rounded down, is the liquidator's, the
      Stability Pool gets what belongs to the offset debt, rounded down, and the other vaults what
      remains of either. */
  predicate Split(v: Values, debt: nat, coll: nat, offset: nat, surplus: nat) {
    && surplus <= coll && offset <= debt
    && v.entireDebt == debt && v.entireColl == coll && v.collSurplus == surplus
    && v.debtToOffset == offset && v.debtToRedistribute == debt - offset
    && 200 * v.collGas <= coll - surplus < 200 * (v.collGas + 1)
    && v.debtGas == 200_000_000_000_000_000_000
    && v.collToSP * debt <= (coll - surplus - v.collGas) * offset < (v.collToSP + 1) * debt
    && v.collToRedistribute == coll - surplus - v.collGas - v.collToSP
  }

  /** These amounts are no other. */
  lemma SplitIsUnique(v: Values, w: Values, debt: nat, coll: nat, offset: nat, surplus: nat)
    requires debt > 0 && Split(v, debt, coll, offset, surplus) && Split(w, debt, coll, offset, surplus)
    ensures v == w
  {
    assert v.collGas == w.collGas;
    var n := (coll - surplus - v.collGas) * offset;
    UniqueQuotient(n, debt, v.collToSP);
    UniqueQuotient(n, debt, w.collToSP);
  }

  /** A full offset sends all that is left after compensation to the Stability Pool, none at all nothing. */
  lemma SplitAtTheEnds(v: Values, debt: nat, coll: nat, offset: nat, surplus: nat)
    requires debt > 0 && Split(v, debt, coll, offset, surplus)
    ensures offset == debt ==> v.collToSP == coll - surplus - v.collGas && v.collToRedistribute == 0
    ensures offset == 0 ==> v.collToSP == 0 && v.collToRedistribute == coll - surplus - v.collGas
  {
    var rest := coll - surplus - v.collGas;
    if offset == debt {
      MulMono(v.collToSP + 1, rest, debt);
      MulMono(rest + 1, v.collToSP, debt);
    }
    if offset == 0 {
      MulMono(1, v.collToSP, debt);
    }
  }

  lemma HalfPercent(base: nat)
    ensures 200 * (base / PERCENT_DIVISOR) <= base < 200 * (base / PERCENT_DIVISOR + 1)
  {
    DivBounds(base, PERCENT_DIVISOR);
  }

  /** Normal mode, and recovery mode below 110%: as much debt is offset as the pool has. */
  lemma NormalSplit(debt: nat, coll: nat, pool: nat)
    requires debt > 0
    ensures Split(NormalValues(debt, coll, pool), debt, coll, if debt < pool then debt else pool, 0)
  {
    HalfPercent(coll);
    var toLiquidate := coll - coll / PERCENT_DIVISOR;
    FractionAtMost(toLiquidate, Min(debt, pool), debt);
    DivBounds(toLiquidate * Min(debt, pool), debt);
  }

  /** Recovery mode at or below 100%: nothing is offset. */
  lemma RedistributedSplit(debt: nat, coll: nat)
    requires debt > 0
    ensures Split(RedistributedValues(debt, coll), debt, coll, 0, 0)
  {
    HalfPercent(coll);
  }

  /** The collateral an owner keeps under the cap: beyond what is worth 110% of the debt, rounded down. */
  predicate KeptBeyondCap(debt: nat, coll: nat, price: nat, surplus: nat) {
    surplus <= coll && (coll - surplus) * price <= 1_100_000_000_000_000_000 * debt < (coll - surplus + 1) * price
  }

  /** Recovery mode from 110% up: the whole debt is offset against 110% of it. */
  lemma CappedSplit(debt: nat, coll: nat, price: nat)
    requires price > 0 && debt > 0 && !WorthLess(coll, debt, price, 110)
    ensures debt * MCR / price <= coll
    ensures var v := CappedValues(debt, coll, price);
            Split(v, debt, coll, debt, v.collSurplus) && KeptBeyondCap(debt, coll, price, v.collSurplus)
  {
    Thresholds(coll, debt, price);
    CapIsWithin(debt, coll, price);
    DivBounds(debt * MCR, price);
    HalfPercent(debt * MCR / price);
  }

  /** The recovery-mode table as a whole: what is done with a vault at which ratio, `tcr` the total ratio. */
  lemma RecoverySplit(debt: nat, coll: nat, pool: nat, tcr: nat, price: nat)
    requires price > 0 && debt > 0
    ensures var o := RecoveryValues(debt, coll, CR(coll, debt, price), pool, tcr, price);
            && (o.Some? <==> WorthLess(coll, debt, price, 110) || (coll * price < tcr * debt && debt <= pool))
            && (o.Some? ==>
                 if coll * price < 1_000_000_000_000_000_001 * debt then Split(o.values, debt, coll, 0, 0)
                 else if WorthLess(coll, debt, price, 110) then Split(o.values, debt, coll, if debt < pool then debt else pool, 0)
                 else Split(o.values, debt, coll, debt, o.values.collSurplus) && KeptBeyondCap(debt, coll, price, o.values.collSurplus))
  {
    Thresholds(coll, debt, price);
    RatioBelow(coll, debt, price, tcr);
    RedistributedSplit(debt, coll);
    NormalSplit(debt, coll, pool);
    if !WorthLess(coll, debt, price, 110) {
      CappedSplit(debt, coll, price);
    }
    hide CR, WorthLess, Split, KeptBeyondCap, NormalValues, CappedValues;
  }
}
