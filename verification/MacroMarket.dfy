/** The stablecoin market of `macro_model.py`: arbitrage, redemption and the period loop. */
module MacroMarket {
  import opened Arithmetic
  import opened MacroVaults

  const RATE_REDEMPTION: real := 0.01
  const CEILING: real := MIN_RATIO + RATE_ISSUANCE
  const FLOOR: real := 1.0 - RATE_REDEMPTION

  // ---------------------------------------------------------------- sorting

  ghost predicate SortedByRatio(vs: seq<Vault>) {
    forall i, j :: 0 <= i < j < |vs| ==> vs[i].crCurrent <= vs[j].crCurrent
  }

  function InsertByRatio(v: Vault, vs: seq<Vault>): seq<Vault> {
    if vs == [] || v.crCurrent <= vs[0].crCurrent then [v] + vs else [vs[0]] + InsertByRatio(v, vs[1..])
  }

  lemma {:induction false} InsertByRatioSorts(v: Vault, vs: seq<Vault>)
    requires SortedByRatio(vs)
    ensures SortedByRatio(InsertByRatio(v, vs))
    ensures InsertByRatio(v, vs)[0] == if vs == [] || v.crCurrent <= vs[0].crCurrent then v else vs[0]
  {
    if vs == [] || v.crCurrent <= vs[0].crCurrent {
    } else {
      var rest := InsertByRatio(v, vs[1..]);
      InsertByRatioSorts(v, vs[1..]);
      forall j | 0 <= j < |rest| ensures vs[0].crCurrent <= rest[j].crCurrent {
        assert rest[0].crCurrent <= rest[j].crCurrent;
      }
    }
  }

  lemma {:induction false} InsertByRatioAdds(v: Vault, vs: seq<Vault>)
    ensures multiset(InsertByRatio(v, vs)) == multiset(vs) + multiset{v}
    ensures Supply(InsertByRatio(v, vs)) == v.supply + Supply(vs)
  {
    var r := InsertByRatio(v, vs);
    if vs == [] || v.crCurrent <= vs[0].crCurrent {
      assert r[1..] == vs;
    } else {
      InsertByRatioAdds(v, vs[1..]);
      assert vs == [vs[0]] + vs[1..];
      assert r[1..] == InsertByRatio(v, vs[1..]);
    }
  }

  lemma OneMoreRow(vs: seq<Vault>, i: nat)
    requires i < |vs|
    ensures multiset(vs[..i + 1]) == multiset(vs[..i]) + multiset{vs[i]}
    ensures Supply(vs[..i + 1]) == vs[i].supply + Supply(vs[..i])
  {
    SupplyOfMore(vs, i);
    assert vs[..i + 1] == vs[..i] + [vs[i]];
  }

  /** `sort_values`: some ascending arrangement of the same rows. */
  method SortByRatio(vs: seq<Vault>) returns (sorted: seq<Vault>)
    ensures SortedByRatio(sorted) && multiset(sorted) == multiset(vs) && Supply(sorted) == Supply(vs)
  {
    sorted := [];
    for i := 0 to |vs|
      invariant SortedByRatio(sorted) && multiset(sorted) == multiset(vs[..i]) && Supply(sorted) == Supply(vs[..i])
    {
      InsertByRatioSorts(vs[i], sorted);
      InsertByRatioAdds(vs[i], sorted);
      OneMoreRow(vs, i);
      sorted := InsertByRatio(vs[i], sorted);
    }
    assert vs[..|vs|] == vs;
  }

  // ------------------------------------------------------------- redemption

  /** The first surviving vault repays `residual` of its debt at face value. */
  function PartlyRedeemed(v: Vault, residual: real, price: real): Vault
    requires price != 0.0 && v.supply != residual
  {
    var w := v.(supply := v.supply - residual, quantity := v.quantity - residual / price);
    w.(crCurrent := price * w.quantity / w.supply)
  }

  lemma PartlyRedeemedBacked(v: Vault, residual: real, price: real)
    requires Backed(v, price) && 0.0 <= residual < v.supply && price > 0.0
    ensures Backed(PartlyRedeemed(v, residual, price), price) && Fresh(PartlyRedeemed(v, residual, price))
    ensures TrueRatio(PartlyRedeemed(v, residual, price)) >= TrueRatio(v)
  {
    var w := PartlyRedeemed(v, residual, price);
    RatioAfterResidual(price, v.quantity, v.supply, residual);
    assert w.quantity == v.quantity - residual / price && w.supply == v.supply - residual;
  }

  /** Giving back the same value of debt and collateral raises a ratio of at least one. */
  lemma RatioAfterResidual(price: real, q: real, s: real, x: real)
    requires price > 0.0 && 0.0 <= x < s && Ratio(price, q, s) >= 1.0
    ensures q - x / price > 0.0 && Ratio(price, q - x / price, s - x) >= Ratio(price, q, s)
  {
    var r, left := Ratio(price, q, s), q - x / price;
    assert x / price * price == x;
    assert price * left == price * q - x;
    assert r * s == price * q;
    RedeemedShare(r, x);
    assert r * (s - x) == r * s - r * x;
    AtLeast(r, price * left, s - x);
    RedeemedShare(r, s - x);
    PositiveFactor(price, left);
  }

  lemma RedeemedShare(r: real, x: real)
    requires r >= 1.0 && x >= 0.0
    ensures r * x >= x
  {
  }

  lemma AtLeast(r: real, n: real, d: real)
    requires d > 0.0 && n >= r * d
    ensures n / d >= r
  {
    assert n / d * d == n;
    RealMulMono(r, n / d, d);
  }

  lemma PositiveFactor(x: real, y: real)
    requires x > 0.0 && x * y > 0.0
    ensures y > 0.0
  {
  }

  /** `n` is the length of the longest prefix whose debt does not exceed `pool`. */
  ghost predicate LongestPrefix(vs: seq<Vault>, pool: real, n: nat) {
    n < |vs| && Supply(vs[..n]) <= pool < Supply(vs[..n + 1])
  }

  lemma {:induction false} PrefixMonotone(vs: seq<Vault>, m: nat, n: nat)
    requires AllSound(vs) && m <= n <= |vs|
    ensures Supply(vs[..m]) <= Supply(vs[..n])
    decreases n
  {
    if m < n {
      SupplyOfMore(vs, n - 1);
      PrefixMonotone(vs, m, n - 1);
    }
  }

  lemma LongestPrefixUnique(vs: seq<Vault>, pool: real, m: nat, n: nat)
    requires AllSound(vs) && LongestPrefix(vs, pool, m) && LongestPrefix(vs, pool, n)
    ensures m == n
  {
    if m < n { PrefixMonotone(vs, m + 1, n); }
    if n < m { PrefixMonotone(vs, n + 1, m); }
  }

  /** While the pool is larger than the first `n + 1` debts there is another vault. */
  lemma NotExhausted(vs: seq<Vault>, pool: real, n: nat)
    requires n < |vs| && Supply(vs[..n + 1]) <= pool < Supply(vs)
    ensures n + 1 < |vs|
  {
    var m := n + 1;
    assert vs[..m] + vs[m..] == vs;
    SupplyOfTwo(vs[..m], vs[m..]);
  }

  /** What is left when the first `n` are gone and the next has repaid `residual`. */
  lemma RestAfter(vs: seq<Vault>, n: nat, residual: real, price: real)
    requires AllBacked(vs, price) && price > 0.0 && n < |vs| && 0.0 <= residual < vs[n].supply
    ensures var rest := [PartlyRedeemed(vs[n], residual, price)] + vs[n + 1..];
            Supply(rest) == Supply(vs) - Supply(vs[..n]) - residual && AllBacked(rest, price)
  {
    var w := PartlyRedeemed(vs[n], residual, price);
    PartlyRedeemedBacked(vs[n], residual, price);
    SupplyOfMore(vs, n);
    SupplyOfTwo(vs[..n + 1], vs[n + 1..]);
    assert vs == vs[..n + 1] + vs[n + 1..];
    SupplyOfTwo([w], vs[n + 1..]);
  }

  /** Drops vaults from the riskiest on while their debt fits the pool, then takes the rest from the
      next one. Never runs out of vaults, and total debt falls by exactly `pool`. */
  method Redeem(sorted: seq<Vault>, pool: real, price: real) returns (rest: seq<Vault>, n: nat)
    requires AllBacked(sorted, price) && price > 0.0 && 0.0 <= pool < Supply(sorted)
    ensures LongestPrefix(sorted, pool, n)
    ensures var residual := pool - Supply(sorted[..n]);
            0.0 <= residual < sorted[n].supply && rest == [PartlyRedeemed(sorted[n], residual, price)] + sorted[n + 1..]
    ensures Supply(rest) == Supply(sorted) - pool && AllBacked(rest, price)
  {
    rest, n := sorted, 0;
    SupplyOfMore(sorted, 0);
    var working := rest[0].supply;
    var redempted := working;
    while redempted <= pool
      invariant n < |sorted| && rest == sorted[n..] && working == sorted[n].supply
      invariant Supply(sorted[..n]) <= pool && redempted == Supply(sorted[..n + 1])
      decreases |rest|
    {
      NotExhausted(sorted, pool, n);
      SupplyOfMore(sorted, n + 1);
      rest := rest[1..];
      working := rest[0].supply;
      redempted := redempted + working;
      n := n + 1;
    }
    SupplyOfMore(sorted, n);
    redempted := redempted - working;
    var residual := pool - redempted;
    RestAfter(sorted, n, residual, price);
    rest := [PartlyRedeemed(rest[0], residual, price)] + rest[1..];
    assert sorted[n..][1..] == sorted[n + 1..];
  }

  /** `vaults` falls into rows dropped and rows kept, nobody dropped at a higher recorded ratio than
      anybody kept; the dropped ones are as many as fit `pool`, and `rest` is the kept ones after the
      first of them has repaid the remainder. */
  ghost predicate Redeemed(vaults: seq<Vault>, rest: seq<Vault>, dropped: seq<Vault>, kept: seq<Vault>, pool: real, price: real) {
    && multiset(vaults) == multiset(dropped) + multiset(kept)
    && (forall d, k :: d in dropped && k in kept ==> d.crCurrent <= k.crCurrent)
    && kept != [] && Supply(dropped) <= pool < Supply(dropped) + kept[0].supply
    && (forall k :: k in kept ==> kept[0].crCurrent <= k.crCurrent)
    && price != 0.0 && rest == [PartlyRedeemed(kept[0], pool - Supply(dropped), price)] + kept[1..]
  }

  /** Redeeming from any ascending arrangement of the vaults takes the riskiest of them first. */
  lemma RiskiestFirst(vaults: seq<Vault>, sorted: seq<Vault>, rest: seq<Vault>, pool: real, n: nat, price: real)
    requires SortedByRatio(sorted) && multiset(sorted) == multiset(vaults) && LongestPrefix(sorted, pool, n) && price != 0.0
    requires sorted[n].supply != pool - Supply(sorted[..n])
    requires rest == [PartlyRedeemed(sorted[n], pool - Supply(sorted[..n]), price)] + sorted[n + 1..]
    ensures Redeemed(vaults, rest, sorted[..n], sorted[n..], pool, price)
  {
    var dropped, kept := sorted[..n], sorted[n..];
    RowsInOrder(vaults, sorted, n);
    SupplyOfMore(sorted, n);
    assert kept[0] == sorted[n] && kept[1..] == sorted[n + 1..];
  }

  lemma RowsInOrder(vaults: seq<Vault>, sorted: seq<Vault>, n: nat)
    requires SortedByRatio(sorted) && multiset(sorted) == multiset(vaults) && n < |sorted|
    ensures multiset(vaults) == multiset(sorted[..n]) + multiset(sorted[n..])
    ensures forall d, k :: d in sorted[..n] && k in sorted[n..] ==> d.crCurrent <= k.crCurrent
    ensures forall k :: k in sorted[n..] ==> sorted[n].crCurrent <= k.crCurrent
  {
    assert sorted == sorted[..n] + sorted[n..];
    forall d, k | d in sorted[..n] && k in sorted[n..] ensures d.crCurrent <= k.crCurrent {
      AcrossThePrefix(sorted, n, d, k);
    }
    forall k | k in sorted[n..] ensures sorted[n].crCurrent <= k.crCurrent {
      var j :| 0 <= j < |sorted| - n && sorted[n..][j] == k;
      assert sorted[n + j] == k;
    }
  }

  lemma AcrossThePrefix(sorted: seq<Vault>, n: nat, d: Vault, k: Vault)
    requires SortedByRatio(sorted) && n <= |sorted| && d in sorted[..n] && k in sorted[n..]
    ensures d.crCurrent <= k.crCurrent
  {
    var i :| 0 <= i < n && sorted[i] == d;
    var j :| 0 <= j < |sorted| - n && sorted[n..][j] == k;
    assert sorted[n + j] == k;
  }

  // -------------------------------------------------------------- the price

  /** The demand curve `x -> x^(1/delta)`, delta negative, and its inverse `y -> y^delta`, known
      only to be positive, strictly decreasing and inverse to each other on positive numbers. */
  ghost predicate DemandCurve(curve: real -> real, inverse: real -> real) {
    && (forall x: real :: x > 0.0 ==> curve(x) > 0.0 && inverse(curve(x)) == x)
    && (forall y: real :: y > 0.0 ==> inverse(y) > 0.0 && curve(inverse(y)) == y)
    && (forall x: real, x': real :: 0.0 < x < x' ==> curve(x) > curve(x'))
  }

  lemma CurveBelow(curve: real -> real, inverse: real -> real, x: real, y: real)
    requires DemandCurve(curve, inverse) && x > 0.0 && y > 0.0
    ensures curve(x) > y <==> x < inverse(y)
    ensures curve(x) < y <==> x > inverse(y)
  {
    assert curve(inverse(y)) == y && inverse(y) > 0.0;
  }

  /** A price; a power of zero or of a negative number is none. */
  datatype Price = Finite(value: real) | Infinite | NotANumber

  predicate Above(p: Price, c: real) { p.Infinite? || (p.Finite? && p.value > c) }
  predicate Below(p: Price, c: real) { p.Finite? && p.value < c }

  /** What a market price is computed from: last period's price and scaled liquidity, and the curve. */
  datatype Market = Market(previous: real, scale: real, curve: real -> real, inverse: real -> real)

  ghost predicate Live(m: Market) { m.previous > 0.0 && m.scale > 0.0 && DemandCurve(m.curve, m.inverse) }

  function PriceAt(m: Market, liquidity: real): Price
    requires m.scale > 0.0
  {
    if liquidity > 0.0 then Finite(Times(m.previous, m.curve(liquidity / m.scale)))
    else if liquidity == 0.0 then Infinite else NotANumber
  }

  /** The liquidity at which the price would be `c`. */
  function LiquidityFor(m: Market, c: real): real
    requires m.previous > 0.0
  {
    Times(m.scale, m.inverse(c / m.previous))
  }

  lemma ReachesPrice(m: Market, c: real)
    requires Live(m) && c > 0.0
    ensures LiquidityFor(m, c) > 0.0 && PriceAt(m, LiquidityFor(m, c)) == Finite(c)
  {
    var y := c / m.previous;
    var z := m.inverse(y);
    PositiveQuotient(c, m.previous);
    assert z > 0.0 && m.curve(z) == y;
    PositiveTimes(m.scale, z);
    assert z * m.scale == LiquidityFor(m, c);
    SameQuotient(LiquidityFor(m, c), m.scale, z);
    TimesQuotient(c, m.previous);
    assert Times(m.previous, y) == Times(y, m.previous);
  }

  lemma PositiveQuotient(x: real, y: real)
    requires x > 0.0 && y > 0.0
    ensures x / y > 0.0
  {
  }

  lemma PriceCompares(m: Market, c: real, liquidity: real)
    requires Live(m) && c > 0.0 && liquidity > 0.0
    ensures PriceAt(m, liquidity).value > c <==> liquidity < LiquidityFor(m, c)
    ensures PriceAt(m, liquidity).value < c <==> liquidity > LiquidityFor(m, c)
  {
    var x, y := liquidity / m.scale, c / m.previous;
    PositiveQuotient(liquidity, m.scale);
    PositiveQuotient(c, m.previous);
    CurveBelow(m.curve, m.inverse, x, y);
    QuotientOrder(m.curve(x), c, m.previous);
    QuotientOrder(m.inverse(y), liquidity, m.scale);
  }

  /** `x` against `n / d`, cleared of the denominator. */
  lemma QuotientOrder(x: real, n: real, d: real)
    requires d > 0.0
    ensures x > n / d <==> Times(d, x) > n
    ensures x < n / d <==> Times(d, x) < n
  {
    assert n / d * d == n && Times(d, x) == x * d;
    RealMulMono(x, n / d, d);
    RealMulMono(n / d, x, d);
  }

  lemma PriceAndLiquidity(m: Market, c: real, liquidity: real)
    requires Live(m) && c > 0.0
    ensures LiquidityFor(m, c) > 0.0 && PriceAt(m, LiquidityFor(m, c)) == Finite(c)
    ensures Above(PriceAt(m, liquidity), c) <==> 0.0 <= liquidity < LiquidityFor(m, c)
    ensures Below(PriceAt(m, liquidity), c) <==> liquidity > LiquidityFor(m, c)
  {
    ReachesPrice(m, c);
    if liquidity > 0.0 {
      PriceCompares(m, c, liquidity);
    }
  }

  // -------------------------------------------------------------- arbitrage

  lemma MintedIsBacked(price: real, supply: real)
    requires price > 0.0 && supply > 0.0
    ensures Backed(Vault(price, supply * MIN_RATIO / price, MIN_RATIO, supply, 0.1, MIN_RATIO), price)
  {
    var q := supply * MIN_RATIO / price;
    assert q * price == supply * MIN_RATIO;
    assert q > 0.0;
    SameQuotient(price * q, supply, MIN_RATIO);
  }

  /** Above the ceiling somebody opens a vault at 110% for exactly the debt that brings the price
      down to it; that is always a positive amount. */
  method CeilingArbitrage(vaults: seq<Vault>, price: real, stability: real, market: Market)
    returns (grown: seq<Vault>, liquidity: real, issuance: real)
    requires AllBacked(vaults, price) && price > 0.0 && Live(market)
    requires Above(PriceAt(market, Supply(vaults) - stability), CEILING)
    ensures |grown| == |vaults| + 1 && grown[..|vaults|] == vaults && AllBacked(grown, price)
    ensures MintedRow(grown[|vaults|], price) && Supply(grown) > Supply(vaults)
    ensures liquidity > 0.0 && PriceAt(market, liquidity) == Finite(CEILING) && Supply(grown) == stability + liquidity
    ensures issuance == Times(RATE_ISSUANCE, Supply(grown) - Supply(vaults))
  {
    PriceAndLiquidity(market, CEILING, Supply(vaults) - stability);
    var wanted := stability + LiquidityFor(market, CEILING);
    var supply := wanted - Supply(vaults);
    MintedIsBacked(price, supply);
    var row := Vault(price, supply * MIN_RATIO / price, MIN_RATIO, supply, 0.1, MIN_RATIO);
    issuance := Times(RATE_ISSUANCE, supply);
    grown := vaults + [row];
    SupplyOfTwo(vaults, [row]);
    liquidity := wanted - stability;
    TrueRatioOfMinted(row);
    assert grown[|vaults|] == row;
  }

  /** The arbitrageur's row: opened at 110%, with an inattention of a tenth. */
  predicate MintedRow(v: Vault, price: real) {
    v.price == price && v.crInitial == 1.1 && v.crCurrent == 1.1 && v.inattention == 0.1 && v.supply != 0.0 && TrueRatio(v) == 1.1
  }

  lemma TrueRatioOfMinted(v: Vault)
    requires v.price > 0.0 && v.supply > 0.0 && v.quantity == v.supply * MIN_RATIO / v.price
    ensures TrueRatio(v) == MIN_RATIO
  {
    assert v.quantity * v.price == v.supply * MIN_RATIO;
    SameQuotient(v.price * v.quantity, v.supply, MIN_RATIO);
  }

  lemma SameRowsBacked(vs: seq<Vault>, ws: seq<Vault>, price: real)
    requires AllBacked(vs, price) && multiset(vs) == multiset(ws)
    ensures AllBacked(ws, price)
  {
    forall i | 0 <= i < |ws| ensures Backed(ws[i], price) {
      assert ws[i] in multiset(ws);
      assert ws[i] in vs;
    }
  }

  /** How much is redeemed below the floor: what restores it, but no more than a fraction of the
      liquidity. A partial redemption reports the price from before it. */
  ghost predicate FloorOutcome(market: Market, liquidity: real, redemptionRatio: real, pool: real, bpd: Price)
    requires Live(market)
  {
    var enough := liquidity - LiquidityFor(market, FLOOR);
    && enough > 0.0 && 0.0 <= pool < liquidity && !Above(PriceAt(market, liquidity - pool), FLOOR) && !Above(bpd, FLOOR)
    && (enough < Times(redemptionRatio, liquidity) ==> pool == enough && bpd == PriceAt(market, liquidity - pool) == Finite(FLOOR))
    && (enough >= Times(redemptionRatio, liquidity) ==> pool == Times(redemptionRatio, liquidity) && bpd == PriceAt(market, liquidity))
  }

  method FloorAmount(supply: real, stability: real, market: Market, redemptionRatio: real) returns (pool: real, bpd: Price)
    requires Live(market) && 0.0 <= redemptionRatio < 1.0 && Below(PriceAt(market, supply - stability), FLOOR)
    ensures FloorOutcome(market, supply - stability, redemptionRatio, pool, bpd)
  {
    var liquidity := supply - stability;
    PriceAndLiquidity(market, FLOOR, liquidity);
    var target := stability + LiquidityFor(market, FLOOR);
    var diff := supply - target;
    var most := Times(redemptionRatio, liquidity);
    FractionBelow(redemptionRatio, liquidity);
    if diff < most {
      pool := diff;
      bpd := Finite(FLOOR);
    } else {
      pool := most;
      bpd := PriceAt(market, liquidity);
    }
    PriceAndLiquidity(market, FLOOR, liquidity - pool);
  }

  method FloorArbitrage(vaults: seq<Vault>, price: real, stability: real, market: Market, redemptionRatio: real)
    returns (bpd: Price, rest: seq<Vault>, fee: real, n: nat, pool: real, ghost dropped: seq<Vault>, ghost kept: seq<Vault>)
    requires AllBacked(vaults, price) && price > 0.0 && Live(market) && stability >= 0.0 && 0.0 <= redemptionRatio < 1.0
    requires Below(PriceAt(market, Supply(vaults) - stability), FLOOR)
    ensures Redeemed(vaults, rest, dropped, kept, pool, price) && n == |dropped|
    ensures Supply(rest) == Supply(vaults) - pool && AllBacked(rest, price)
    ensures FloorOutcome(market, Supply(vaults) - stability, redemptionRatio, pool, bpd)
    ensures fee == Times(RATE_REDEMPTION, pool)
  {
    pool, bpd := FloorAmount(Supply(vaults), stability, market, redemptionRatio);
    var order := SortByRatio(vaults);
    SameRowsBacked(vaults, order, price);
    rest, n := Redeem(order, pool, price);
    RiskiestFirst(vaults, order, rest, pool, n, price);
    dropped, kept := order[..n], order[n..];
    fee := Times(RATE_REDEMPTION, pool);
  }

  lemma FractionBelow(r: real, x: real)
    requires 0.0 <= r < 1.0 && x > 0.0
    ensures 0.0 <= Times(r, x) < x
  {
  }

  datatype Stabilized = Stabilized(bpd: Price, liquidity: real, vaults: seq<Vault>, issuance: real, redemptionFee: real,
                                   nRedempt: nat, redemptionPool: real, nOpen: nat)

  /** Above 1.11 somebody mints at 110% until the price is 1.11; below 0.99 the riskiest vaults are redeemed;
      in between the market price stands and nothing happens. */
  ghost predicate PricedBy(vaults: seq<Vault>, price: real, stability: real, m: Market, redemptionRatio: real, nOpen: nat, r: Stabilized)
    requires Live(m)
  {
    var supply := Supply(vaults) - stability;
    var before := PriceAt(m, supply);
    && (Above(before, 1.11) ==>
         && r.bpd == Finite(1.11) == PriceAt(m, r.liquidity) && Supply(r.vaults) == stability + r.liquidity && r.redemptionPool == 0.0
         && |r.vaults| == |vaults| + 1 && r.vaults[..|vaults|] == vaults && MintedRow(r.vaults[|vaults|], price)
         && Supply(r.vaults) > Supply(vaults) && r.nOpen == nOpen + 1 && r.nRedempt == 0)
    && (Below(before, 0.99) ==>
         && r.liquidity == supply && r.nOpen == nOpen && FloorOutcome(m, r.liquidity, redemptionRatio, r.redemptionPool, r.bpd)
         && exists dropped, kept :: Redeemed(vaults, r.vaults, dropped, kept, r.redemptionPool, price) && r.nRedempt == |dropped|)
    && (!Above(before, 1.11) && !Below(before, 0.99) ==> r == Stabilized(before, supply, vaults, 0.0, 0.0, 0, 0.0, nOpen))
  }

  /** The fees are a hundredth of the debt minted and of the debt redeemed. */
  ghost predicate Charged(vaults: seq<Vault>, r: Stabilized) {
    && r.redemptionPool >= 0.0 && r.redemptionFee == Times(0.01, r.redemptionPool)
    && r.issuance == Times(0.01, Supply(r.vaults) + r.redemptionPool - Supply(vaults)) && r.issuance >= 0.0
  }

  /** Whatever the price does, the liquidity pool and the Stability Pool together are the final debt
      and what was redeemed, and every vault is backed. */
  method PriceStabilizer(vaults: seq<Vault>, price: real, stability: real, market: Market, redemptionRatio: real, nOpen: nat)
    returns (r: Stabilized)
    requires AllBacked(vaults, price) && price > 0.0 && Live(market) && stability >= 0.0 && 0.0 <= redemptionRatio < 1.0
    ensures r.liquidity + stability == Supply(r.vaults) + r.redemptionPool && r.redemptionPool >= 0.0 && AllBacked(r.vaults, price)
    ensures PricedBy(vaults, price, stability, market, redemptionRatio, nOpen, r) && Charged(vaults, r)
    ensures r.liquidity >= 0.0 ==> r.liquidity > 0.0 && r.bpd.Finite? && r.bpd.value > 0.0
  {
    var liquidity := Supply(vaults) - stability;
    var bpd := PriceAt(market, liquidity);
    if liquidity > 0.0 {
      PositivePrice(market, liquidity);
    }
    if Above(bpd, CEILING) {
      var grown, wanted, issuance := CeilingArbitrage(vaults, price, stability, market);
      NonnegProduct(RATE_ISSUANCE, Supply(grown) - Supply(vaults));
      r := Stabilized(Finite(CEILING), wanted, grown, issuance, 0.0, 0, 0.0, nOpen + 1);
      hide Times, PriceAt, MintedRow;
    } else if Below(bpd, FLOOR) {
      var after, rest, fee, n, pool;
      ghost var dropped, kept;
      after, rest, fee, n, pool, dropped, kept := FloorArbitrage(vaults, price, stability, market, redemptionRatio);
      NonnegProduct(RATE_REDEMPTION, pool);
      r := Stabilized(after, liquidity, rest, 0.0, fee, n, pool, nOpen);
      NoneMinted(vaults, rest, pool);
      FloorCounts(vaults, price, stability, market, redemptionRatio, nOpen, r, dropped, kept);
    } else {
      r := Stabilized(bpd, liquidity, vaults, 0.0, 0.0, 0, 0.0, nOpen);
      NoneMinted(vaults, vaults, 0.0);
    }
  }

  lemma NoneMinted(vaults: seq<Vault>, rest: seq<Vault>, pool: real)
    requires Supply(rest) == Supply(vaults) - pool
    ensures Times(0.01, Supply(rest) + pool - Supply(vaults)) == 0.0 && Times(0.01, 0.0) == 0.0
  {
  }

  lemma FloorCounts(vaults: seq<Vault>, price: real, stability: real, m: Market, redemptionRatio: real, nOpen: nat, r: Stabilized,
                    dropped: seq<Vault>, kept: seq<Vault>)
    requires Live(m) && Below(PriceAt(m, Supply(vaults) - stability), 0.99) && r.liquidity == Supply(vaults) - stability && r.nOpen == nOpen
    requires Redeemed(vaults, r.vaults, dropped, kept, r.redemptionPool, price) && r.nRedempt == |dropped|
    requires FloorOutcome(m, r.liquidity, redemptionRatio, r.redemptionPool, r.bpd)
    ensures PricedBy(vaults, price, stability, m, redemptionRatio, nOpen, r)
  {
    hide Redeemed, FloorOutcome, PriceAt, MintedRow, Live;
  }

  lemma PositivePrice(m: Market, liquidity: real)
    requires Live(m) && liquidity > 0.0
    ensures PriceAt(m, liquidity).value > 0.0
  {
    var x := liquidity / m.scale;
    assert x * m.scale == liquidity && x > 0.0;
    assert m.curve(x) > 0.0;
  }

  // ------------------------------------------------------------- the periods

  /** What one period draws from outside. `drops` is the sample of rows to close. */
  datatype Exogenous = Exogenous(price: real, drops: set<nat>, ratio: real, adjustDraw: nat -> real, openDraws: seq<Draw>,
                                 stability: real, liquidityDrift: real, redemptionRatio: real)

  ghost predicate Drawn(e: Exogenous) {
    && e.price > 0.0 && e.stability >= 0.0 && e.liquidityDrift > 0.0 && 0.0 <= e.redemptionRatio < 1.0
    && forall i :: 0 <= i < |e.openDraws| ==> Drawable(e.openDraws[i])
  }

  /** The simulation continues, ends with a negative liquidity pool, or fails because more rows were
      to be sampled than there are. */
  datatype Outcome = Continues | Ends | SampleError

  function Repriced(vs: seq<Vault>, price: real): (r: seq<Vault>)
    ensures |r| == |vs| && forall i :: 0 <= i < |vs| ==> r[i] == vs[i].(price := price)
  {
    seq(|vs|, i requires 0 <= i < |vs| => vs[i].(price := price))
  }

  /** How many vaults would be worth at least 110% of their debt at `price`. */
  ghost function Healthy(vs: seq<Vault>, price: real): nat
    requires AllSound(vs)
  {
    if vs == [] then 0
    else (if Ratio(price, vs[0].quantity, vs[0].supply) >= MIN_RATIO then 1 else 0) + Healthy(vs[1..], price)
  }

  lemma {:induction false} HealthySurvive(vs: seq<Vault>, price: real)
    requires AllSound(vs)
    ensures forall v :: v in Repriced(vs, price) ==> v.supply != 0.0
    ensures |Select(Recorded(Repriced(vs, price)), false)| == Healthy(vs, price)
  {
    forall v | v in Repriced(vs, price) ensures v.supply != 0.0 {
      var i :| 0 <= i < |vs| && Repriced(vs, price)[i] == v;
      assert Sound(vs[i]);
    }
    if vs != [] {
      HealthySurvive(vs[1..], price);
      var recorded := Recorded(Repriced(vs, price));
      assert recorded[1..] == Recorded(Repriced(vs[1..], price));
      assert recorded[0].crCurrent == Ratio(price, vs[0].quantity, vs[0].supply);
    }
  }

  /** The rows at or above 110% at the new price, in order, with their ratios recorded. */
  ghost predicate Survivors(vaults0: seq<Vault>, price: real, kept: seq<Vault>)
    requires AllSound(vaults0)
  {
    (forall v :: v in Repriced(vaults0, price) ==> v.supply != 0.0) && kept == Select(Recorded(Repriced(vaults0, price)), false)
  }

  /** Liquidate and close: whoever is left is backed, at a recorded ratio that is up to date. */
  method LiquidateAndClose(vaults0: seq<Vault>, bpd0: real, e: Exogenous) returns (ok: bool, vaults: seq<Vault>, ghost kept: seq<Vault>)
    requires AllSound(vaults0) && Drawn(e)
    ensures ok <==> forall d :: d in e.drops ==> d < Healthy(vaults0, e.price)
    ensures Survivors(vaults0, e.price, kept)
    ensures ok ==> Drops(kept, e.drops, vaults) && AllBacked(vaults, e.price) && AllFresh(vaults) && |vaults| == Healthy(vaults0, e.price) - |e.drops|
  {
    HealthySurvive(vaults0, e.price);
    var repriced := Repriced(vaults0, e.price);
    var healthy, debt, quantity, gain, nLiquidate := LiquidateVaults(repriced, e.price, bpd0);
    kept := healthy;
    if exists d :: d in e.drops && d >= |healthy| { return false, healthy, kept; }
    var nClose;
    vaults, nClose := CloseVaults(healthy, e.drops);
    ClosedStays(healthy, vaults, e.price);
    ok := true;
  }

  /** Every row is adjusted by its own draw, and one row opened for each of the period's draws. */
  ghost predicate AdjustsAndOpens(before: seq<Vault>, e: Exogenous, adjusted: seq<Vault>, after: seq<Vault>) {
    && |adjusted| == |before| && |after| == |adjusted| + |e.openDraws| && after[..|adjusted|] == adjusted
    && (forall i :: 0 <= i < |before| ==>
         before[i].crInitial * before[i].inattention != 0.0 && AdjustedRow(before[i], adjusted[i], e.adjustDraw(i) >= e.ratio))
    && (forall i :: |adjusted| <= i < |after| ==> OpenedRow(after[i], e.price, e.openDraws[i - |adjusted|]))
  }

  lemma AsMany(before: seq<Vault>, e: Exogenous, adjusted: seq<Vault>, after: seq<Vault>)
    requires AdjustsAndOpens(before, e, adjusted, after)
    ensures |adjusted| == |before|
  {
  }

  /** Adjust and open. The fees are a hundredth of the debt added in either. */
  method AdjustAndOpen(vaults0: seq<Vault>, e: Exogenous) returns (vaults: seq<Vault>, issuance: real, ghost adjusted: seq<Vault>)
    requires AllBacked(vaults0, e.price) && AllFresh(vaults0) && Drawn(e)
    ensures AllBacked(vaults, e.price) && AdjustsAndOpens(vaults0, e, adjusted, vaults)
    ensures |adjusted| == |vaults0| && issuance == Times(0.01, Raised(vaults0, adjusted)) + Times(0.01, Supply(vaults) - Supply(adjusted)) && issuance >= 0.0
  {
    var rows, issuanceAdjust := AdjustVaults(vaults0, e.ratio, e.adjustDraw);
    adjusted := rows;
    forall i | 0 <= i < |rows| ensures Backed(rows[i], e.price) {
      AdjustedIsBacked(vaults0[i], rows[i], e.adjustDraw(i) >= e.ratio, e.price);
    }
    var issuanceOpen;
    vaults, issuanceOpen := OpenVaults(rows, e.price, e.openDraws);
    forall i | 0 <= i < |vaults| ensures Backed(vaults[i], e.price) {
      assert i < |rows| ==> vaults[i] == vaults[..|rows|][i] == rows[i];
    }
    issuance := issuanceAdjust + issuanceOpen;
  }

  /** One line of the simulation's table. */
  datatype Row = Row(bpd: real, liquidity: real, redeemed: real, fees: real)

  /** What a period does: the rows that survive the new price and are not sampled for closing are adjusted,
      new ones are grown, and the market prices the whole; a negative liquidity leaves no line. */
  ghost predicate PeriodOutcome(vaults0: seq<Vault>, row0: Row, e: Exogenous, curve: real -> real, inverse: real -> real,
                                vaults: seq<Vault>, row: Row)
    requires AllSound(vaults0) && row0.bpd > 0.0 && row0.liquidity > 0.0 && Drawn(e) && DemandCurve(curve, inverse)
  {
    exists kept, closed, adjusted, grown, r :: Stages(vaults0, row0, e, curve, inverse, kept, closed, adjusted, grown, r)
                                               && vaults == r.vaults && row.liquidity == r.liquidity && row.redeemed == r.redemptionPool
                                               && (r.liquidity >= 0.0 ==> Entered(r, closed, adjusted, grown, row))
  }

  ghost predicate Stages(vaults0: seq<Vault>, row0: Row, e: Exogenous, curve: real -> real, inverse: real -> real,
                         kept: seq<Vault>, closed: seq<Vault>, adjusted: seq<Vault>, grown: seq<Vault>, r: Stabilized)
    requires AllSound(vaults0) && row0.bpd > 0.0 && row0.liquidity > 0.0 && Drawn(e) && DemandCurve(curve, inverse)
  {
    PositiveTimes(row0.liquidity, e.liquidityDrift);
    && Survivors(vaults0, e.price, kept) && Drops(kept, e.drops, closed) && AdjustsAndOpens(closed, e, adjusted, grown)
    && PricedBy(grown, e.price, e.stability, Market(row0.bpd, Times(row0.liquidity, e.liquidityDrift), curve, inverse), e.redemptionRatio, |e.openDraws|, r)
  }

  /** The line a period adds to the table: the price and the liquidity it comes to, what was redeemed, and as fees
      the price times a hundredth of the debt added by adjusting, opening and minting. */
  ghost predicate Entered(r: Stabilized, closed: seq<Vault>, adjusted: seq<Vault>, grown: seq<Vault>, row: Row) {
    && |adjusted| == |closed| && r.bpd == Finite(row.bpd) && row.liquidity == r.liquidity && row.redeemed == r.redemptionPool
    && row.fees == Times(row.bpd, Times(0.01, Raised(closed, adjusted)) + Times(0.01, Supply(grown) - Supply(adjusted))
                                  + Times(0.01, Supply(r.vaults) + r.redemptionPool - Supply(grown)))
  }

  /** Liquidate, close, adjust, open, stabilise. From vaults that are merely sound - the price has
      just moved - every period ends with all vaults backed at its price again. */
  method Period(vaults0: seq<Vault>, row0: Row, e: Exogenous, curve: real -> real, inverse: real -> real)
    returns (outcome: Outcome, vaults: seq<Vault>, row: Row)
    requires AllSound(vaults0) && row0.bpd > 0.0 && row0.liquidity > 0.0 && Drawn(e) && DemandCurve(curve, inverse)
    ensures outcome == SampleError <==> exists d :: d in e.drops && d >= Healthy(vaults0, e.price)
    ensures outcome != SampleError ==> AllBacked(vaults, e.price) && row.redeemed >= 0.0 && row.liquidity + e.stability == Supply(vaults) + row.redeemed
    ensures outcome != SampleError ==> PeriodOutcome(vaults0, row0, e, curve, inverse, vaults, row)
    ensures outcome == Continues ==> 0.0 < row.bpd <= 1.11 && row.liquidity > 0.0 && row.fees >= 0.0
    ensures outcome == Ends <==> outcome != SampleError && row.liquidity < 0.0
  {
    hide Survivors, Drops, AdjustsAndOpens, PricedBy, Charged, AllSound, AllFresh, DemandCurve, PeriodOutcome, Times, Raised;
    row := row0;
    var ok, issuance;
    ghost var kept, closed, adjusted;
    ok, vaults, kept := LiquidateAndClose(vaults0, row0.bpd, e);
    if !ok { outcome := SampleError; return; }
    closed := vaults;
    vaults, issuance, adjusted := AdjustAndOpen(vaults, e);
    assert |adjusted| == |closed| by { AsMany(closed, e, adjusted, vaults); }
    ghost var grown := vaults;
    PositiveTimes(row0.liquidity, e.liquidityDrift);
    var market := Market(row0.bpd, Times(row0.liquidity, e.liquidityDrift), curve, inverse);
    var r := PriceStabilizer(vaults, e.price, e.stability, market, e.redemptionRatio, |e.openDraws|);
    vaults, row := r.vaults, Row(row0.bpd, r.liquidity, r.redemptionPool, 0.0);
    if r.liquidity < 0.0 {
      Stops(vaults0, row0, e, curve, inverse, kept, closed, adjusted, grown, r, row);
      outcome := Ends;
      return;
    }
    row := row.(bpd := r.bpd.value, fees := Times(r.bpd.value, issuance + r.issuance));
    Concludes(vaults0, row0, e, curve, inverse, kept, closed, adjusted, grown, r, issuance, row);
    outcome := Continues;
  }

  lemma Concludes(vaults0: seq<Vault>, row0: Row, e: Exogenous, curve: real -> real, inverse: real -> real,
                  kept: seq<Vault>, closed: seq<Vault>, adjusted: seq<Vault>, grown: seq<Vault>, r: Stabilized, issuance: real, row: Row)
    requires AllSound(vaults0) && row0.bpd > 0.0 && row0.liquidity > 0.0 && Drawn(e) && DemandCurve(curve, inverse)
    requires Stages(vaults0, row0, e, curve, inverse, kept, closed, adjusted, grown, r) && Charged(grown, r) && r.bpd.Finite? && r.bpd.value > 0.0
    requires |adjusted| == |closed| && issuance == Times(0.01, Raised(closed, adjusted)) + Times(0.01, Supply(grown) - Supply(adjusted)) && issuance >= 0.0
    requires row == Row(r.bpd.value, r.liquidity, r.redemptionPool, Times(r.bpd.value, issuance + r.issuance))
    ensures PeriodOutcome(vaults0, row0, e, curve, inverse, r.vaults, row) && 0.0 < row.bpd <= 1.11 && row.fees >= 0.0
  {
    hide Stages, Charged, Entered, Times, Raised, DemandCurve, AllSound, Drawn;
    assert row.fees >= 0.0 by { FeesNonneg(grown, r, issuance); }
    StageCeiling(vaults0, row0, e, curve, inverse, kept, closed, adjusted, grown, r);
    Enters(closed, adjusted, grown, r, issuance, row);
  }

  lemma Stops(vaults0: seq<Vault>, row0: Row, e: Exogenous, curve: real -> real, inverse: real -> real,
              kept: seq<Vault>, closed: seq<Vault>, adjusted: seq<Vault>, grown: seq<Vault>, r: Stabilized, row: Row)
    requires AllSound(vaults0) && row0.bpd > 0.0 && row0.liquidity > 0.0 && Drawn(e) && DemandCurve(curve, inverse)
    requires Stages(vaults0, row0, e, curve, inverse, kept, closed, adjusted, grown, r) && r.liquidity < 0.0
    requires row.liquidity == r.liquidity && row.redeemed == r.redemptionPool
    ensures PeriodOutcome(vaults0, row0, e, curve, inverse, r.vaults, row)
  {
    hide Stages, Entered, DemandCurve, AllSound, Drawn;
  }

  lemma FeesNonneg(grown: seq<Vault>, r: Stabilized, issuance: real)
    requires Charged(grown, r) && r.bpd.Finite? && r.bpd.value > 0.0 && issuance >= 0.0
    ensures Times(r.bpd.value, issuance + r.issuance) >= 0.0
  {
    NonnegProduct(r.bpd.value, issuance + r.issuance);
  }

  lemma Enters(closed: seq<Vault>, adjusted: seq<Vault>, grown: seq<Vault>, r: Stabilized, issuance: real, row: Row)
    requires Charged(grown, r) && r.bpd.Finite? && |adjusted| == |closed|
    requires issuance == Times(0.01, Raised(closed, adjusted)) + Times(0.01, Supply(grown) - Supply(adjusted))
    requires row == Row(r.bpd.value, r.liquidity, r.redemptionPool, Times(r.bpd.value, issuance + r.issuance))
    ensures Entered(r, closed, adjusted, grown, row)
  {
    hide Times, Raised, Supply;
  }

  lemma StageCeiling(vaults0: seq<Vault>, row0: Row, e: Exogenous, curve: real -> real, inverse: real -> real,
                     kept: seq<Vault>, closed: seq<Vault>, adjusted: seq<Vault>, grown: seq<Vault>, r: Stabilized)
    requires AllSound(vaults0) && row0.bpd > 0.0 && row0.liquidity > 0.0 && Drawn(e) && DemandCurve(curve, inverse)
    requires Stages(vaults0, row0, e, curve, inverse, kept, closed, adjusted, grown, r) && r.bpd.Finite?
    ensures r.bpd.value <= 1.11
  {
    hide Survivors, Drops, AdjustsAndOpens, PricedBy, DemandCurve, AllSound, Times;
    PositiveTimes(row0.liquidity, e.liquidityDrift);
    AtMostCeiling(grown, e.price, e.stability, Market(row0.bpd, Times(row0.liquidity, e.liquidityDrift), curve, inverse), e.redemptionRatio, |e.openDraws|, r);
  }

  lemma AtMostCeiling(vaults: seq<Vault>, price: real, stability: real, m: Market, redemptionRatio: real, nOpen: nat, r: Stabilized)
    requires Live(m) && PricedBy(vaults, price, stability, m, redemptionRatio, nOpen, r) && r.bpd.Finite?
    ensures r.bpd.value <= 1.11
  {
  }

  lemma ClosedStays(before: seq<Vault>, after: seq<Vault>, price: real)
    requires AllBacked(before, price) && AllFresh(before)
    requires forall v :: v in after ==> exists i :: 0 <= i < |before| && before[i] == v
    ensures AllBacked(after, price) && AllFresh(after)
  {
    forall i | 0 <= i < |after| ensures Backed(after[i], price) && Fresh(after[i]) {
      assert after[i] in after;
    }
  }

  /** The whole simulation, period after period until one does not continue. `tables` are the vaults and `rows`
      the lines at the start and after each of the `done` periods that did. */
  method Simulate(openDraws: seq<Draw>, price0: real, env: seq<Exogenous>, curve: real -> real, inverse: real -> real)
    returns (outcome: Outcome, done: nat, rows: seq<Row>, ghost tables: seq<seq<Vault>>)
    requires price0 > 0.0 && openDraws != [] && (forall i :: 0 <= i < |openDraws| ==> Drawable(openDraws[i]))
    requires DemandCurve(curve, inverse) && forall i :: 0 <= i < |env| ==> Drawn(env[i])
    ensures done <= |env| && (outcome == Continues <==> done == |env|) && |rows| == |tables| == done + 1
    ensures |tables[0]| == |openDraws| && forall i :: 0 <= i < |openDraws| ==> OpenedRow(tables[0][i], price0, openDraws[i])
    ensures rows[0] == Row(1.0, Times(0.5, Supply(tables[0])), 0.0, Times(0.01, Supply(tables[0])))
    ensures Simulated(price0, env, curve, inverse, rows, tables)
    ensures done < |env| ==> StopsFor(tables[done], rows[done], env[done], curve, inverse, outcome)
  {
    hide PeriodOutcome, DemandCurve, Drawable, Times;
    var vaults, issuance := OpenVaults([], price0, openDraws);
    SupplyNonneg(vaults);
    PositiveTimes(0.5, Supply(vaults));
    rows, tables := [Row(1.0, Times(0.5, Supply(vaults)), 0.0, issuance)], [vaults];
    outcome, done := Continues, 0;
    while done < |env|
      invariant done <= |env| && outcome == Continues && |rows| == |tables| == done + 1 && vaults == tables[done]
      invariant rows[0] == Row(1.0, Times(0.5, Supply(tables[0])), 0.0, Times(0.01, Supply(tables[0])))
      invariant |tables[0]| == |openDraws| && forall i :: 0 <= i < |openDraws| ==> OpenedRow(tables[0][i], price0, openDraws[i])
      invariant Simulated(price0, env, curve, inverse, rows, tables)
    {
      assert Standing(tables[done], rows[done], PriceThen(price0, env, done));
      var vaults', row;
      outcome, vaults', row := Period(vaults, rows[done], env[done], curve, inverse);
      if outcome != Continues { return; }
      OneMorePeriod(price0, env, curve, inverse, rows, tables, row, vaults');
      vaults, rows, tables := vaults', rows + [row], tables + [vaults'];
      done := done + 1;
    }
  }

  /** The price vaults are valued at after `i` periods. */
  function PriceThen(price0: real, env: seq<Exogenous>, i: nat): real
    requires i <= |env|
  {
    if i == 0 then price0 else env[i - 1].price
  }

  /** A table of backed vaults with its line. */
  ghost predicate Standing(table: seq<Vault>, row: Row, price: real) {
    AllBacked(table, price) && row.bpd > 0.0 && row.liquidity > 0.0
  }

  /** Why a simulation stops at a period: the sample is impossible, or the liquidity comes out negative. */
  ghost predicate StopsFor(table: seq<Vault>, row: Row, e: Exogenous, curve: real -> real, inverse: real -> real, outcome: Outcome)
    requires Drawn(e) && DemandCurve(curve, inverse)
  {
    && AllSound(table) && row.bpd > 0.0 && row.liquidity > 0.0 && outcome != Continues
    && (outcome == SampleError <==> exists d :: d in e.drops && d >= Healthy(table, e.price))
    && (outcome == Ends ==> exists table', row' :: PeriodOutcome(table, row, e, curve, inverse, table', row') && row'.liquidity < 0.0)
  }

  ghost predicate Follows(table: seq<Vault>, row: Row, e: Exogenous, curve: real -> real, inverse: real -> real, table': seq<Vault>, row': Row)
    requires Drawn(e) && DemandCurve(curve, inverse)
  {
    AllSound(table) && row.bpd > 0.0 && row.liquidity > 0.0 && PeriodOutcome(table, row, e, curve, inverse, table', row')
  }

  /** Every table is backed at its period's price and every line follows from the one before. */
  ghost predicate Simulated(price0: real, env: seq<Exogenous>, curve: real -> real, inverse: real -> real, rows: seq<Row>, tables: seq<seq<Vault>>)
    requires DemandCurve(curve, inverse) && forall i :: 0 <= i < |env| ==> Drawn(env[i])
  {
    && 0 < |rows| == |tables| <= |env| + 1
    && (forall i :: 0 <= i < |rows| ==> Standing(tables[i], rows[i], PriceThen(price0, env, i)))
    && (forall i :: 0 <= i < |rows| - 1 ==> Follows(tables[i], rows[i], env[i], curve, inverse, tables[i + 1], rows[i + 1]))
  }

  lemma OneMorePeriod(price0: real, env: seq<Exogenous>, curve: real -> real, inverse: real -> real, rows: seq<Row>, tables: seq<seq<Vault>>,
                      row: Row, vaults: seq<Vault>)
    requires DemandCurve(curve, inverse) && forall i :: 0 <= i < |env| ==> Drawn(env[i])
    requires Simulated(price0, env, curve, inverse, rows, tables) && |rows| <= |env|
    requires Follows(tables[|rows| - 1], rows[|rows| - 1], env[|rows| - 1], curve, inverse, vaults, row) && Standing(vaults, row, env[|rows| - 1].price)
    ensures Simulated(price0, env, curve, inverse, rows + [row], tables + [vaults])
  {
    hide Follows, Standing, Drawn, DemandCurve;
  }
}
