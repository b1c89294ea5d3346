/** The vault table of the simulated economy (`macro_model.py`): liquidating, closing, adjusting
    and opening vaults. Reals stand for floats, arbitrary arguments for random draws. */
module MacroVaults {
  import opened Arithmetic

  const RATE_ISSUANCE: real := 0.01
  const MIN_RATIO: real := 1.1

  /** A row. `crCurrent` is the recorded ratio, which not every operation keeps up to date. */
  datatype Vault = Vault(price: real, quantity: real, crInitial: real, supply: real, inattention: real, crCurrent: real)

  /** Collateral value per debt. */
  function Ratio(price: real, quantity: real, supply: real): real
    requires supply != 0.0
  {
    price * quantity / supply
  }

  function TrueRatio(v: Vault): real
    requires v.supply != 0.0
  {
    Ratio(v.price, v.quantity, v.supply)
  }

  /** What every row is drawn as and must stay. */
  predicate Sound(v: Vault) {
    v.price > 0.0 && v.quantity > 0.0 && v.supply > 0.0 && v.crInitial >= MIN_RATIO && v.inattention > 0.0
  }

  /** Sound, at the current price, and worth at least 110% of its debt. */
  predicate Backed(v: Vault, price: real) { Sound(v) && v.price == price && TrueRatio(v) >= MIN_RATIO }

  predicate Fresh(v: Vault) { v.supply != 0.0 && v.crCurrent == TrueRatio(v) }

  ghost predicate AllSound(vs: seq<Vault>) { forall i :: 0 <= i < |vs| ==> Sound(vs[i]) }
  ghost predicate AllBacked(vs: seq<Vault>, price: real) { forall i :: 0 <= i < |vs| ==> Backed(vs[i], price) }
  ghost predicate AllFresh(vs: seq<Vault>) { forall i :: 0 <= i < |vs| ==> Fresh(vs[i]) }

  // ------------------------------------------------------------ column sums

  function Supply(vs: seq<Vault>): real {
    if vs == [] then 0.0 else vs[0].supply + Supply(vs[1..])
  }

  function Quantity(vs: seq<Vault>): real {
    if vs == [] then 0.0 else vs[0].quantity + Quantity(vs[1..])
  }

  lemma {:induction false} SupplyOfTwo(a: seq<Vault>, b: seq<Vault>)
    ensures Supply(a + b) == Supply(a) + Supply(b)
  {
    if a == [] {
      assert a + b == b;
    } else {
      assert (a + b)[1..] == a[1..] + b;
      SupplyOfTwo(a[1..], b);
    }
  }

  lemma SupplyOfMore(vs: seq<Vault>, n: nat)
    requires n < |vs|
    ensures Supply(vs[..n + 1]) == Supply(vs[..n]) + vs[n].supply
  {
    SupplyOfTwo(vs[..n], [vs[n]]);
    assert vs[..n + 1] == vs[..n] + [vs[n]];
  }

  lemma {:induction false} SupplyNonneg(vs: seq<Vault>)
    requires AllSound(vs)
    ensures Supply(vs) >= 0.0 && (vs != [] ==> Supply(vs) > 0.0)
  {
    if vs != [] {
      SupplyNonneg(vs[1..]);
    }
  }

  // -------------------------------------------------------------- liquidate

  /** The frame with its current ratios recorded. */
  function Recorded(vs: seq<Vault>): (r: seq<Vault>)
    requires forall v :: v in vs ==> v.supply != 0.0
    ensures |r| == |vs| && forall i :: 0 <= i < |vs| ==> r[i] == vs[i].(crCurrent := TrueRatio(vs[i]))
  {
    seq(|vs|, i requires 0 <= i < |vs| && vs[i] in vs => vs[i].(crCurrent := TrueRatio(vs[i])))
  }

  /** The rows whose recorded ratio is below 110% (`low`), or those at or above. */
  function Select(vs: seq<Vault>, low: bool): seq<Vault> {
    if vs == [] then []
    else (if (vs[0].crCurrent < MIN_RATIO) == low then [vs[0]] else []) + Select(vs[1..], low)
  }

  lemma {:induction false} SelectSums(vs: seq<Vault>)
    ensures Supply(Select(vs, true)) + Supply(Select(vs, false)) == Supply(vs)
    ensures Quantity(Select(vs, true)) + Quantity(Select(vs, false)) == Quantity(vs)
    ensures |Select(vs, true)| + |Select(vs, false)| == |vs|
  {
    if vs != [] {
      SelectSums(vs[1..]);
      SelectHead(vs, true);
      SelectHead(vs, false);
    }
  }

  lemma SelectHead(vs: seq<Vault>, low: bool)
    requires vs != []
    ensures (vs[0].crCurrent < MIN_RATIO) == low ==>
              && Select(vs, low) == [vs[0]] + Select(vs[1..], low)
              && Supply(Select(vs, low)) == vs[0].supply + Supply(Select(vs[1..], low))
              && Quantity(Select(vs, low)) == vs[0].quantity + Quantity(Select(vs[1..], low))
    ensures (vs[0].crCurrent < MIN_RATIO) != low ==> Select(vs, low) == Select(vs[1..], low)
  {
    assert ([vs[0]] + Select(vs[1..], low))[1..] == Select(vs[1..], low);
  }

  lemma {:induction false} SelectCounts(vs: seq<Vault>, low: bool)
    ensures forall v :: multiset(Select(vs, low))[v] == if (v.crCurrent < MIN_RATIO) == low then multiset(vs)[v] else 0
  {
    if vs != [] {
      SelectCounts(vs[1..], low);
      SelectHead(vs, low);
      assert vs == [vs[0]] + vs[1..];
    }
  }

  lemma SelectHolds(vs: seq<Vault>, low: bool, v: Vault)
    requires v in Select(vs, low)
    ensures v in vs && (v.crCurrent < MIN_RATIO) == low
  {
    SelectCounts(vs, low);
    assert v in multiset(Select(vs, low)) && v in multiset(vs);
  }

  lemma {:induction false} RecordingKeepsSums(vs: seq<Vault>)
    requires forall v :: v in vs ==> v.supply != 0.0
    ensures Supply(Recorded(vs)) == Supply(vs) && Quantity(Recorded(vs)) == Quantity(vs)
  {
    if vs != [] {
      RecordingKeepsSums(vs[1..]);
      assert Recorded(vs)[1..] == Recorded(vs[1..]);
    }
  }

  predicate LowRow(v: Vault, price: real) { Sound(v) && v.price == price && TrueRatio(v) < MIN_RATIO }

  /** Liquidated collateral is worth less than 110% of the liquidated debt. */
  lemma {:induction false} LowIsUnderwater(vs: seq<Vault>, price: real)
    requires forall i :: 0 <= i < |vs| ==> LowRow(vs[i], price)
    ensures Times(price, Quantity(vs)) <= Times(MIN_RATIO, Supply(vs))
    ensures vs != [] ==> Times(price, Quantity(vs)) < Times(MIN_RATIO, Supply(vs))
  {
    if vs != [] {
      LowRowIsUnderwater(vs[0], price);
      LowIsUnderwater(vs[1..], price);
      Distribute(price, vs[0].quantity, Quantity(vs[1..]));
      Distribute(MIN_RATIO, vs[0].supply, Supply(vs[1..]));
    }
  }

  lemma LowRowIsUnderwater(v: Vault, price: real)
    requires LowRow(v, price)
    ensures Times(price, v.quantity) < Times(MIN_RATIO, v.supply)
  {
    RatioBelow(v.price, v.quantity, v.supply);
  }

  lemma RatioBelow(price: real, quantity: real, supply: real)
    requires supply > 0.0
    ensures Ratio(price, quantity, supply) < MIN_RATIO <==> Times(price, quantity) < Times(MIN_RATIO, supply)
  {
    var r := Ratio(price, quantity, supply);
    assert r * supply == price * quantity;
    RealMulMono(MIN_RATIO, r, supply);
  }

  /** A row as `LiquidateVaults` finds it after recording. */
  lemma SelectedRow(vaults: seq<Vault>, price: real, low: bool, i: nat)
    requires AllSound(vaults) && (forall j :: 0 <= j < |vaults| ==> vaults[j].price == price)
    requires (forall v :: v in vaults ==> v.supply != 0.0) && i < |Select(Recorded(vaults), low)|
    ensures var v := Select(Recorded(vaults), low)[i];
            if low then LowRow(v, price) else Backed(v, price) && Fresh(v)
  {
    var recorded := Recorded(vaults);
    var v := Select(recorded, low)[i];
    SelectHolds(recorded, low, v);
    var j :| 0 <= j < |recorded| && recorded[j] == v;
    assert Sound(vaults[j]);
  }

  lemma SoundSupplies(vaults: seq<Vault>)
    requires AllSound(vaults)
    ensures forall v :: v in vaults ==> v.supply != 0.0
  {
    assert forall v :: v in vaults ==> Sound(v);
  }

  lemma KeptAreBacked(vaults: seq<Vault>, price: real)
    requires AllSound(vaults) && forall i :: 0 <= i < |vaults| ==> vaults[i].price == price
    ensures forall v :: v in vaults ==> v.supply != 0.0
    ensures AllBacked(Select(Recorded(vaults), false), price) && AllFresh(Select(Recorded(vaults), false))
  {
    SoundSupplies(vaults);
    var kept := Select(Recorded(vaults), false);
    forall i | 0 <= i < |kept| ensures Backed(kept[i], price) && Fresh(kept[i]) {
      SelectedRow(vaults, price, false, i);
    }
  }

  /** What the liquidated rows bring the Stability Pool, against the debt they cost it. */
  function Gain(price: real, liquidated: seq<Vault>, priceBpd: real): real {
    Times(price, Quantity(liquidated)) - Times(priceBpd, Supply(liquidated))
  }

  lemma LiquidatedAreLow(vaults: seq<Vault>, price: real, priceBpd: real)
    requires AllSound(vaults) && forall i :: 0 <= i < |vaults| ==> vaults[i].price == price
    ensures forall v :: v in vaults ==> v.supply != 0.0
    ensures var liquidated := Select(Recorded(vaults), true);
            if liquidated == [] then Gain(price, liquidated, priceBpd) == 0.0
            else Times(price, Quantity(liquidated)) < Times(MIN_RATIO, Supply(liquidated))
                 && Gain(price, liquidated, priceBpd) < Times(MIN_RATIO - priceBpd, Supply(liquidated))
  {
    SoundSupplies(vaults);
    var liquidated := Select(Recorded(vaults), true);
    forall i | 0 <= i < |liquidated| ensures LowRow(liquidated[i], price) {
      SelectedRow(vaults, price, true, i);
    }
    LowIsUnderwater(liquidated, price);
    if liquidated != [] {
      GainBound(price, Quantity(liquidated), Supply(liquidated), priceBpd);
    }
  }

  lemma GainBound(price: real, quantity: real, debt: real, priceBpd: real)
    requires Times(price, quantity) < Times(MIN_RATIO, debt)
    ensures Times(price, quantity) - Times(priceBpd, debt) < Times(MIN_RATIO - priceBpd, debt)
  {
    DistributeFirst(MIN_RATIO - priceBpd, priceBpd, debt);
  }

  /** Splits the table exactly, at the ratios of this moment, and says what the Stability Pool gains. */
  method LiquidateVaults(vaults: seq<Vault>, price: real, priceBpdPrevious: real)
    returns (kept: seq<Vault>, debt: real, quantity: real, gain: real, n: nat)
    requires AllSound(vaults) && forall i :: 0 <= i < |vaults| ==> vaults[i].price == price
    ensures forall v :: v in vaults ==> v.supply != 0.0
    ensures forall v :: multiset(kept)[v] == if v.crCurrent >= 1.1 then multiset(Recorded(vaults))[v] else 0
    ensures kept == Select(Recorded(vaults), false) && n == |vaults| - |kept|
    ensures Supply(kept) + debt == Supply(vaults) && Quantity(kept) + quantity == Quantity(vaults)
    ensures AllBacked(kept, price) && AllFresh(kept)
    ensures n > 0 ==> Times(price, quantity) < Times(MIN_RATIO, debt) && gain < Times(MIN_RATIO - priceBpdPrevious, debt)
    ensures n == 0 ==> gain == 0.0
    ensures gain == Times(price, quantity) - Times(priceBpdPrevious, debt)
  {
    KeptAreBacked(vaults, price);
    LiquidatedAreLow(vaults, price, priceBpdPrevious);
    RecordingKeepsSums(vaults);
    var recorded := Recorded(vaults);
    SelectSums(recorded);
    SelectCounts(recorded, false);
    var liquidated := Select(recorded, true);
    kept := Select(recorded, false);
    debt := Supply(liquidated);
    quantity := Quantity(liquidated);
    n := |liquidated|;
    gain := Gain(price, liquidated, priceBpdPrevious);
  }

  /** Selecting keeps the order: the next row joins at the end, or not at all. */
  lemma {:induction false} SelectNext(vs: seq<Vault>, low: bool, i: nat)
    requires i < |vs|
    ensures Select(vs[..i + 1], low) == Select(vs[..i], low) + if (vs[i].crCurrent < MIN_RATIO) == low then [vs[i]] else []
  {
    if i == 0 {
      assert vs[..1] == [vs[0]] && vs[..0] == [] && [vs[0]][1..] == [];
    } else {
      assert vs[..i + 1][0] == vs[0] && vs[..i + 1][1..] == vs[1..][..i] && vs[..i][1..] == vs[1..][..i - 1];
      SelectNext(vs[1..], low, i - 1);
    }
  }

  // ------------------------------------------------------------------ close

  /** The rows whose index is not in `drops`, in order. */
  function WithoutRows(vs: seq<Vault>, drops: set<nat>): seq<Vault> {
    if vs == [] then []
    else
      var last := |vs| - 1;
      WithoutRows(vs[..last], drops) + if last in drops then [] else [vs[last]]
  }

  lemma {:induction false} WithoutRowsHolds(vs: seq<Vault>, drops: set<nat>, v: Vault)
    ensures v in WithoutRows(vs, drops) <==> exists i :: 0 <= i < |vs| && i !in drops && vs[i] == v
  {
    if vs != [] {
      var last := |vs| - 1;
      WithoutRowsHolds(vs[..last], drops, v);
      if v in WithoutRows(vs[..last], drops) {
        var i :| 0 <= i < last && i !in drops && vs[..last][i] == v;
        assert vs[i] == v;
      }
      if i :| 0 <= i < last && i !in drops && vs[i] == v {
        assert vs[..last][i] == v;
      }
    }
  }

  /** How many of `drops` come before row `i`. */
  function Before(drops: set<nat>, i: nat): nat { |set d | d in drops && d < i| }

  /** `kept` is the rows not in `drops`, each moved up by the number dropped before it. */
  ghost predicate Drops(vs: seq<Vault>, drops: set<nat>, kept: seq<Vault>) {
    && |kept| == |vs| - |drops|
    && forall i :: 0 <= i < |vs| && i !in drops ==> 0 <= i - Before(drops, i) < |kept| && kept[i - Before(drops, i)] == vs[i]
  }

  lemma BeforeNext(drops: set<nat>, i: nat)
    ensures Before(drops, i + 1) == Before(drops, i) + if i in drops then 1 else 0
    ensures Before(drops, i) <= |drops| && Before(drops, i) <= i
    decreases i
  {
    var now, next := set d | d in drops && d < i, set d | d in drops && d < i + 1;
    assert next == now + if i in drops then {i} else {};
    SubsetSize(now, drops);
    if i > 0 {
      BeforeNext(drops, i - 1);
    } else {
      assert now == {};
    }
  }

  lemma SubsetSize(part: set<nat>, all: set<nat>)
    requires part <= all
    ensures |part| <= |all|
  {
    assert all == part + (all - part);
  }

  /** Among the first `n` rows. */
  lemma {:induction false} WithoutRowsInOrder(vs: seq<Vault>, drops: set<nat>)
    ensures |WithoutRows(vs, drops)| == |vs| - Before(drops, |vs|)
    ensures forall i :: 0 <= i < |vs| && i !in drops ==>
              0 <= i - Before(drops, i) < |WithoutRows(vs, drops)| && WithoutRows(vs, drops)[i - Before(drops, i)] == vs[i]
  {
    if vs == [] {
      assert (set d | d in drops && d < 0) == {};
    } else {
      var last := |vs| - 1;
      WithoutRowsInOrder(vs[..last], drops);
      BeforeNext(drops, last);
      forall i | 0 <= i < |vs| && i !in drops
        ensures 0 <= i - Before(drops, i) < |WithoutRows(vs, drops)| && WithoutRows(vs, drops)[i - Before(drops, i)] == vs[i]
      {
        if i < last {
          assert vs[..last][i] == vs[i];
        }
      }
    }
  }

  lemma AllBefore(drops: set<nat>, n: nat)
    requires forall d :: d in drops ==> d < n
    ensures Before(drops, n) == |drops|
  {
    assert (set d | d in drops && d < n) == drops;
  }

  /** Drops a random sample of rows. The reported number is -999 when fewer rows than that remain. */
  method CloseVaults(vaults: seq<Vault>, drops: set<nat>) returns (kept: seq<Vault>, number: int)
    requires forall i :: i in drops ==> i < |vaults|
    ensures Drops(vaults, drops, kept)
    ensures forall v :: v in kept <==> exists i :: 0 <= i < |vaults| && i !in drops && vaults[i] == v
    ensures number == if 2 * |drops| <= |vaults| then |drops| else -999
  {
    number := |drops|;
    kept := WithoutRows(vaults, drops);
    WithoutRowsInOrder(vaults, drops);
    AllBefore(drops, |vaults|);
    forall v ensures v in kept <==> exists i :: 0 <= i < |vaults| && i !in drops && vaults[i] == v {
      WithoutRowsHolds(vaults, drops, v);
    }
    if |kept| < number {
      number := -999;
    }
  }

  // ----------------------------------------------------------------- adjust

  function Check(v: Vault): real
    requires v.crInitial * v.inattention != 0.0
  {
    (v.crCurrent - v.crInitial) / (v.crInitial * v.inattention)
  }

  predicate Triggered(v: Vault)
    requires v.crInitial * v.inattention != 0.0
  {
    Check(v) < -1.0 || Check(v) > 2.0
  }

  /** A row is triggered when its recorded ratio is more than its inattention below its initial ratio, or more
      than twice that above it, as fractions of the initial ratio. */
  lemma TriggeredExactly(v: Vault)
    requires Sound(v)
    ensures v.crInitial * v.inattention > 0.0
    ensures Check(v) < -1.0 <==> v.crCurrent < v.crInitial - v.crInitial * v.inattention
    ensures Check(v) > 2.0 <==> v.crCurrent > v.crInitial + 2.0 * (v.crInitial * v.inattention)
    ensures Triggered(v) <==> v.crCurrent < v.crInitial - v.crInitial * v.inattention || v.crCurrent > v.crInitial + 2.0 * (v.crInitial * v.inattention)
  {
    var d, x := v.crInitial * v.inattention, v.crCurrent - v.crInitial;
    assert d > 0.0 && Check(v) * d == x;
    RealMulMono(-1.0, Check(v), d);
    RealMulMono(Check(v), 2.0, d);
  }

  lemma SoundCheck(v: Vault)
    requires Sound(v)
    ensures v.crInitial * v.inattention > 0.0
    ensures Check(v) < -1.0 ==> v.crCurrent < v.crInitial
    ensures Check(v) > 2.0 ==> v.crCurrent > v.crInitial
  {
    var d := v.crInitial * v.inattention;
    assert Check(v) * d == v.crCurrent - v.crInitial;
  }

  /** Debt that makes the ratio the initial one, and collateral that does. */
  function TargetSupply(v: Vault): real requires v.crInitial != 0.0 { v.price * v.quantity / v.crInitial }
  function TargetQuantity(v: Vault): real requires v.price != 0.0 { v.crInitial * v.supply / v.price }

  lemma TargetsRestore(v: Vault)
    requires Sound(v)
    ensures TargetSupply(v) > 0.0 && Ratio(v.price, v.quantity, TargetSupply(v)) == v.crInitial
    ensures TargetQuantity(v) > 0.0 && Ratio(v.price, TargetQuantity(v), v.supply) == v.crInitial
    ensures TrueRatio(v) < v.crInitial <==> TargetSupply(v) < v.supply
    ensures TrueRatio(v) > v.crInitial <==> TargetSupply(v) > v.supply
  {
    var value, s := v.price * v.quantity, TargetSupply(v);
    assert value > 0.0 && s * v.crInitial == value;
    SameQuotient(value, s, v.crInitial);
    assert v.price * TargetQuantity(v) == v.crInitial * v.supply;
    SameQuotient(v.price * TargetQuantity(v), v.supply, v.crInitial);
    assert TrueRatio(v) * v.supply == value;
    RealMulMono(v.crInitial, TrueRatio(v), v.supply);
    RealMulMono(TrueRatio(v), v.crInitial, v.supply);
    RealMulMono(v.supply, s, v.crInitial);
    RealMulMono(s, v.supply, v.crInitial);
  }

  /** How much debt rises, row by row. */
  function Raised(before: seq<Vault>, after: seq<Vault>): real
    requires |before| == |after|
  {
    if before == [] then 0.0
    else
      var last := |before| - 1;
      Raised(before[..last], after[..last]) + (if after[last].supply > before[last].supply then after[last].supply - before[last].supply else 0.0)
  }

  lemma {:induction false} RaisedNonneg(before: seq<Vault>, after: seq<Vault>)
    requires |before| == |after|
    ensures Raised(before, after) >= 0.0
  {
    if before != [] {
      RaisedNonneg(before[..|before| - 1], after[..|after| - 1]);
    }
  }

  lemma RaisedMore(before: seq<Vault>, after: seq<Vault>, i: nat)
    requires |before| == |after| && i < |before|
    ensures Raised(before[..i + 1], after[..i + 1])
            == Raised(before[..i], after[..i]) + (if after[i].supply > before[i].supply then after[i].supply - before[i].supply else 0.0)
  {
    assert before[..i + 1][..i] == before[..i] && after[..i + 1][..i] == after[..i];
  }

  /** What adjusting does to one row: `byDebt` when the row's draw is at least the period's. */
  ghost predicate AdjustedRow(v: Vault, w: Vault, byDebt: bool)
    requires v.crInitial * v.inattention != 0.0
  {
    && (!Triggered(v) ==> w == v)
    && (Triggered(v) && byDebt ==> w == v.(supply := w.supply) && w.supply != 0.0 && TrueRatio(w) == v.crInitial)
    && (Triggered(v) && !byDebt ==> w == v.(quantity := w.quantity) && w.supply != 0.0 && TrueRatio(w) == v.crInitial)
  }

  /** Goes over the rows in place. Every triggered row gets exactly its initial ratio back, by debt
      or by collateral, and the others stay. With fresh recorded ratios the fee is the rate times
      the debt added. */
  method AdjustVaults(vaults: seq<Vault>, ratio: real, draw: nat -> real) returns (adjusted: seq<Vault>, issuance: real)
    requires AllSound(vaults)
    ensures |adjusted| == |vaults| && AllSound(adjusted)
    ensures forall i :: 0 <= i < |vaults| ==> vaults[i].crInitial * vaults[i].inattention > 0.0
    ensures forall i :: 0 <= i < |vaults| ==> AdjustedRow(vaults[i], adjusted[i], draw(i) >= ratio)
    ensures AllFresh(vaults) ==> issuance == Times(RATE_ISSUANCE, Raised(vaults, adjusted)) && issuance >= 0.0
  {
    forall i | 0 <= i < |vaults| ensures vaults[i].crInitial * vaults[i].inattention > 0.0 {
      SoundCheck(vaults[i]);
    }
    adjusted, issuance := vaults, 0.0;
    for i := 0 to |vaults|
      invariant AdjustedUpTo(vaults, adjusted, i, ratio, draw)
      invariant AllFresh(vaults) ==> issuance == Times(RATE_ISSUANCE, Raised(vaults[..i], adjusted[..i]))
    {
      var v, fee := AdjustOne(adjusted[i], draw(i) >= ratio);
      AdjustStep(vaults, adjusted, i, v, ratio, draw);
      FeeStep(vaults, adjusted, i, v);
      adjusted := adjusted[i := v];
      issuance := issuance + fee;
    }
    assert vaults[..|vaults|] == vaults && adjusted[..|vaults|] == adjusted;
    RaisedNonneg(vaults, adjusted);
    NonnegProduct(RATE_ISSUANCE, Raised(vaults, adjusted));
  }

  /** The first `n` rows are adjusted, the others as they were. */
  ghost predicate AdjustedUpTo(vaults: seq<Vault>, adjusted: seq<Vault>, n: nat, ratio: real, draw: nat -> real)
    requires forall i :: 0 <= i < |vaults| ==> vaults[i].crInitial * vaults[i].inattention > 0.0
  {
    && |adjusted| == |vaults| && n <= |vaults|
    && (forall j :: n <= j < |vaults| ==> adjusted[j] == vaults[j])
    && (forall j :: 0 <= j < n ==> Sound(adjusted[j]) && AdjustedRow(vaults[j], adjusted[j], draw(j) >= ratio))
  }

  lemma AdjustStep(vaults: seq<Vault>, adjusted: seq<Vault>, i: nat, v: Vault, ratio: real, draw: nat -> real)
    requires forall j :: 0 <= j < |vaults| ==> vaults[j].crInitial * vaults[j].inattention > 0.0
    requires AdjustedUpTo(vaults, adjusted, i, ratio, draw) && i < |vaults|
    requires Sound(v) && AdjustedRow(vaults[i], v, draw(i) >= ratio)
    ensures AdjustedUpTo(vaults, adjusted[i := v], i + 1, ratio, draw)
  {
    var next := adjusted[i := v];
    forall j | 0 <= j < i + 1 ensures Sound(next[j]) && AdjustedRow(vaults[j], next[j], draw(j) >= ratio) {
      if j < i { assert next[j] == adjusted[j]; }
    }
  }

  lemma FeeStep(vaults: seq<Vault>, adjusted: seq<Vault>, i: nat, v: Vault)
    requires |adjusted| == |vaults| && i < |vaults|
    ensures Times(RATE_ISSUANCE, Raised(vaults[..i + 1], adjusted[i := v][..i + 1]))
            == Times(RATE_ISSUANCE, Raised(vaults[..i], adjusted[..i]))
               + Times(RATE_ISSUANCE, if v.supply > vaults[i].supply then v.supply - vaults[i].supply else 0.0)
  {
    var next := adjusted[i := v];
    RaisedMore(vaults, next, i);
    assert next[..i] == adjusted[..i];
    Distribute(RATE_ISSUANCE, Raised(vaults[..i], adjusted[..i]), if v.supply > vaults[i].supply then v.supply - vaults[i].supply else 0.0);
  }

  /** The body of the loop. */
  method AdjustOne(v: Vault, byDebt: bool) returns (w: Vault, fee: real)
    requires Sound(v)
    ensures v.crInitial * v.inattention > 0.0 && Sound(w) && AdjustedRow(v, w, byDebt)
    ensures Fresh(v) ==> fee == Times(RATE_ISSUANCE, if w.supply > v.supply then w.supply - v.supply else 0.0)
  {
    SoundCheck(v);
    TargetsRestore(v);
    w, fee := v, 0.0;
    var check := Check(v);
    if byDebt {
      if check < -1.0 {
        w := w.(supply := TargetSupply(v));
      }
      if check > 2.0 {
        fee := RATE_ISSUANCE * (TargetSupply(v) - w.supply);
        w := w.(supply := TargetSupply(v));
      }
    }
    if !byDebt && (check < -1.0 || check > 2.0) {
      w := w.(quantity := TargetQuantity(v));
    }
  }

  /** So adjusting keeps every row backed. */
  lemma AdjustedIsBacked(v: Vault, w: Vault, byDebt: bool, price: real)
    requires Backed(v, price) && Sound(w) && v.crInitial * v.inattention > 0.0 && AdjustedRow(v, w, byDebt)
    ensures Backed(w, price)
  {
  }

  // ------------------------------------------------------------------- open

  /** The draws for one new vault. */
  datatype Draw = Draw(ratio: real, quantity: real, inattention: real)

  predicate Drawable(d: Draw) { d.ratio >= MIN_RATIO && d.quantity > 0.0 && d.inattention > 0.0 }

  function NewVault(price: real, d: Draw): Vault
    requires d.ratio != 0.0
  {
    Vault(price, d.quantity, d.ratio, price * d.quantity / d.ratio, d.inattention, d.ratio)
  }

  /** The row of a vault opened with this draw: at exactly the ratio drawn, which is also what it is adjusted
      back to. */
  predicate OpenedRow(v: Vault, price: real, d: Draw) {
    && v.price == price && v.quantity == d.quantity && v.inattention == d.inattention
    && v.crInitial == d.ratio && v.crCurrent == d.ratio && v.supply != 0.0 && TrueRatio(v) == d.ratio
  }

  lemma NewVaultBacked(price: real, d: Draw)
    requires price > 0.0 && Drawable(d)
    ensures var v := NewVault(price, d); Backed(v, price) && OpenedRow(v, price, d)
  {
    var value := price * d.quantity;
    assert value > 0.0 && value / d.ratio > 0.0 && value / d.ratio * d.ratio == value;
    SameQuotient(value, value / d.ratio, d.ratio);
  }

  /** Appends one vault per draw; the fee is the rate times the debt they add. */
  method OpenVaults(vaults: seq<Vault>, price: real, draws: seq<Draw>) returns (grown: seq<Vault>, issuance: real)
    requires price > 0.0 && forall i :: 0 <= i < |draws| ==> Drawable(draws[i])
    ensures |grown| == |vaults| + |draws| && grown[..|vaults|] == vaults
    ensures forall i :: |vaults| <= i < |grown| ==> Backed(grown[i], price) && OpenedRow(grown[i], price, draws[i - |vaults|])
    ensures issuance == Times(RATE_ISSUANCE, Supply(grown) - Supply(vaults)) && issuance >= 0.0
  {
    grown, issuance := vaults, 0.0;
    for i := 0 to |draws|
      invariant |grown| == |vaults| + i && grown[..|vaults|] == vaults
      invariant forall j :: |vaults| <= j < |grown| ==> Backed(grown[j], price) && OpenedRow(grown[j], price, draws[j - |vaults|])
      invariant issuance == Times(RATE_ISSUANCE, Supply(grown) - Supply(vaults)) && issuance >= 0.0
    {
      NewVaultBacked(price, draws[i]);
      var v := NewVault(price, draws[i]);
      SupplyOfTwo(grown, [v]);
      Distribute(RATE_ISSUANCE, Supply(grown) - Supply(vaults), v.supply);
      NonnegProduct(RATE_ISSUANCE, v.supply);
      issuance := issuance + Times(RATE_ISSUANCE, v.supply);
      grown := grown + [v];
    }
  }
}
