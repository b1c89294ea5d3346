/** The off-chain simulation of corrected stakes in `errorAccumulationTest.js`: each round takes a
    liquidated vault's stake out and brings an entrant in at the current stakes per collateral,
    rounded down. */
module StakeDrift {
  import opened Arithmetic
  import opened VaultList
  import VaultAccounts

  datatype Totals = Totals(stakes: nat, coll: nat)

  /** One liquidation and one entry. */
  datatype Round = Round(removed: nat, entrant: nat)

  /** The entrant's stake. */
  function EntryStake(stakes: nat, coll: nat, entrant: nat): nat
    requires coll > 0
  {
    entrant * stakes / coll
  }

  function Enter(t: Totals, entrant: nat): Totals
    requires t.coll > 0
  {
    Totals(t.stakes + EntryStake(t.stakes, t.coll, entrant), t.coll + entrant)
  }

  /** Each round removes a stake that is there. */
  ghost predicate Feasible(t: Totals, rounds: seq<Round>)
    requires t.coll > 0
    decreases |rounds|
  {
    rounds == [] ||
    (rounds[0].removed <= t.stakes && Feasible(Enter(t.(stakes := t.stakes - rounds[0].removed), rounds[0].entrant), rounds[1..]))
  }

  /** The totals after all rounds. */
  ghost function After(t: Totals, rounds: seq<Round>): Totals
    requires t.coll > 0 && Feasible(t, rounds)
    decreases |rounds|
  {
    if rounds == [] then t
    else After(Enter(t.(stakes := t.stakes - rounds[0].removed), rounds[0].entrant), rounds[1..])
  }

  /** The loop. `stake` is the last entrant's stake. */
  method Simulate(stakes0: nat, coll0: nat, rounds: seq<Round>) returns (stakes: nat, coll: nat, stake: nat)
    requires coll0 > 0 && Feasible(Totals(stakes0, coll0), rounds)
    ensures Totals(stakes, coll) == After(Totals(stakes0, coll0), rounds)
    ensures stakes0 <= coll0 ==> stakes <= coll
    ensures stakes0 <= coll0 && rounds != [] ==> stake <= rounds[|rounds| - 1].entrant
  {
    stakes, coll, stake := stakes0, coll0, 0;
    var i := 0;
    while i < |rounds|
      invariant 0 <= i <= |rounds| && coll > 0 && Feasible(Totals(stakes, coll), rounds[i..])
      invariant After(Totals(stakes0, coll0), rounds) == After(Totals(stakes, coll), rounds[i..])
      invariant stakes0 <= coll0 ==> stakes <= coll
      invariant stakes0 <= coll0 && i > 0 ==> stake <= rounds[i - 1].entrant
    {
      assert rounds[i..][0] == rounds[i] && rounds[i..][1..] == rounds[i + 1..];
      stakes := stakes - rounds[i].removed;
      EntryDrift(stakes, coll, rounds[i].entrant);
      stake := rounds[i].entrant * stakes / coll;
      stakes := stakes + stake;
      coll := coll + rounds[i].entrant;
      i := i + 1;
    }
  }

  /** An entry lowers the stakes per collateral, by less than one unit of stake; and with no more
      stakes than collateral an entrant's stake is no more than its collateral. */
  lemma EntryDrift(stakes: nat, coll: nat, entrant: nat)
    requires coll > 0
    ensures var t := Enter(Totals(stakes, coll), entrant); 0 <= stakes * t.coll - t.stakes * coll < coll
    ensures stakes <= coll ==> EntryStake(stakes, coll, entrant) <= entrant
  {
    var q := EntryStake(stakes, coll, entrant);
    DivBounds(entrant * stakes, coll);
    assert stakes * (coll + entrant) - (stakes + q) * coll == entrant * stakes - q * coll;
    if stakes <= coll {
      MulMono(stakes, coll, entrant);
      MulMono(entrant + 1, q, coll);
      assert (entrant + 1) * coll == entrant * coll + coll;
    }
  }

  // --------------------------------------------------- against exact stakes

  /** Stakes per collateral. */
  function Per(x: real, coll: real): real
    requires coll > 0.0
  {
    x / coll
  }

  /** An entry without rounding. */
  function ExactEnter(stakes: real, coll: nat, entrant: nat): real
    requires coll > 0
  {
    stakes + Times(entrant as real, Per(stakes, coll as real))
  }

  /** The same rounds without rounding. */
  ghost function Exact(stakes: real, coll: nat, rounds: seq<Round>): real
    requires coll > 0
    decreases |rounds|
  {
    if rounds == [] then stakes
    else Exact(ExactEnter(stakes - rounds[0].removed as real, coll, rounds[0].entrant), coll + rounds[0].entrant, rounds[1..])
  }

  /** How far the exact totals are above the rounded ones, per collateral. */
  ghost function Drift(exact: real, t: Totals): real
    requires t.coll > 0
  {
    Per(exact - t.stakes as real, t.coll as real)
  }

  lemma OneRound(exact: real, t: Totals, r: Round)
    requires t.coll > 0 && r.removed <= t.stakes
    ensures var t' := Enter(t.(stakes := t.stakes - r.removed), r.entrant);
            0.0 <= Drift(ExactEnter(exact - r.removed as real, t.coll, r.entrant), t') - Drift(exact, t) <= Per(1.0, t'.coll as real)
  {
    var left, s, c, e := exact - r.removed as real, t.stakes - r.removed, t.coll, r.entrant;
    var q := EntryStake(s, c, e);
    DivBounds(e * s, c);
    RoundingLoss(e, s, c, q);
    DifferencePer(left, s as real, c as real);
    Spread(Per(left, c as real), Per(s as real, c as real), c as real, e as real, q as real);
    PerTimes(left, c as real);
    PerTimes(s as real, c as real);
    assert exact - t.stakes as real == left - s as real;
    assert (s + q) as real == s as real + q as real && (c + e) as real == c as real + e as real;
  }

  lemma PerTimes(x: real, c: real)
    requires c > 0.0
    ensures Times(Per(x, c), c) == x
  {
  }

  lemma DifferencePer(x: real, y: real, c: real)
    requires c > 0.0
    ensures Per(x - y, c) == Per(x, c) - Per(y, c)
  {
    QuotientOfSum(x - y, y, c);
  }

  lemma RoundingLoss(e: nat, s: nat, c: nat, q: nat)
    requires c > 0 && q * c <= e * s < (q + 1) * c
    ensures 0.0 <= Times(e as real, Per(s as real, c as real)) - q as real <= 1.0
  {
    ProductAsReal(q, c);
    ProductAsReal(e, s);
    ProductAsReal(q + 1, c);
    var x := Times(e as real, Per(s as real, c as real));
    PerTimes(s as real, c as real);
    TimesAssoc(e as real, Per(s as real, c as real), c as real);
    assert x * c as real == e as real * s as real;
    RealMulMono(q as real, x, c as real);
    RealMulMono(x, (q + 1) as real, c as real);
  }

  /** Exact stakes `p` and rounded stakes `r` per collateral, before and after an entry. */
  lemma Spread(p: real, r: real, c: real, e: real, q: real)
    requires c > 0.0 && e >= 0.0 && 0.0 <= Times(e, r) - q <= 1.0
    ensures 0.0 <= Per(Times(p, c) + Times(e, p) - (Times(r, c) + q), c + e) - (p - r) <= Per(1.0, c + e)
  {
    var loss := Times(e, r) - q;
    var x := p - r + loss / (c + e);
    assert loss / (c + e) * (c + e) == loss;
    assert x * (c + e) == Times(p, c) + Times(e, p) - (Times(r, c) + q);
    SameQuotient(Times(p, c) + Times(e, p) - (Times(r, c) + q), c + e, x);
    QuotientMonotone(0.0, loss, c + e);
    QuotientMonotone(loss, 1.0, c + e);
  }

  /** Over any number of rounds the rounded totals never exceed the exact ones and fall behind by
      at most one unit a round, scaled by how much the collateral has grown since. */
  lemma {:induction false} DriftIsBounded(exact: real, t: Totals, rounds: seq<Round>)
    requires t.coll > 0 && Feasible(t, rounds)
    ensures After(t, rounds).coll >= t.coll
    ensures 0.0 <= Drift(Exact(exact, t.coll, rounds), After(t, rounds)) - Drift(exact, t) <= Per(|rounds| as real, t.coll as real)
    decreases |rounds|
  {
    if rounds == [] {
    } else {
      var exact' := ExactEnter(exact - rounds[0].removed as real, t.coll, rounds[0].entrant);
      var t' := Enter(t.(stakes := t.stakes - rounds[0].removed), rounds[0].entrant);
      OneRound(exact, t, rounds[0]);
      DriftIsBounded(exact', t', rounds[1..]);
      assert Exact(exact, t.coll, rounds) == Exact(exact', t'.coll, rounds[1..]);
      Accumulate(|rounds| - 1, t.coll, t'.coll);
    }
  }

  lemma Accumulate(n: nat, c: nat, c': nat)
    requires 0 < c <= c'
    ensures Per(1.0, c' as real) + Per(n as real, c' as real) <= Per((n + 1) as real, c as real)
  {
    var sum := (n + 1) as real;
    assert sum == 1.0 + n as real;
    QuotientOfSum(1.0, n as real, c' as real);
    PerTimes(sum, c' as real);
    PerTimes(sum, c as real);
    var x := Per(sum, c' as real);
    assert x >= 0.0;
    ProductMonotone(x, c as real, c' as real);
    RealMulMono(x, Per(sum, c as real), c as real);
  }

  /** Starting from equal totals: the final gap in stakes itself. */
  lemma FinalDifference(t: Totals, rounds: seq<Round>)
    requires t.coll > 0 && Feasible(t, rounds)
    ensures var u := After(t, rounds);
            0.0 <= Exact(t.stakes as real, t.coll, rounds) - u.stakes as real <= Times(Per(|rounds| as real, t.coll as real), u.coll as real)
  {
    var exact, u := Exact(t.stakes as real, t.coll, rounds), After(t, rounds);
    DriftIsBounded(t.stakes as real, t, rounds);
    ScaleUp(exact - u.stakes as real, u.coll as real, Per(|rounds| as real, t.coll as real));
  }

  lemma ScaleUp(gap: real, c: real, bound: real)
    requires c > 0.0 && 0.0 <= Per(gap, c) <= bound
    ensures 0.0 <= gap <= Times(bound, c)
  {
    PerTimes(gap, c);
    RealMulMono(0.0, Per(gap, c), c);
    RealMulMono(Per(gap, c), bound, c);
  }

  // ------------------------------------------------------ against the contract

  /** Just after a liquidation, opening a vault in the contract is one entry of the loop. */
  lemma ContractEnters(s: VaultAccounts.System, a: Address, coll: nat, debt: nat)
    requires VaultAccounts.Open(s, a, coll, debt).Ok?
    requires s.stakesSnapshot == s.totalStakes && s.collSnapshot == s.activeColl + s.defaultColl > 0
    ensures var t := VaultAccounts.Open(s, a, coll, debt).system;
            Totals(t.totalStakes, t.activeColl + t.defaultColl) == Enter(Totals(s.totalStakes, s.activeColl + s.defaultColl), coll)
  {
  }
}
