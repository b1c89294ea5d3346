/** `getTotalDebtFromUndercollateralizedVaults` of the withdrawal fuzz driver: walk up
    `n` places from the tail of the sorted list, summing the debts below 110%. */
module FuzzDriver {
  import opened Units
  import opened VaultList

  /** The debt of one vault if its ratio is below 110%. */
  function DebtIfBelow(icr: Address -> nat, debt: Address -> nat, vault: Address): nat {
    if icr(vault) < MCR then debt(vault) else 0
  }

  /** Debt of the vaults from position `from` on whose ratio is below 110%. */
  function DebtBelow(order: seq<Address>, icr: Address -> nat, debt: Address -> nat, from: nat): nat
    requires from <= |order|
    decreases |order| - from
  {
    if from == |order| then 0
    else DebtIfBelow(icr, debt, order[from]) + DebtBelow(order, icr, debt, from + 1)
  }

  /** Debt of all vaults from position `from` on. */
  function DebtFrom(order: seq<Address>, debt: Address -> nat, from: nat): nat
    requires from <= |order|
    decreases |order| - from
  {
    if from == |order| then 0 else debt(order[from]) + DebtFrom(order, debt, from + 1)
  }

  /** Number of vaults in the whole list whose ratio is below 110%. */
  function CountBelow(order: seq<Address>, icr: Address -> nat): nat {
    if order == [] then 0 else (if icr(order[0]) < MCR then 1 else 0) + CountBelow(order[1..], icr)
  }

  /** In a sorted list the vaults below 110% are exactly the last `CountBelow`. */
  lemma {:induction false} BelowIsASuffix(order: seq<Address>, icr: Address -> nat, i: nat)
    requires Descending(order, icr) && i < |order|
    ensures CountBelow(order, icr) <= |order|
    ensures icr(order[i]) < MCR <==> i >= |order| - CountBelow(order, icr)
    decreases |order|
  {
    var rest := order[1..];
    assert Descending(rest, icr);
    if rest != [] {
      BelowIsASuffix(rest, icr, if i > 0 then i - 1 else 0);
      if i > 0 {
        BelowIsASuffix(rest, icr, 0);
        assert icr(order[0]) >= icr(rest[0]) >= icr(rest[i - 1]);
      }
      assert icr(order[0]) < MCR ==> icr(rest[0]) < MCR;
    }
  }

  lemma {:induction false} NoneBelow(order: seq<Address>, icr: Address -> nat, debt: Address -> nat, from: nat, end: nat)
    requires from <= end <= |order|
    requires forall i :: from <= i < end ==> icr(order[i]) >= MCR
    ensures DebtBelow(order, icr, debt, from) == DebtBelow(order, icr, debt, end)
    decreases end as int - from as int
  {
    if from < end {
      NoneBelow(order, icr, debt, from + 1, end);
    }
  }

  lemma {:induction false} AllBelow(order: seq<Address>, icr: Address -> nat, debt: Address -> nat, from: nat)
    requires from <= |order|
    requires forall i :: from <= i < |order| ==> icr(order[i]) < MCR
    ensures DebtBelow(order, icr, debt, from) == DebtFrom(order, debt, from)
    decreases |order| - from
  {
    if from < |order| {
      AllBelow(order, icr, debt, from + 1);
    }
  }

  /** When `n` covers every vault below 110% the walk returns the total debt of all of
      them in the system; otherwise that of the `n` lowest vaults. */
  method TotalDebtFromUndercollateralizedVaults(list: SortedVaults, icr: Address -> nat, debt: Address -> nat, n: nat)
    returns (totalDebt: nat)
    requires list.Valid() && Descending(list.order, icr)
    requires icr(NULL) >= MCR  // no vault at the null address: its ratio is the maximal value
    ensures n >= CountBelow(list.order, icr) ==> totalDebt == DebtBelow(list.order, icr, debt, 0)
    ensures n <= CountBelow(list.order, icr) <= |list.order| ==> totalDebt == DebtFrom(list.order, debt, |list.order| - n)
    ensures CountBelow(list.order, icr) <= |list.order|
  {
    ghost var order := list.order;
    totalDebt := 0;
    var vault := list.tail;
    WalkStarts(order, icr, debt);
    WalkCovers(order, icr, debt, n, Reached(order, n) + 1);
    hide CountBelow, Descending, DebtFrom, DebtBelow, DebtIfBelow, Represents, Reached, At;
    for i := 0 to n
      invariant vault == At(order, Reached(order, i))
      invariant totalDebt == DebtBelow(order, icr, debt, Reached(order, i) + 1)
    {
      WalkStep(list, icr, debt, i);
      totalDebt := totalDebt + DebtIfBelow(icr, debt, vault);
      vault := list.NodeAt(vault).prevId;
    }
  }

  /** Where a walk from the tail stands after `i` steps; past the head it stays at the null address. */
  function Reached(order: seq<Address>, i: nat): (at: int)
    ensures -1 <= at < |order|
  {
    if i < |order| then |order| - 1 - i else -1
  }

  lemma WalkStarts(order: seq<Address>, icr: Address -> nat, debt: Address -> nat)
    ensures Reached(order, 0) == |order| - 1 && DebtBelow(order, icr, debt, |order|) == 0
  {
  }

  lemma WalkStep(list: SortedVaults, icr: Address -> nat, debt: Address -> nat, i: nat)
    requires list.Valid() && icr(NULL) >= MCR
    ensures var order, at := list.order, Reached(list.order, i);
            && list.NodeAt(At(order, at)).prevId == At(order, Reached(order, i + 1))
            && DebtBelow(order, icr, debt, Reached(order, i + 1) + 1)
               == DebtBelow(order, icr, debt, at + 1) + DebtIfBelow(icr, debt, At(order, at))
  {
    var at := Reached(list.order, i);
    assert at >= 0 ==> Linked(list.nodes, list.order, list.pos, at);
  }

  /** What the debt below 110% from position `from` on is, where a walk of `n` steps ends. */
  lemma WalkCovers(order: seq<Address>, icr: Address -> nat, debt: Address -> nat, n: nat, from: nat)
    requires Descending(order, icr) && from == if n < |order| then |order| - n else 0
    ensures CountBelow(order, icr) <= |order|
    ensures n >= CountBelow(order, icr) ==> DebtBelow(order, icr, debt, from) == DebtBelow(order, icr, debt, 0)
    ensures n <= CountBelow(order, icr) ==> DebtBelow(order, icr, debt, from) == DebtFrom(order, debt, |order| - n)
  {
    if order != [] {
      forall i | 0 <= i < |order| ensures icr(order[i]) < MCR <==> i >= |order| - CountBelow(order, icr) {
        BelowIsASuffix(order, icr, i);
      }
      BelowIsASuffix(order, icr, 0);
      hide CountBelow, Descending;
      if n >= CountBelow(order, icr) {
        NoneBelow(order, icr, debt, 0, from);
      }
      if n <= CountBelow(order, icr) {
        AllBelow(order, icr, debt, from);
      }
    }
  }
}
