/** The transactions of the Stability Pool and sequences of them. */
module PoolRuns {
  import opened Sums
  import opened Units
  import opened VaultList
  import opened PoolModel

  datatype Op =
    | ProvideOp(a: Address, amount: nat, tag: Address)
    | WithdrawOp(a: Address, amount: nat)
    | ClaimOp(a: Address)
    | OffsetOp(debt: nat, coll: nat)
    | RegisterOp(frontEnd: Address)

  function Apply(p: Pool, op: Op): Result
    requires Valid(p)
  {
    match op
    case ProvideOp(a, amount, tag) => Provide(p, a, amount, tag)
    case WithdrawOp(a, amount) => Withdraw(p, a, amount)
    case ClaimOp(a) => ClaimGain(p, a)
    case OffsetOp(debt, coll) => Offset(p, debt, coll)
    case RegisterOp(f) => Register(p, f)
  }

  predicate ByDepositor(op: Op) { op.ProvideOp? || op.WithdrawOp? || op.ClaimOp? }

  /** The deposit a depositor's transaction leaves recorded. */
  function NewValue(p: Pool, op: Op): nat
    requires Valid(p) && ByDepositor(op)
  {
    var compounded := Compounded(p, op.a);
    match op
    case ProvideOp(_, amount, _) => compounded + amount
    case WithdrawOp(_, amount) => compounded - Min(amount, compounded)
    case ClaimOp(_) => compounded
  }

  /** Every depositor's transaction pays the gain out, records the new value and moves the pool by the difference. */
  lemma ApplyIsUpdate(p: Pool, op: Op)
    requires Valid(p) && ByDepositor(op) && Apply(p, op).Ok?
    ensures var q := Apply(p, op).pool;
            && Valid(q) && Updated(p, q, op.a, NewValue(p, op))
            && q.bpd == p.bpd + NewValue(p, op) - Compounded(p, op.a) && q.rbtc == p.rbtc - Gain(p, op.a)
  {
    hide Compounded, Gain, StakeOf, Valid, Conclude, Updated;
    var a := op.a;
    match op
    case ProvideOp(_, amount, tag) =>
      var f := if a in p.deposits then TagOf(p, a) else tag;
      ConcludeIsUpdate(p, a, p.bpd + amount, p.rbtc - Gain(p, a), Compounded(p, a) + amount, f, StakeOf(p, f) + amount);
    case WithdrawOp(_, amount) =>
      var f, paid := TagOf(p, a), Min(amount, Compounded(p, a));
      ConcludeIsUpdate(p, a, p.bpd - paid, p.rbtc - Gain(p, a), Compounded(p, a) - paid, f, StakeOf(p, f) - paid);
    case ClaimOp(_) =>
      ConcludeIsUpdate(p, a, p.bpd, p.rbtc - Gain(p, a), Compounded(p, a), TagOf(p, a), StakeOf(p, TagOf(p, a)));
  }

  lemma ConcludeIsUpdate(p: Pool, a: Address, bpd: int, rbtc: int, value: nat, f: Address, stake: int)
    requires Valid(p)
    ensures var r := Conclude(p, a, bpd, rbtc, value, f, stake);
            r.Ok? ==> Valid(r.pool) && Updated(p, r.pool, a, value) && r.pool.bpd == bpd && r.pool.rbtc == rbtc
  {
    hide Valid;
    if Conclude(p, a, bpd, rbtc, value, f, stake).Ok? {
      SettledIsUpdate(p, a, bpd, rbtc, value, f, stake);
    }
  }

  /** A transaction that reverts leaves the pool as it was. */
  function Next(p: Pool, op: Op): (q: Pool)
    requires Valid(p)
    ensures Valid(q)
  {
    ApplyKeepsValid(p, op);
    if Apply(p, op).Ok? then Apply(p, op).pool else p
  }

  lemma ApplyKeepsValid(p: Pool, op: Op)
    requires Valid(p)
    ensures Apply(p, op).Ok? ==> Valid(Apply(p, op).pool)
  {
    if Apply(p, op).Ok? {
      if op.OffsetOp? {
        if CanOffset(p, op.debt) {
          OffsetKeepsValid(p, op.debt, op.coll);
        }
      } else if ByDepositor(op) {
        ApplyIsUpdate(p, op);
      } else {
        RegisteringChangesNothing(p, op.frontEnd);
      }
    }
  }

  /** A new front end changes no deposit, gain or stake. */
  lemma RegisteringChangesNothing(p: Pool, f: Address)
    requires Valid(p) && Register(p, f).Ok?
    ensures var q := Register(p, f).pool;
            Valid(q) && (forall a :: Held(q, a) == Held(p, a) && Owed(q, a) == Owed(p, a)) && TotalHeld(q) == TotalHeld(p) && TotalOwed(q) == TotalOwed(p)
  {
    var q := Register(p, f).pool;
    forall snap | SnapOk(p, snap) ensures SnapOk(q, snap) {
    }
    forall a ensures Held(q, a) == Held(p, a) && Owed(q, a) == Owed(p, a) {
    }
    SumSame(p.deposits.Keys, HeldBy(q), HeldBy(p));
    SumSame(p.deposits.Keys, OwedTo(q), OwedTo(p));
  }

  function Run(p: Pool, ops: seq<Op>): (q: Pool)
    requires Valid(p)
    ensures Valid(q)
    decreases |ops|
  {
    if ops == [] then p else Run(Next(p, ops[0]), ops[1..])
  }
}
