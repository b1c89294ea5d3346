/** How far the deposits tagged with a front end can exceed the stake recorded for it. Each of its
    depositors' transactions reads the stake, rounded down, and records it anew; deposits are only
    rounded when their own depositor acts. */
module PoolStakes {
  import opened Arithmetic
  import opened Sums
  import opened Units
  import opened VaultList
  import opened PoolModel
  import opened PoolRuns
  import opened PoolWithdrawals

  /** The exact value of a recorded amount while the contract still reads it: in its epoch, past at most
      one scale change. */
  ghost function LiveFrom(p: Pool, initial: nat, snap: Snapshot): real
    requires SnapOk(p, snap)
  {
    if snap.epoch == p.epoch && p.scale - snap.scale <= 1 then HeldFrom(p, initial, snap) else 0.0
  }

  ghost function LiveStake(p: Pool, f: Address): real
    requires Valid(p)
  {
    if f in p.frontEnds.stakes then LiveFrom(p, p.frontEnds.stakes[f].value, p.frontEnds.stakes[f].snap) else 0.0
  }

  ghost function LiveUnder(p: Pool, f: Address, a: Address): real
    requires Valid(p)
  {
    if a in p.deposits && TagOf(p, a) == f then LiveFrom(p, p.deposits[a], p.snapshots[a]) else 0.0
  }

  ghost function LiveTagged(p: Pool, f: Address): real
    requires Valid(p)
  {
    Sum(p.deposits.Keys, (a: Address) => LiveUnder(p, f, a))
  }

  predicate Older(snap: Snapshot, other: Snapshot) {
    snap.epoch < other.epoch || (snap.epoch == other.epoch && snap.scale <= other.scale)
  }

  /** The deposits under `f` exceed its stake by at most `slack`, and none was recorded after it. */
  ghost predicate StakeCovers(p: Pool, f: Address, slack: nat)
    requires Valid(p)
  {
    && LiveTagged(p, f) <= LiveStake(p, f) + slack as real
    && (f in p.frontEnds.stakes ==>
         forall a :: a in p.deposits && TagOf(p, a) == f ==> Older(p.snapshots[a], p.frontEnds.stakes[f].snap))
  }

  /** What reading a recorded amount can lose: less than one unit, or all of it below a billionth. */
  function Unread(value: nat): (r: nat)
    ensures r >= 1
  {
    if value / SCALE_FACTOR > 1 then value / SCALE_FACTOR else 1
  }

  lemma ReadingLoses(p: Pool, initial: nat, snap: Snapshot)
    requires SnapOk(p, snap)
    ensures 0.0 <= CompoundedFrom(p, initial, snap) as real <= LiveFrom(p, initial, snap)
    ensures LiveFrom(p, initial, snap) - CompoundedFrom(p, initial, snap) as real <= Unread(initial) as real
  {
    ReadingIsFloor(p, initial, snap);
    HeldFromNonneg(p, initial, snap);
    hide HeldFrom, CompoundedFrom;
  }

  lemma HeldFromNonneg(p: Pool, initial: nat, snap: Snapshot)
    requires SnapOk(p, snap)
    ensures HeldFrom(p, initial, snap) >= 0.0
  {
    if snap.epoch == p.epoch {
      WorthNonneg(initial as real, p.P as real, snap.P as real, ScalePow(p.scale - snap.scale));
    }
  }

  lemma WorthNonneg(d: real, P: real, P0: real, pow: real)
    requires d >= 0.0 && P >= 0.0 && P0 > 0.0 && pow > 0.0
    ensures Worth(d, P, P0, pow) >= 0.0
  {
    QuotientMonotone(0.0, d * P, P0 * pow);
  }

  function UnreadStake(p: Pool, f: Address): nat {
    if f in p.frontEnds.stakes then Unread(p.frontEnds.stakes[f].value) else 0
  }

  lemma StakeLoses(p: Pool, f: Address)
    requires Valid(p)
    ensures StakeOf(p, f) as real <= LiveStake(p, f) <= StakeOf(p, f) as real + UnreadStake(p, f) as real
  {
    if f in p.frontEnds.stakes {
      assert SnapOk(p, p.frontEnds.stakes[f].snap);
      ReadingLoses(p, p.frontEnds.stakes[f].value, p.frontEnds.stakes[f].snap);
    }
  }

  lemma LiveBounds(p: Pool, f: Address, a: Address)
    requires Valid(p)
    ensures 0.0 <= LiveUnder(p, f, a) && (TagOf(p, a) == f ==> Compounded(p, a) as real <= LiveUnder(p, f, a))
  {
    if a in p.deposits {
      assert SnapOk(p, p.snapshots[a]);
      ReadingLoses(p, p.deposits[a], p.snapshots[a]);
    }
  }

  // ---------------------------------------------------- a depositor's transaction

  lemma FreshIsLive(q: Pool, value: nat, snap: Snapshot)
    requires SnapOk(q, snap) && snap.P == q.P && snap.scale == q.scale && snap.epoch == q.epoch
    ensures LiveFrom(q, value, snap) == value as real
  {
    assert ScalePow(0) == 1.0;
    SameQuotient(value as real * q.P as real, q.P as real * 1.0, value as real);
  }

  lemma SameIsLive(p: Pool, q: Pool, initial: nat, snap: Snapshot)
    requires SnapOk(p, snap) && SnapOk(q, snap) && q.P == p.P && q.scale == p.scale && q.epoch == p.epoch
    ensures LiveFrom(q, initial, snap) == LiveFrom(p, initial, snap)
  {
  }

  lemma SettledParts(p: Pool, a: Address, bpd: nat, rbtc: nat, value: nat, f: Address, stake: nat)
    ensures var q := Settled(p, a, bpd, rbtc, value, f, stake);
            && q.P == p.P && q.scale == p.scale && q.epoch == p.epoch && q.sums == p.sums
            && q.deposits == (if value == 0 then p.deposits - {a} else p.deposits[a := value])
            && q.snapshots == (if value == 0 then p.snapshots - {a} else p.snapshots[a := Fresh(p)])
            && q.frontEnds == UpdateFrontEnd(p, a, value, f, stake)
  {
  }

  /** What the end of a depositor's transaction leaves recorded. */
  lemma SettledIsLive(p: Pool, q: Pool, a: Address, bpd: nat, rbtc: nat, value: nat, f: Address, stake: nat)
    requires Valid(p) && Valid(q) && q == Settled(p, a, bpd, rbtc, value, f, stake)
    ensures LiveStake(q, f) == stake as real && LiveUnder(q, f, a) == value as real
    ensures forall g :: g != f ==> LiveUnder(q, g, a) == 0.0
  {
    SettledParts(p, a, bpd, rbtc, value, f, stake);
    hide Settled, LiveFrom;
    if stake > 0 {
      assert SnapOk(q, q.frontEnds.stakes[f].snap);
      FreshIsLive(q, stake, q.frontEnds.stakes[f].snap);
    }
    if value > 0 {
      assert SnapOk(q, q.snapshots[a]);
      FreshIsLive(q, value, q.snapshots[a]);
    }
  }

  lemma OtherStakeIsLive(p: Pool, q: Pool, a: Address, bpd: nat, rbtc: nat, value: nat, f: Address, stake: nat, g: Address)
    requires Valid(p) && Valid(q) && q == Settled(p, a, bpd, rbtc, value, f, stake) && g != f
    ensures LiveStake(q, g) == LiveStake(p, g)
  {
    SettledParts(p, a, bpd, rbtc, value, f, stake);
    hide Settled, LiveFrom;
    if g in p.frontEnds.stakes {
      assert SnapOk(p, p.frontEnds.stakes[g].snap) && SnapOk(q, q.frontEnds.stakes[g].snap);
      SameIsLive(p, q, p.frontEnds.stakes[g].value, p.frontEnds.stakes[g].snap);
    }
  }

  lemma OtherDepositIsLive(p: Pool, q: Pool, a: Address, bpd: nat, rbtc: nat, value: nat, f: Address, stake: nat, g: Address, b: Address)
    requires Valid(p) && Valid(q) && q == Settled(p, a, bpd, rbtc, value, f, stake) && b != a
    ensures LiveUnder(q, g, b) == LiveUnder(p, g, b)
  {
    SettledParts(p, a, bpd, rbtc, value, f, stake);
    hide Settled, LiveFrom;
    if b in p.deposits {
      assert SnapOk(p, p.snapshots[b]) && SnapOk(q, q.snapshots[b]);
      SameIsLive(p, q, p.deposits[b], p.snapshots[b]);
    }
  }

  /** No recorded snapshot is newer than the pool. */
  lemma SettledIsOlder(p: Pool, q: Pool, a: Address, bpd: nat, rbtc: nat, value: nat, f: Address, stake: nat, g: Address)
    requires Valid(p) && Valid(q) && q == Settled(p, a, bpd, rbtc, value, f, stake) && g in q.frontEnds.stakes
    requires a in p.deposits ==> TagOf(p, a) == f
    requires g in p.frontEnds.stakes ==> forall b :: b in p.deposits && TagOf(p, b) == g ==> Older(p.snapshots[b], p.frontEnds.stakes[g].snap)
    ensures forall b :: b in q.deposits && TagOf(q, b) == g ==> Older(q.snapshots[b], q.frontEnds.stakes[g].snap)
  {
    forall b | b in q.deposits && TagOf(q, b) == g ensures Older(q.snapshots[b], q.frontEnds.stakes[g].snap) {
      OneIsOlder(p, q, a, bpd, rbtc, value, f, stake, g, b);
    }
  }

  lemma OneIsOlder(p: Pool, q: Pool, a: Address, bpd: nat, rbtc: nat, value: nat, f: Address, stake: nat, g: Address, b: Address)
    requires Valid(p) && Valid(q) && q == Settled(p, a, bpd, rbtc, value, f, stake) && g in q.frontEnds.stakes
    requires b in q.deposits && TagOf(q, b) == g
    requires b in p.deposits && TagOf(p, b) == g && g in p.frontEnds.stakes ==> Older(p.snapshots[b], p.frontEnds.stakes[g].snap)
    ensures Older(q.snapshots[b], q.frontEnds.stakes[g].snap)
  {
    SettledParts(p, a, bpd, rbtc, value, f, stake);
    assert SnapOk(q, q.snapshots[b]);
    hide Settled, Valid, FrontEndsOk, ScalePow, SumAt;
  }

  lemma TaggedMoves(p: Pool, q: Pool, a: Address, bpd: nat, rbtc: nat, value: nat, f: Address, stake: nat, g: Address)
    requires Valid(p) && Valid(q) && q == Settled(p, a, bpd, rbtc, value, f, stake)
    ensures LiveTagged(q, g) == LiveTagged(p, g) - LiveUnder(p, g, a) + LiveUnder(q, g, a)
  {
    SettledParts(p, a, bpd, rbtc, value, f, stake);
    assert a !in p.deposits ==> LiveUnder(p, g, a) == 0.0;
    assert a !in q.deposits ==> LiveUnder(q, g, a) == 0.0;
    hide LiveUnder, Settled, Valid;
    forall b | b != a ensures LiveUnder(q, g, b) == LiveUnder(p, g, b) {
      OtherDepositIsLive(p, q, a, bpd, rbtc, value, f, stake, g, b);
    }
    UpdateTotal(p, q, a, value, (b: Address) => LiveUnder(p, g, b), (b: Address) => LiveUnder(q, g, b));
  }

  /** Deposit and stake move by the same amount; what reading the stake has lost comes on top. */
  lemma SettledCovers(p: Pool, q: Pool, a: Address, bpd: nat, rbtc: nat, value: nat, f: Address, stake: nat, g: Address, slack: nat)
    requires Valid(p) && Valid(q) && q == Settled(p, a, bpd, rbtc, value, f, stake) && StakeCovers(p, g, slack)
    requires (a in p.deposits ==> TagOf(p, a) == f) && value - Compounded(p, a) == stake - StakeOf(p, f)
    ensures StakeCovers(q, g, slack + if g == f then UnreadStake(p, f) else 0)
  {
    if g in q.frontEnds.stakes {
      SettledIsOlder(p, q, a, bpd, rbtc, value, f, stake, g);
    }
    assert a !in p.deposits ==> LiveUnder(p, g, a) == 0.0 && Compounded(p, a) == 0;
    assert g != f ==> LiveUnder(p, g, a) == 0.0;
    hide LiveUnder, LiveStake, LiveTagged, Compounded, StakeOf, UnreadStake, Settled, Older, Valid;
    SettledIsLive(p, q, a, bpd, rbtc, value, f, stake);
    TaggedMoves(p, q, a, bpd, rbtc, value, f, stake, g);
    StakeLoses(p, f);
    LiveBounds(p, g, a);
    if g != f {
      OtherStakeIsLive(p, q, a, bpd, rbtc, value, f, stake, g);
    }
  }

  /** The front end whose stake a depositor's transaction records anew. */
  function FrontOf(p: Pool, op: Op): Address
    requires ByDepositor(op)
  {
    if op.ProvideOp? && op.a !in p.deposits then op.tag else TagOf(p, op.a)
  }

  predicate Records(p: Pool, op: Op, f: Address)
    requires Valid(p)
  {
    ByDepositor(op) && Apply(p, op).Ok? && FrontOf(p, op) == f
  }

  lemma ApplyIsSettled(p: Pool, op: Op)
    requires Valid(p) && ByDepositor(op) && Apply(p, op).Ok?
    ensures var q, stake := Apply(p, op).pool, StakeOf(p, FrontOf(p, op)) + NewValue(p, op) - Compounded(p, op.a);
            stake >= 0 && q == Settled(p, op.a, q.bpd, q.rbtc, NewValue(p, op), FrontOf(p, op), stake)
  {
    hide Compounded, Gain, StakeOf, Valid, Settled;
    var q, stake: int := Apply(p, op).pool, StakeOf(p, FrontOf(p, op)) + NewValue(p, op) - Compounded(p, op.a);
    match op
    case ProvideOp(a, amount, tag) =>
      ConcludeIsSettled(p, a, p.bpd + amount, p.rbtc - Gain(p, a), NewValue(p, op), FrontOf(p, op), stake);
    case WithdrawOp(a, amount) =>
      ConcludeIsSettled(p, a, p.bpd - Min(amount, Compounded(p, a)), p.rbtc - Gain(p, a), NewValue(p, op), FrontOf(p, op), stake);
    case ClaimOp(a) =>
      ConcludeIsSettled(p, a, p.bpd, p.rbtc - Gain(p, a), NewValue(p, op), FrontOf(p, op), stake);
  }

  lemma ConcludeIsSettled(p: Pool, a: Address, bpd: int, rbtc: int, value: nat, f: Address, stake: int)
    requires Valid(p)
    ensures var r := Conclude(p, a, bpd, rbtc, value, f, stake);
            r.Ok? ==> stake >= 0 && bpd >= 0 && rbtc >= 0 && r.pool == Settled(p, a, r.pool.bpd, r.pool.rbtc, value, f, stake)
  {
    if Conclude(p, a, bpd, rbtc, value, f, stake).Ok? {
      assert Settled(p, a, bpd, rbtc, value, f, stake).bpd == bpd && Settled(p, a, bpd, rbtc, value, f, stake).rbtc == rbtc;
    }
  }

  lemma RecordedCovers(p: Pool, op: Op, q: Pool, value: nat, stake: nat, f: Address, g: Address, slack: nat)
    requires Valid(p) && Valid(q) && ByDepositor(op) && StakeCovers(p, g, slack) && f == FrontOf(p, op)
    requires q == Settled(p, op.a, q.bpd, q.rbtc, value, f, stake) && value - Compounded(p, op.a) == stake - StakeOf(p, f)
    ensures StakeCovers(q, g, slack + if g == f then UnreadStake(p, f) else 0)
  {
    assert op.a in p.deposits ==> f == TagOf(p, op.a);
    hide Compounded, StakeOf, Valid, StakeCovers, UnreadStake, Settled, FrontOf, TagOf;
    SettledCovers(p, q, op.a, q.bpd, q.rbtc, value, f, stake, g, slack);
  }

  lemma DepositorCovers(p: Pool, op: Op, g: Address, slack: nat)
    requires Valid(p) && ByDepositor(op) && Apply(p, op).Ok? && StakeCovers(p, g, slack)
    ensures Valid(Apply(p, op).pool) && StakeCovers(Apply(p, op).pool, g, slack + if Records(p, op, g) then UnreadStake(p, g) else 0)
  {
    hide Compounded, StakeOf, Valid, StakeCovers, UnreadStake, Apply, NewValue, Settled, Updated, FrontOf;
    ApplyIsUpdate(p, op);
    ApplyIsSettled(p, op);
    var f, value := FrontOf(p, op), NewValue(p, op);
    RecordedCovers(p, op, Apply(p, op).pool, value, StakeOf(p, f) + value - Compounded(p, op.a), f, g, slack);
  }

  // --------------------------------------------------------------- offsets

  predicate LiveIn(p: Pool, snap: Snapshot) { snap.epoch == p.epoch && p.scale <= snap.scale + 1 }

  ghost function CutOf(p: Pool, debt: nat): (c: real)
    requires p.P > 0 && CanOffset(p, debt)
    ensures 0.0 <= c <= 1.0
  {
    CutBounds(p.P, FactorOf(p, debt));
    if Partial(p, debt) then Cut(p.P, FactorOf(p, debt)) else 0.0
  }

  /** What is live after an offset was so before, and has been cut by the common fraction. */
  lemma OffsetLive(p: Pool, q: Pool, debt: nat, coll: nat, initial: nat, snap: Snapshot)
    requires p.P > 0 && CanOffset(p, debt) && Offset(p, debt, coll) == Ok(q) && SnapOk(p, snap)
    ensures SnapOk(q, snap)
    ensures LiveIn(q, snap) ==> LiveFrom(q, initial, snap) == Times(CutOf(p, debt), LiveFrom(p, initial, snap))
    ensures !LiveIn(q, snap) ==> LiveFrom(q, initial, snap) == 0.0
    ensures 0.0 <= LiveFrom(q, initial, snap) <= Times(CutOf(p, debt), LiveFrom(p, initial, snap))
  {
    OffsetHeld(p, debt, coll, initial, snap);
    HeldFromNonneg(p, initial, snap);
    hide HeldFrom, Times, Cut, LossPerUnit, NextP, GainPerUnit, CarriedColl;
    NonnegProduct(CutOf(p, debt), LiveFrom(p, initial, snap));
    assert Times(CutOf(p, debt), 0.0) == 0.0 by { NothingTimes(CutOf(p, debt)); }
  }

  lemma NothingTimes(c: real)
    ensures Times(c, 0.0) == 0.0 && Times(0.0, c) == 0.0
  {
  }

  lemma OffsetKeepsRecords(p: Pool, q: Pool, debt: nat, coll: nat)
    requires CanOffset(p, debt) && Offset(p, debt, coll) == Ok(q)
    ensures q.deposits == p.deposits && q.snapshots == p.snapshots && q.frontEnds == p.frontEnds
  {
  }

  /** A stake that has gone out of reading has taken the deposits recorded before it along. */
  lemma OffsetSilences(p: Pool, q: Pool, debt: nat, coll: nat, f: Address, slack: nat)
    requires Valid(p) && Valid(q) && CanOffset(p, debt) && Offset(p, debt, coll) == Ok(q) && StakeCovers(p, f, slack)
    requires f in p.frontEnds.stakes && !LiveIn(q, p.frontEnds.stakes[f].snap)
    ensures StakeCovers(q, f, slack)
  {
    OffsetKeepsRecords(p, q, debt, coll);
    var snap := p.frontEnds.stakes[f].snap;
    assert SnapOk(p, snap) && SnapOk(q, snap);
    OffsetLive(p, q, debt, coll, p.frontEnds.stakes[f].value, snap);
    hide Offset, LiveFrom;
    forall a ensures LiveUnder(q, f, a) == 0.0 {
      if a in p.deposits && TagOf(p, a) == f {
        assert SnapOk(p, p.snapshots[a]) && SnapOk(q, p.snapshots[a]);
        assert Older(p.snapshots[a], snap);
        OffsetLive(p, q, debt, coll, p.deposits[a], p.snapshots[a]);
      }
    }
    SumZero<Address>(q.deposits.Keys);
    SumSame(q.deposits.Keys, (a: Address) => LiveUnder(q, f, a), (a: Address) => 0.0);
  }

  lemma OffsetTagged(p: Pool, q: Pool, debt: nat, coll: nat, f: Address)
    requires Valid(p) && Valid(q) && CanOffset(p, debt) && Offset(p, debt, coll) == Ok(q)
    ensures LiveTagged(q, f) <= Times(CutOf(p, debt), LiveTagged(p, f))
  {
    OffsetKeepsRecords(p, q, debt, coll);
    var keys := p.deposits.Keys;
    hide Offset, LiveFrom, CutOf, Times;
    NothingTimes(CutOf(p, debt));
    forall a ensures LiveUnder(q, f, a) <= Times(CutOf(p, debt), LiveUnder(p, f, a)) {
      if a in p.deposits && TagOf(p, a) == f {
        assert SnapOk(p, p.snapshots[a]) && SnapOk(q, p.snapshots[a]);
        OffsetLive(p, q, debt, coll, p.deposits[a], p.snapshots[a]);
      }
    }
    SumZero<Address>(keys);
    SumLeqScale(keys, (a: Address) => LiveUnder(q, f, a), (a: Address) => 0.0, (a: Address) => LiveUnder(p, f, a), CutOf(p, debt));
  }

  lemma OffsetCovers(p: Pool, debt: nat, coll: nat, f: Address, slack: nat)
    requires Valid(p) && CanOffset(p, debt) && Offset(p, debt, coll).Ok? && StakeCovers(p, f, slack)
    ensures Valid(Offset(p, debt, coll).pool) && StakeCovers(Offset(p, debt, coll).pool, f, slack)
  {
    OffsetKeepsValid(p, debt, coll);
    var q, cut := Offset(p, debt, coll).pool, CutOf(p, debt);
    OffsetKeepsRecords(p, q, debt, coll);
    if f in p.frontEnds.stakes && !LiveIn(q, p.frontEnds.stakes[f].snap) {
      OffsetSilences(p, q, debt, coll, f, slack);
    } else {
      NothingTimes(cut);
      if f in p.frontEnds.stakes {
        assert SnapOk(p, p.frontEnds.stakes[f].snap);
        OffsetLive(p, q, debt, coll, p.frontEnds.stakes[f].value, p.frontEnds.stakes[f].snap);
      }
      hide Offset, LiveFrom, LiveTagged, CutOf, Times, Valid, Older, LiveIn;
      OffsetTagged(p, q, debt, coll, f);
      SlackSurvives(cut, LiveTagged(p, f), LiveTagged(q, f), LiveStake(p, f), LiveStake(q, f), slack as real);
    }
  }

  lemma SlackSurvives(cut: real, tagged: real, tagged': real, stake: real, stake': real, slack: real)
    requires 0.0 <= cut <= 1.0 && slack >= 0.0
    requires tagged' <= Times(cut, tagged) && stake' == Times(cut, stake) && tagged <= stake + slack
    ensures tagged' <= stake' + slack
  {
    TimesMono(cut, tagged, stake + slack);
    Distribute(cut, stake, slack);
    FirstMono(cut, 1.0, slack);
    OnceTimes(slack);
  }

  lemma OnceTimes(x: real)
    ensures Times(1.0, x) == x
  {
  }

  // ------------------------------------------------------------- whole runs

  lemma RegisterParts(p: Pool, a: Address)
    requires Register(p, a).Ok?
    ensures var q := Register(p, a).pool;
            && q.P == p.P && q.scale == p.scale && q.epoch == p.epoch && q.deposits == p.deposits && q.snapshots == p.snapshots
            && q.frontEnds.tags == p.frontEnds.tags && q.frontEnds.stakes == p.frontEnds.stakes
  {
  }

  lemma SameUnder(p: Pool, q: Pool, f: Address, b: Address)
    requires Valid(p) && Valid(q) && q.P == p.P && q.scale == p.scale && q.epoch == p.epoch
    requires q.deposits == p.deposits && q.snapshots == p.snapshots && q.frontEnds.tags == p.frontEnds.tags && q.frontEnds.stakes == p.frontEnds.stakes
    ensures LiveUnder(q, f, b) == LiveUnder(p, f, b) && LiveStake(q, f) == LiveStake(p, f)
  {
    hide LiveFrom;
    if b in p.deposits {
      assert SnapOk(p, p.snapshots[b]) && SnapOk(q, p.snapshots[b]);
      SameIsLive(p, q, p.deposits[b], p.snapshots[b]);
    }
    if f in p.frontEnds.stakes {
      assert SnapOk(p, p.frontEnds.stakes[f].snap) && SnapOk(q, p.frontEnds.stakes[f].snap);
      SameIsLive(p, q, p.frontEnds.stakes[f].value, p.frontEnds.stakes[f].snap);
    }
  }

  lemma RegisterCovers(p: Pool, a: Address, f: Address, slack: nat)
    requires Valid(p) && Register(p, a).Ok? && StakeCovers(p, f, slack)
    ensures Valid(Register(p, a).pool) && StakeCovers(Register(p, a).pool, f, slack)
  {
    RegisteringChangesNothing(p, a);
    RegisterParts(p, a);
    var q := Register(p, a).pool;
    hide Register, LiveUnder, LiveStake, Valid, Older;
    forall b ensures LiveUnder(q, f, b) == LiveUnder(p, f, b) && LiveStake(q, f) == LiveStake(p, f) {
      SameUnder(p, q, f, b);
    }
    SumSame(p.deposits.Keys, (b: Address) => LiveUnder(q, f, b), (b: Address) => LiveUnder(p, f, b));
  }

  /** What readings of the stake have lost so far. */
  function SlackAfter(p: Pool, op: Op, f: Address, slack: nat): nat
    requires Valid(p)
  {
    slack + if Records(p, op, f) then UnreadStake(p, f) else 0
  }

  lemma NextCovers(p: Pool, op: Op, f: Address, slack: nat)
    requires Valid(p) && StakeCovers(p, f, slack)
    ensures StakeCovers(Next(p, op), f, SlackAfter(p, op, f, slack))
  {
    hide StakeCovers, Valid;
    if Apply(p, op).Ok? {
      if ByDepositor(op) {
        DepositorCovers(p, op, f, slack);
      } else if op.RegisterOp? {
        RegisterCovers(p, op.frontEnd, f, slack);
      } else if CanOffset(p, op.debt) {
        OffsetCovers(p, op.debt, op.coll, f, slack);
      }
    }
  }

  function SlackRun(p: Pool, ops: seq<Op>, f: Address, slack: nat): nat
    requires Valid(p)
    decreases |ops|
  {
    if ops == [] then slack else SlackRun(Next(p, ops[0]), ops[1..], f, SlackAfter(p, ops[0], f, slack))
  }

  lemma {:induction false} RunCovers(p: Pool, ops: seq<Op>, f: Address, slack: nat)
    requires Valid(p) && StakeCovers(p, f, slack)
    ensures StakeCovers(Run(p, ops), f, SlackRun(p, ops, f, slack))
    decreases |ops|
  {
    hide StakeCovers, Valid, SlackAfter, Next;
    if ops != [] {
      NextCovers(p, ops[0], f, slack);
      RunCovers(Next(p, ops[0]), ops[1..], f, SlackAfter(p, ops[0], f, slack));
    }
  }

  lemma {:induction false} TaggedWithinLive(p: Pool, order: seq<Address>, f: Address)
    requires Valid(p) && Distinct(order) && forall i :: 0 <= i < |order| ==> order[i] in p.deposits
    ensures SumTagged(p, order, f) as real <= Sum(Members(order), (a: Address) => LiveUnder(p, f, a))
    decreases |order|
  {
    var live := (a: Address) => LiveUnder(p, f, a);
    if order == [] {
      assert Members(order) == {};
    } else {
      var a, rest := order[0], order[1..];
      LiveBounds(p, f, a);
      TaggedWithinLive(p, rest, f);
      assert Members(order) - {a} == Members(rest);
      SumRemove(Members(order), live, a);
      hide LiveUnder, Compounded;
    }
  }

  lemma GenesisCovers(f: Address)
    ensures StakeCovers(Genesis, f, 0)
  {
  }

  /** In every reachable state the readings under a front end exceed its stake by at most what reading
      that stake has lost: once for each transaction that recorded it, and now. */
  lemma StakeShortfallIsBounded(ops: seq<Op>, order: seq<Address>, f: Address)
    requires Distinct(order) && forall i :: 0 <= i < |order| ==> order[i] in Run(Genesis, ops).deposits
    ensures var p := Run(Genesis, ops);
            SumTagged(p, order, f) <= StakeOf(p, f) + SlackRun(Genesis, ops, f, 0) + UnreadStake(p, f)
  {
    GenesisCovers(f);
    RunCovers(Genesis, ops, f, 0);
    var p := Run(Genesis, ops);
    TaggedWithinLive(p, order, f);
    var live := (a: Address) => LiveUnder(p, f, a);
    forall a: Address ensures live(a) >= 0.0 {
      LiveBounds(p, f, a);
    }
    SumSubset(Members(order), p.deposits.Keys, live);
    StakeLoses(p, f);
    hide LiveUnder, LiveStake, SumTagged, StakeOf, UnreadStake;
  }

  function Larger(p: Pool, f: Address, sofar: nat): (m: nat)
    ensures m >= sofar
  {
    if f in p.frontEnds.stakes && p.frontEnds.stakes[f].value > sofar then p.frontEnds.stakes[f].value else sofar
  }

  /** The largest stake the run records for `f`, at least `sofar`. */
  function StakePeak(p: Pool, ops: seq<Op>, f: Address, sofar: nat): (m: nat)
    requires Valid(p)
    ensures m >= Larger(p, f, sofar)
    decreases |ops|
  {
    if ops == [] then Larger(p, f, sofar) else StakePeak(Next(p, ops[0]), ops[1..], f, Larger(p, f, sofar))
  }

  lemma UnreadMono(x: nat, y: nat)
    requires x <= y
    ensures Unread(x) <= Unread(y)
  {
    DivBounds(y, SCALE_FACTOR);
    QuotientBelow(x, SCALE_FACTOR, y / SCALE_FACTOR + 1);
  }

  lemma UnreadWithin(p: Pool, f: Address, sofar: nat, peak: nat)
    requires peak >= Larger(p, f, sofar)
    ensures UnreadStake(p, f) <= Unread(peak)
  {
    if f in p.frontEnds.stakes {
      UnreadMono(p.frontEnds.stakes[f].value, peak);
    }
  }

  lemma {:induction false} SlackAtMost(p: Pool, ops: seq<Op>, f: Address, slack: nat, sofar: nat)
    requires Valid(p)
    ensures SlackRun(p, ops, f, slack) + UnreadStake(Run(p, ops), f) <= slack + (|ops| + 1) * Unread(StakePeak(p, ops, f, sofar))
    decreases |ops|
  {
    hide Unread, UnreadStake, Next, Records, Larger, Valid;
    var peak := StakePeak(p, ops, f, sofar);
    UnreadWithin(p, f, sofar, peak);
    if ops != [] {
      SlackAtMost(Next(p, ops[0]), ops[1..], f, SlackAfter(p, ops[0], f, slack), Larger(p, f, sofar));
      OneMoreTime(|ops|, Unread(peak));
    }
  }

  lemma OneMoreTime(n: nat, x: nat)
    ensures (n + 1) * x == n * x + x
  {
  }

  /** So a run of `n` transactions can leave a front end short by no more than `n + 1` times one unit, or
      a billionth of the largest stake recorded for it if that is more. */
  lemma StakeShortfallInUnits(ops: seq<Op>, order: seq<Address>, f: Address)
    requires Distinct(order) && forall i :: 0 <= i < |order| ==> order[i] in Run(Genesis, ops).deposits
    ensures var p := Run(Genesis, ops);
            SumTagged(p, order, f) <= StakeOf(p, f) + (|ops| + 1) * Unread(StakePeak(Genesis, ops, f, 0))
  {
    StakeShortfallIsBounded(ops, order, f);
    SlackAtMost(Genesis, ops, f, 0, 0);
  }
}
