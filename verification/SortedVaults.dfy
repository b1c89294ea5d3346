/** The doubly linked list of vault owners kept by `SortedVaults.sol`, sorted by
    nominal collateral ratio (NICR) in descending order and searched from hints.

    The pure part describes a list as the sequence of its ids from head to tail.
    The class is the linked list itself; its ghost field `order` is that sequence. */
module VaultList {

  type Address = nat
  const NULL: Address := 0

  // -------------------------------------------------------------- sequences

  /** The id at position `k`, or NULL past either end. */
  function At(order: seq<Address>, k: int): Address {
    if 0 <= k < |order| then order[k] else NULL
  }

  ghost predicate Distinct(order: seq<Address>) {
    forall i, j :: 0 <= i < j < |order| ==> order[i] != order[j]
  }

  ghost predicate Descending(order: seq<Address>, nicr: Address -> nat) {
    forall i, j :: 0 <= i < j < |order| ==> nicr(order[i]) >= nicr(order[j])
  }

  /** `key` may be inserted before position `k`. */
  ghost predicate Fits(order: seq<Address>, nicr: Address -> nat, key: nat, k: int) {
    && 0 <= k <= |order|
    && (k > 0 ==> nicr(order[k - 1]) >= key)
    && (k < |order| ==> key >= nicr(order[k]))
  }

  /** `prev` and `next` are the neighbours of the gap before position `k`. */
  ghost predicate IsGap(order: seq<Address>, k: int, prev: Address, next: Address) {
    0 <= k <= |order| && prev == At(order, k - 1) && next == At(order, k)
  }

  function InsertAt(order: seq<Address>, k: nat, id: Address): (r: seq<Address>)
    requires k <= |order|
    ensures |r| == |order| + 1
    ensures forall j :: 0 <= j < |r| ==> r[j] == if j < k then order[j] else if j == k then id else order[j - 1]
  {
    order[..k] + [id] + order[k..]
  }

  function Without(order: seq<Address>, id: Address): seq<Address> {
    if order == [] then []
    else if order[0] == id then order[1..]
    else [order[0]] + Without(order[1..], id)
  }

  /** The NICRs of a list, head to tail. */
  function Keys(order: seq<Address>, nicr: Address -> nat): (keys: seq<nat>)
    ensures |keys| == |order|
    ensures forall i :: 0 <= i < |order| ==> keys[i] == nicr(order[i])
  {
    seq(|order|, i requires 0 <= i < |order| => nicr(order[i]))
  }

  /** The NICRs once `id` has been given a new one. */
  function Rekey(nicr: Address -> nat, id: Address, key: nat): Address -> nat {
    a => if a == id then key else nicr(a)
  }

  lemma RestIsDistinct(order: seq<Address>, k: nat)
    requires Distinct(order) && 0 < k < |order|
    ensures Distinct(order[1..]) && order[0] != order[k]
  {
  }

  lemma {:induction false} WithoutAt(order: seq<Address>, k: nat)
    requires Distinct(order) && k < |order|
    ensures Without(order, order[k]) == order[..k] + order[k + 1..]
  {
    if k > 0 {
      RestIsDistinct(order, k);
      hide Distinct;
      WithoutAt(order[1..], k - 1);
      assert order[1..][k - 1] == order[k];
      assert order[..k] == [order[0]] + order[1..][..k - 1];
      assert order[1..][k..] == order[k + 1..];
    }
  }

  /** Taking out the id that was put in gives the list back. */
  lemma InsertThenRemove(order: seq<Address>, k: nat, id: Address)
    requires Distinct(order) && id !in order && k <= |order|
    ensures Distinct(InsertAt(order, k, id))
    ensures Without(InsertAt(order, k, id), id) == order
  {
    var longer := InsertAt(order, k, id);
    forall i, j | 0 <= i < j < |longer| ensures longer[i] != longer[j] {
      var i', j' := if i < k then i else i - 1, if j < k then j else j - 1;
      assert i != k && j != k ==> longer[i] == order[i'] && longer[j] == order[j'];
    }
    WithoutAt(longer, k);
    assert longer[k] == id && longer[..k] + longer[k + 1..] == order;
  }

  /** Putting an id where its NICR fits keeps the list sorted. */
  lemma InsertKeepsDescending(order: seq<Address>, nicr: Address -> nat, k: nat, id: Address, key: nat)
    requires Descending(order, nicr) && id !in order && Fits(order, nicr, key, k)
    ensures Descending(InsertAt(order, k, id), Rekey(nicr, id, key))
  {
  }

  /** Any list, sorted or not, has a gap that fits, from wherever the key is not above its left neighbour. */
  lemma {:induction false} SomeGapFits(order: seq<Address>, nicr: Address -> nat, key: nat, from: nat) returns (k: nat)
    requires from <= |order|
    requires from > 0 ==> nicr(order[from - 1]) >= key
    ensures from <= k && Fits(order, nicr, key, k)
    ensures forall j :: from <= j < k ==> !Fits(order, nicr, key, j)
    decreases |order| - from
  {
    if from == |order| || key >= nicr(order[from]) {
      k := from;
    } else {
      k := SomeGapFits(order, nicr, key, from + 1);
    }
  }

  /** Whichever fitting gap is used, the NICRs along the list come out the same:
      a hinted insertion is as good as an unhinted one. */
  lemma AnyGapGivesTheSameKeys(order: seq<Address>, nicr: Address -> nat, key: nat, id: Address, k1: nat, k2: nat)
    requires Descending(order, nicr) && id !in order
    requires Fits(order, nicr, key, k1) && Fits(order, nicr, key, k2)
    ensures Keys(InsertAt(order, k1, id), Rekey(nicr, id, key)) == Keys(InsertAt(order, k2, id), Rekey(nicr, id, key))
  {
    if k1 > k2 {
      AnyGapGivesTheSameKeys(order, nicr, key, id, k2, k1);
    } else {
      var a, b := InsertAt(order, k1, id), InsertAt(order, k2, id);
      var nicr' := Rekey(nicr, id, key);
      forall i | 0 <= i < |a| ensures nicr'(a[i]) == nicr'(b[i]) {
        if k1 <= i <= k2 && k1 < k2 {
          assert key >= nicr(order[k1]) && nicr(order[k2 - 1]) >= key;
          if i > k1 { assert nicr(order[i - 1]) == key; }
          if i < k2 { assert nicr(order[i]) == key; }
        }
      }
    }
  }

  // ------------------------------------------------------ the linked list

  /** An entry of the `nodes` mapping; an id without an entry reads as three zeros. */
  datatype Node = Node(exists_: bool, nextId: Address, prevId: Address)

  /** How a mutating call ends: `Done`, or the `require` that reverts it. */
  datatype Outcome = Done | ListIsFull | AlreadyContained | IdIsZero | KeyIsZero | NotContained

  /** The gaps a descent from position `start` looks at. */
  predicate InDescent(order: seq<Address>, start: int, k: int) {
    start < k <= |order| || (start == 0 && k == 0)
  }

  /** The gaps an ascent from position `start` looks at. */
  predicate InAscent(order: seq<Address>, start: int, k: int) {
    0 <= k <= start || (start == |order| - 1 && k == |order|)
  }

  /** A descent stops at the first gap in its way that fits, or finds none and returns (0, 0). */
  ghost predicate FirstFit(order: seq<Address>, nicr: Address -> nat, key: nat, start: int, prev: Address, next: Address) {
    || (exists k :: InDescent(order, start, k) && Fits(order, nicr, key, k) && IsGap(order, k, prev, next)
         && forall j :: InDescent(order, start, j) && j < k ==> !Fits(order, nicr, key, j))
    || (prev == next == NULL && forall j :: InDescent(order, start, j) ==> !Fits(order, nicr, key, j))
  }

  /** An ascent stops at the last gap in its way that fits, or finds none and returns (0, 0). */
  ghost predicate LastFit(order: seq<Address>, nicr: Address -> nat, key: nat, start: int, prev: Address, next: Address) {
    || (exists k :: InAscent(order, start, k) && Fits(order, nicr, key, k) && IsGap(order, k, prev, next)
         && forall j :: InAscent(order, start, j) && j > k ==> !Fits(order, nicr, key, j))
    || (prev == next == NULL && forall j :: InAscent(order, start, j) ==> !Fits(order, nicr, key, j))
  }

  ghost predicate NoFitInDescent(order: seq<Address>, nicr: Address -> nat, key: nat, start: int, k: int) {
    forall j :: InDescent(order, start, j) && j < k ==> !Fits(order, nicr, key, j)
  }

  ghost predicate NoFitInAscent(order: seq<Address>, nicr: Address -> nat, key: nat, start: int, k: int) {
    forall j :: InAscent(order, start, j) && j > k ==> !Fits(order, nicr, key, j)
  }

  /** The id at position `k` knows its position and its node points at its neighbours. */
  ghost predicate Linked(nodes: map<Address, Node>, order: seq<Address>, pos: map<Address, nat>, k: int) {
    && 0 <= k < |order|
    && order[k] in pos && pos[order[k]] == k
    && order[k] in nodes && nodes[order[k]] == Node(true, At(order, k + 1), At(order, k - 1))
  }

  ghost predicate Placed(order: seq<Address>, pos: map<Address, nat>, id: Address) {
    id in pos && pos[id] < |order| && order[pos[id]] == id
  }

  /** Every id has its own position and its node points at its neighbours. */
  ghost predicate Represents(nodes: map<Address, Node>, order: seq<Address>, pos: map<Address, nat>) {
    && NULL !in pos && nodes.Keys == pos.Keys
    && (forall id {:trigger Placed(order, pos, id)} :: id in pos ==> Placed(order, pos, id))
    && (forall k :: 0 <= k < |order| ==> Linked(nodes, order, pos, k))
  }

  /** `nodes'` is `nodes` with `id` spliced in between `prev` and `next`. */
  ghost predicate Spliced(nodes: map<Address, Node>, nodes': map<Address, Node>, id: Address, prev: Address, next: Address) {
    && nodes'.Keys == nodes.Keys + {id}
    && nodes'[id] == Node(true, next, prev)
    && (prev in nodes ==> nodes'[prev] == nodes[prev].(nextId := id))
    && (next in nodes ==> nodes'[next] == nodes[next].(prevId := id))
    && (forall a :: a in nodes && a != prev && a != next ==> nodes'[a] == nodes[a])
  }

  function ShiftUp(pos: map<Address, nat>, id: Address, k: nat): map<Address, nat> {
    map a | a in pos.Keys + {id} :: if a == id then k else if pos[a] >= k then pos[a] + 1 else pos[a]
  }

  lemma SpliceLinks(nodes: map<Address, Node>, nodes': map<Address, Node>, order: seq<Address>,
                    pos: map<Address, nat>, k: nat, id: Address, j: nat)
    requires Represents(nodes, order, pos) && id !in pos && id != NULL && k <= |order|
    requires Spliced(nodes, nodes', id, At(order, k - 1), At(order, k)) && j <= |order|
    ensures Linked(nodes', InsertAt(order, k, id), ShiftUp(pos, id, k), j)
  {
    assert 0 < k ==> Linked(nodes, order, pos, k - 1);
    assert k < |order| ==> Linked(nodes, order, pos, k);
    if j != k {
      var i := if j < k then j else j - 1;
      assert Linked(nodes, order, pos, i);
      hide Represents;
      SplicedLink(nodes, nodes', order, pos, k, id, i);
    }
  }

  /** The node at position `i` before, wherever it is afterwards. */
  lemma SplicedLink(nodes: map<Address, Node>, nodes': map<Address, Node>, order: seq<Address>,
                    pos: map<Address, nat>, k: nat, id: Address, i: nat)
    requires id !in pos && id != NULL && k <= |order| && Linked(nodes, order, pos, i) && NULL !in pos
    requires (0 < k ==> Linked(nodes, order, pos, k - 1)) && (k < |order| ==> Linked(nodes, order, pos, k))
    requires Spliced(nodes, nodes', id, At(order, k - 1), At(order, k))
    ensures Linked(nodes', InsertAt(order, k, id), ShiftUp(pos, id, k), if i < k then i else i + 1)
  {
    var order', a := InsertAt(order, k, id), order[i];
    assert a != id;
    if i < k {
      assert At(order', i) == a && At(order', i - 1) == At(order, i - 1);
      assert At(order', i + 1) == if i + 1 == k then id else At(order, i + 1);
    } else {
      assert At(order', i + 1) == a && At(order', i + 2) == At(order, i + 1);
      assert At(order', i) == if i == k then id else At(order, i - 1);
    }
  }

  lemma SpliceRepresents(nodes: map<Address, Node>, nodes': map<Address, Node>, order: seq<Address>,
                         pos: map<Address, nat>, k: nat, id: Address)
    requires Represents(nodes, order, pos) && id !in pos && id != NULL && k <= |order|
    requires Spliced(nodes, nodes', id, At(order, k - 1), At(order, k))
    ensures Represents(nodes', InsertAt(order, k, id), ShiftUp(pos, id, k))
  {
    var order', pos' := InsertAt(order, k, id), ShiftUp(pos, id, k);
    forall j | 0 <= j < |order'| ensures Linked(nodes', order', pos', j) {
      SpliceLinks(nodes, nodes', order, pos, k, id, j);
    }
    forall a | a in pos' ensures Placed(order', pos', a) {
      assert a != id ==> Placed(order, pos, a);
    }
  }

  /** `nodes'` is `nodes` with `id` taken out and its neighbours joined. */
  ghost predicate Unspliced(nodes: map<Address, Node>, nodes': map<Address, Node>, id: Address, prev: Address, next: Address) {
    && nodes'.Keys == nodes.Keys - {id}
    && (prev in nodes' && prev in nodes ==> nodes'[prev] == nodes[prev].(nextId := next))
    && (next in nodes' && next in nodes ==> nodes'[next] == nodes[next].(prevId := prev))
    && (forall a :: a in nodes' && a in nodes && a != prev && a != next ==> nodes'[a] == nodes[a])
  }

  function RemoveAt(order: seq<Address>, k: nat): (r: seq<Address>)
    requires k < |order|
    ensures |r| == |order| - 1
    ensures forall j :: 0 <= j < |r| ==> r[j] == if j < k then order[j] else order[j + 1]
  {
    order[..k] + order[k + 1..]
  }

  function ShiftDown(pos: map<Address, nat>, id: Address, k: nat): map<Address, nat> {
    map a | a in pos.Keys - {id} :: if pos[a] > k then pos[a] - 1 else pos[a]
  }

  lemma UnspliceLinks(nodes: map<Address, Node>, nodes': map<Address, Node>, order: seq<Address>,
                      pos: map<Address, nat>, k: nat, j: nat)
    requires Represents(nodes, order, pos) && k < |order| && j < |order| - 1
    requires nodes'.Keys == nodes.Keys - {order[k]}
    requires Unspliced(nodes, nodes', order[k], At(order, k - 1), At(order, k + 1))
    ensures Linked(nodes', RemoveAt(order, k), ShiftDown(pos, order[k], k), j)
  {
    assert Linked(nodes, order, pos, k);
    assert 0 < k ==> Linked(nodes, order, pos, k - 1);
    assert k + 1 < |order| ==> Linked(nodes, order, pos, k + 1);
    assert Linked(nodes, order, pos, if j < k then j else j + 1);
  }

  lemma UnspliceRepresents(nodes: map<Address, Node>, nodes': map<Address, Node>, order: seq<Address>,
                           pos: map<Address, nat>, k: nat)
    requires Represents(nodes, order, pos) && k < |order|
    requires nodes'.Keys == nodes.Keys - {order[k]}
    requires Unspliced(nodes, nodes', order[k], At(order, k - 1), At(order, k + 1))
    ensures Represents(nodes', RemoveAt(order, k), ShiftDown(pos, order[k], k))
  {
    var order', pos' := RemoveAt(order, k), ShiftDown(pos, order[k], k);
    assert Linked(nodes, order, pos, k);
    forall j | 0 <= j < |order'| ensures Linked(nodes', order', pos', j) {
      UnspliceLinks(nodes, nodes', order, pos, k, j);
    }
    forall a | a in pos' ensures Placed(order', pos', a) {
      assert Placed(order, pos, a);
    }
  }

  lemma NoFitBeyond(order: seq<Address>, nicr: Address -> nat, key: nat, start: int, k: int)
    requires !Fits(order, nicr, key, k)
    ensures NoFitInDescent(order, nicr, key, start, k) ==> NoFitInDescent(order, nicr, key, start, k + 1)
    ensures NoFitInAscent(order, nicr, key, start, k) ==> NoFitInAscent(order, nicr, key, start, k - 1)
  {
  }

  lemma DescentStarts(order: seq<Address>, nicr: Address -> nat, key: nat, start: int)
    requires 0 <= start && (start == 0 ==> !Fits(order, nicr, key, 0))
    ensures NoFitInDescent(order, nicr, key, start, start + 1)
  {
  }

  lemma DescentStops(order: seq<Address>, nicr: Address -> nat, key: nat, start: int, k: int, prev: Address, next: Address)
    requires NoFitInDescent(order, nicr, key, start, k) && 0 <= start < k
    requires (prev == next == NULL && k == |order| + 1) || (Fits(order, nicr, key, k) && IsGap(order, k, prev, next))
    ensures FirstFit(order, nicr, key, start, prev, next)
  {
    if k <= |order| {
      assert InDescent(order, start, k);
    }
  }

  lemma StopsAtHead(order: seq<Address>, nicr: Address -> nat, key: nat, next: Address)
    requires Fits(order, nicr, key, 0) && IsGap(order, 0, NULL, next)
    ensures FirstFit(order, nicr, key, 0, NULL, next)
  {
    assert InDescent(order, 0, 0);
  }

  lemma AscentStarts(order: seq<Address>, nicr: Address -> nat, key: nat, start: int)
    requires start < |order| && (start == |order| - 1 ==> !Fits(order, nicr, key, |order|))
    ensures NoFitInAscent(order, nicr, key, start, start)
  {
  }

  lemma AscentStops(order: seq<Address>, nicr: Address -> nat, key: nat, start: int, k: int, prev: Address, next: Address)
    requires NoFitInAscent(order, nicr, key, start, k) && k <= start
    requires (prev == next == NULL && k == -1) || (Fits(order, nicr, key, k) && IsGap(order, k, prev, next))
    ensures LastFit(order, nicr, key, start, prev, next)
  {
    if 0 <= k {
      assert InAscent(order, start, k);
    }
  }

  lemma StopsAtTail(order: seq<Address>, nicr: Address -> nat, key: nat, prev: Address)
    requires order != [] && Fits(order, nicr, key, |order|) && IsGap(order, |order|, prev, NULL)
    ensures LastFit(order, nicr, key, |order| - 1, prev, NULL)
  {
    assert InAscent(order, |order| - 1, |order|);
  }

  ghost predicate StandsAt(order: seq<Address>, id: Address, at: int) { 0 <= at < |order| && order[at] == id }

  /** Where the search from two hints ends. A hint counts if it is listed and on its side of the key: from such a
      left one the first fitting gap downwards, else from such a right one the last upwards, else the first of all. */
  ghost predicate SearchEnds(order: seq<Address>, nicr: Address -> nat, key: nat,
                             prevHint: Address, nextHint: Address, prev: Address, next: Address) {
    if prevHint in order && nicr(prevHint) >= key
    then exists at :: StandsAt(order, prevHint, at) && FirstFit(order, nicr, key, at, prev, next)
    else if nextHint in order && key >= nicr(nextHint)
    then exists at :: StandsAt(order, nextHint, at) && LastFit(order, nicr, key, at, prev, next)
    else FirstFit(order, nicr, key, 0, prev, next)
  }

  /** `order'` is `order` with `id` in a fitting gap: the hinted one if that is a gap and fits, otherwise where the search ends. */
  ghost predicate Inserted(order: seq<Address>, order': seq<Address>, nicr: Address -> nat, id: Address, key: nat,
                           prevHint: Address, nextHint: Address) {
    exists k, prev, next ::
      && Fits(order, nicr, key, k) && IsGap(order, k, prev, next) && order' == InsertAt(order, k, id)
      && if (exists j :: Fits(order, nicr, key, j) && IsGap(order, j, prevHint, nextHint)) then prev == prevHint && next == nextHint
         else SearchEnds(order, nicr, key, prevHint, nextHint, prev, next)
  }

  lemma EmptySearch(nicr: Address -> nat, key: nat)
    ensures FirstFit([], nicr, key, 0, NULL, NULL)
  {
    assert InDescent([], 0, 0) && Fits([], nicr, key, 0) && IsGap([], 0, NULL, NULL);
  }

  lemma RemoveIsWithout(order: seq<Address>, k: nat)
    requires Distinct(order) && k < |order|
    ensures RemoveAt(order, k) == Without(order, order[k])
  {
    WithoutAt(order, k);
  }

  class SortedVaults {
    var head: Address
    var tail: Address
    var maxSize: nat
    var size: nat
    var nodes: map<Address, Node>
    ghost var order: seq<Address>     // the ids from head to tail
    ghost var pos: map<Address, nat>  // where each id is in `order`

    ghost predicate Valid()
      reads this
    {
      && Represents(nodes, order, pos)
      && size == |order| <= maxSize
      && head == At(order, 0) && tail == At(order, |order| - 1)
    }

    constructor (maxSize: nat)
      requires maxSize > 0
      ensures Valid() && order == [] && this.maxSize == maxSize
    {
      head, tail, this.maxSize, size, nodes, order, pos := NULL, NULL, maxSize, 0, map[], [], map[];
    }

    function NodeAt(id: Address): Node
      reads this
    {
      if id in nodes then nodes[id] else Node(false, NULL, NULL)
    }

    /** Contains exactly the ids of the list. */
    predicate Contains(id: Address)
      reads this
      ensures Valid() ==> (Contains(id) <==> id in pos)
    {
      assert Valid() && id in pos ==> Placed(order, pos, id) && Linked(nodes, order, pos, pos[id]);
      NodeAt(id).exists_
    }

    predicate ValidInsertPosition(nicr: Address -> nat, key: nat, prevId: Address, nextId: Address)
      reads this
    {
      if prevId == NULL && nextId == NULL then size == 0
      else if prevId == NULL then head == nextId && key >= nicr(nextId)
      else if nextId == NULL then tail == prevId && key <= nicr(prevId)
      else NodeAt(prevId).nextId == nextId && nicr(prevId) >= key && key >= nicr(nextId)
    }

    /** The check accepts exactly the pairs of ids that are neighbours across a
        fitting gap, whatever ids are passed. */
    lemma ValidMeansFittingGap(nicr: Address -> nat, key: nat, prevId: Address, nextId: Address)
      requires Valid()
      ensures ValidInsertPosition(nicr, key, prevId, nextId)
              <==> exists k :: Fits(order, nicr, key, k) && IsGap(order, k, prevId, nextId)
    {
      if ValidInsertPosition(nicr, key, prevId, nextId) {
        assert order != [] ==> Linked(nodes, order, pos, 0) && Linked(nodes, order, pos, |order| - 1);
        var k := if prevId == NULL then 0 else pos[prevId] + 1;
        assert k > 0 ==> Placed(order, pos, prevId) && Linked(nodes, order, pos, k - 1);
        assert Fits(order, nicr, key, k) && IsGap(order, k, prevId, nextId);
      }
      forall k | Fits(order, nicr, key, k) && IsGap(order, k, prevId, nextId)
        ensures ValidInsertPosition(nicr, key, prevId, nextId)
      {
        ValidAtGap(nicr, key, k);
      }
    }

    /** At a known gap the check says whether that very gap fits. */
    lemma ValidAtGap(nicr: Address -> nat, key: nat, k: nat)
      requires Valid() && k <= |order|
      ensures ValidInsertPosition(nicr, key, At(order, k - 1), At(order, k)) <==> Fits(order, nicr, key, k)
    {
      assert k > 0 ==> Linked(nodes, order, pos, k - 1);
      assert k < |order| ==> Linked(nodes, order, pos, k);
    }

    lemma LinksAt(k: int)
      requires Valid()
      ensures 0 <= k < |order| ==> Linked(nodes, order, pos, k) && order[k] != NULL
    {
    }

    method DescendList(nicr: Address -> nat, key: nat, startId: Address) returns (prevId: Address, nextId: Address)
      requires Valid()
      requires startId == head || Contains(startId)
      ensures order == [] ==> prevId == nextId == NULL
      ensures startId in pos ==> FirstFit(order, nicr, key, pos[startId], prevId, nextId)
    {
      assert order != [] ==> Linked(nodes, order, pos, 0);
      assert order != [] ==> Placed(order, pos, startId) && Linked(nodes, order, pos, pos[startId]);
      assert startId in pos ==> Placed(order, pos, startId);
      hide FirstFit, NoFitInDescent, InDescent, Represents;
      if head == startId && key >= nicr(startId) {
        if order != [] {
          StopsAtHead(order, nicr, key, startId);
        }
        return NULL, startId;
      }
      prevId := startId;
      nextId := NodeAt(prevId).nextId;
      ghost var start := if order == [] then 0 else pos[startId];
      ghost var k := start + 1;
      if order != [] {
        DescentStarts(order, nicr, key, start);
      }
      while prevId != NULL && !ValidInsertPosition(nicr, key, prevId, nextId)
        invariant start < k <= |order| + 1
        invariant prevId == At(order, k - 1) && nextId == At(order, k)
        invariant order != [] ==> NoFitInDescent(order, nicr, key, start, k)
        decreases |order| + 1 - k
      {
        ValidAtGap(nicr, key, k);
        NoFitBeyond(order, nicr, key, start, k);
        LinksAt(k - 1);
        LinksAt(k);
        prevId := NodeAt(prevId).nextId;
        nextId := NodeAt(prevId).nextId;
        k := k + 1;
      }
      LinksAt(k - 1);
      if prevId != NULL {
        ValidAtGap(nicr, key, k);
      }
      if order != [] {
        DescentStops(order, nicr, key, start, k, prevId, nextId);
      }
    }

    method AscendList(nicr: Address -> nat, key: nat, startId: Address) returns (prevId: Address, nextId: Address)
      requires Valid()
      requires Contains(startId)
      ensures LastFit(order, nicr, key, pos[startId], prevId, nextId)
    {
      assert Placed(order, pos, startId) && Linked(nodes, order, pos, pos[startId]);
      LinksAt(|order| - 1);
      hide LastFit, NoFitInAscent, InAscent, Represents;
      if tail == startId && key <= nicr(startId) {
        StopsAtTail(order, nicr, key, startId);
        return startId, NULL;
      }
      nextId := startId;
      prevId := NodeAt(nextId).prevId;
      ghost var start := pos[startId];
      ghost var k: int := start;
      AscentStarts(order, nicr, key, start);
      while nextId != NULL && !ValidInsertPosition(nicr, key, prevId, nextId)
        invariant -1 <= k <= start
        invariant nextId == At(order, k) && prevId == At(order, k - 1)
        invariant NoFitInAscent(order, nicr, key, start, k)
        decreases k
      {
        ValidAtGap(nicr, key, k);
        NoFitBeyond(order, nicr, key, start, k);
        LinksAt(k);
        LinksAt(k - 1);
        nextId := NodeAt(nextId).prevId;
        prevId := NodeAt(nextId).prevId;
        k := k - 1;
      }
      LinksAt(k);
      if nextId != NULL {
        ValidAtGap(nicr, key, k);
      }
      AscentStops(order, nicr, key, start, k, prevId, nextId);
    }

    /** From any hints - absent, stale, on the wrong side, equal - and whether or not the list is
        sorted, the search ends at neighbours that bracket the key, the first it meets from the hints. */
    method FindInsertPosition(nicr: Address -> nat, key: nat, prevHint: Address, nextHint: Address)
      returns (prevId: Address, nextId: Address)
      requires Valid()
      ensures exists k :: Fits(order, nicr, key, k) && IsGap(order, k, prevId, nextId)
      ensures SearchEnds(order, nicr, key, prevHint, nextHint, prevId, nextId)
    {
      InPosIffInOrder(prevHint);
      InPosIffInOrder(nextHint);
      assert prevHint in pos ==> Placed(order, pos, prevHint) && StandsAt(order, prevHint, pos[prevHint]);
      assert nextHint in pos ==> Placed(order, pos, nextHint) && StandsAt(order, nextHint, pos[nextHint]);
      assert order != [] ==> Linked(nodes, order, pos, 0);
      prevId, nextId := prevHint, nextHint;
      if prevId != NULL {
        if !Contains(prevId) || key > nicr(prevId) {
          prevId := NULL;
        }
      }
      if nextId != NULL {
        if !Contains(nextId) || key < nicr(nextId) {
          nextId := NULL;
        }
      }
      if prevId == NULL && nextId == NULL {
        DescentFinds(nicr, key, 0);
        prevId, nextId := DescendList(nicr, key, head);
        assert order == [] ==> IsGap(order, 0, prevId, nextId);
        EmptySearch(nicr, key);
      } else if prevId == NULL {
        AscentFinds(nicr, key, pos[nextId]);
        prevId, nextId := AscendList(nicr, key, nextId);
      } else {
        DescentFinds(nicr, key, pos[prevId]);
        prevId, nextId := DescendList(nicr, key, prevId);
      }
    }

    lemma DescentFinds(nicr: Address -> nat, key: nat, start: nat)
      requires start <= |order|
      requires start == 0 || (start < |order| && nicr(order[start]) >= key)
      ensures exists k :: InDescent(order, start, k) && Fits(order, nicr, key, k)
    {
      var k := SomeGapFits(order, nicr, key, if start == 0 then 0 else start + 1);
    }

    lemma {:induction false} AscentFinds(nicr: Address -> nat, key: nat, start: nat)
      requires start < |order| && key >= nicr(order[start])
      ensures exists k :: InAscent(order, start, k) && Fits(order, nicr, key, k)
    {
      if start == 0 || nicr(order[start - 1]) >= key {
        assert Fits(order, nicr, key, start);
      } else {
        AscentFinds(nicr, key, start - 1);
        var k :| InAscent(order, start - 1, k) && Fits(order, nicr, key, k);
        assert InAscent(order, start, k);
      }
    }

    lemma InPosIffInOrder(id: Address)
      requires Valid()
      ensures id in pos <==> id in order
    {
      assert id in pos ==> Placed(order, pos, id);
      if id in order {
        var k :| 0 <= k < |order| && order[k] == id;
        assert Linked(nodes, order, pos, k);
      }
    }

    lemma NoDuplicates()
      requires Valid()
      ensures Distinct(order)
    {
      forall i, j | 0 <= i < j < |order| ensures order[i] != order[j] {
        assert Linked(nodes, order, pos, i) && Linked(nodes, order, pos, j);
      }
    }

    /** The pointer surgery of `_insert`, at a gap already found. */
    method Splice(id: Address, prevId: Address, nextId: Address, ghost k: nat)
      returns (links: map<Address, Node>, newHead: Address, newTail: Address)
      requires Valid() && id !in pos && id != NULL && IsGap(order, k, prevId, nextId)
      ensures Spliced(nodes, links, id, prevId, nextId)
      ensures newHead == At(InsertAt(order, k, id), 0) && newTail == At(InsertAt(order, k, id), |order|)
    {
      assert order != [] ==> Linked(nodes, order, pos, 0) && Linked(nodes, order, pos, |order| - 1);
      assert k > 0 ==> Linked(nodes, order, pos, k - 1);
      assert k < |order| ==> Linked(nodes, order, pos, k);
      links, newHead, newTail := nodes[id := Node(true, NULL, NULL)], head, tail;
      if prevId == NULL && nextId == NULL {
        newHead, newTail := id, id;
      } else if prevId == NULL {
        links := links[id := links[id].(nextId := head)];
        links := links[head := links[head].(prevId := id)];
        newHead := id;
      } else if nextId == NULL {
        links := links[id := links[id].(prevId := tail)];
        links := links[tail := links[tail].(nextId := id)];
        newTail := id;
      } else {
        links := links[id := links[id].(nextId := nextId)];
        links := links[id := links[id].(prevId := prevId)];
        links := links[prevId := links[prevId].(nextId := id)];
        links := links[nextId := links[nextId].(prevId := id)];
      }
    }

    method LinkIn(id: Address, prevId: Address, nextId: Address, ghost k: nat)
      requires Valid() && id !in pos && id != NULL && IsGap(order, k, prevId, nextId) && size < maxSize
      modifies this
      ensures Valid() && maxSize == old(maxSize)
      ensures order == InsertAt(old(order), k, id)
    {
      var links, newHead, newTail := Splice(id, prevId, nextId, k);
      SpliceRepresents(nodes, links, order, pos, k, id);
      nodes, head, tail, size := links, newHead, newTail, size + 1;
      order, pos := InsertAt(order, k, id), ShiftUp(pos, id, k);
    }

    /** `_insert`: any reverting `require` leaves the list alone; otherwise the id goes
        into a gap its NICR fits - the hinted one whenever that is valid - and nothing
        else moves, so a sorted list stays sorted. */
    method Insert(nicr: Address -> nat, id: Address, key: nat, prevHint: Address, nextHint: Address) returns (r: Outcome)
      requires Valid()
      modifies this
      ensures Valid() && maxSize == old(maxSize)
      ensures r == if old(size) == maxSize then ListIsFull else if id in old(order) then AlreadyContained
                   else if id == NULL then IdIsZero else if key == 0 then KeyIsZero else Done
      ensures r != Done ==> order == old(order)
      ensures r == Done ==> Inserted(old(order), order, nicr, id, key, prevHint, nextHint)
      ensures r == Done && old(Descending(order, nicr)) ==> Descending(order, Rekey(nicr, id, key))
    {
      InPosIffInOrder(id);
      if size == maxSize { return ListIsFull; }
      if Contains(id) { return AlreadyContained; }
      if id == NULL { return IdIsZero; }
      if key == 0 { return KeyIsZero; }

      var prevId, nextId := prevHint, nextHint;
      ValidMeansFittingGap(nicr, key, prevId, nextId);
      if !ValidInsertPosition(nicr, key, prevId, nextId) {
        prevId, nextId := FindInsertPosition(nicr, key, prevId, nextId);
      }
      ghost var k :| Fits(order, nicr, key, k) && IsGap(order, k, prevId, nextId);
      if Descending(order, nicr) {
        InsertKeepsDescending(order, nicr, k, id, key);
      }
      LinkIn(id, prevId, nextId, k);
      r := Done;
    }

    /** The pointer surgery of `_remove`. */
    method Unsplice(id: Address) returns (links: map<Address, Node>, newHead: Address, newTail: Address)
      requires Valid() && id in pos
      ensures Placed(order, pos, id) && links.Keys == nodes.Keys - {id}
      ensures Unspliced(nodes, links, id, At(order, pos[id] as int - 1), At(order, pos[id] + 1))
      ensures newHead == At(RemoveAt(order, pos[id]), 0) && newTail == At(RemoveAt(order, pos[id]), |order| - 2)
    {
      ghost var k := pos[id];
      assert Placed(order, pos, id) && Linked(nodes, order, pos, k);
      assert Linked(nodes, order, pos, 0) && Linked(nodes, order, pos, |order| - 1);
      assert k > 0 ==> Linked(nodes, order, pos, k - 1);
      assert k + 1 < |order| ==> Linked(nodes, order, pos, k + 1);
      links, newHead, newTail := nodes, head, tail;
      if size > 1 {
        if id == head {
          newHead := links[id].nextId;
          links := links[newHead := links[newHead].(prevId := NULL)];
        } else if id == tail {
          newTail := links[id].prevId;
          links := links[newTail := links[newTail].(nextId := NULL)];
        } else {
          links := links[links[id].prevId := links[links[id].prevId].(nextId := links[id].nextId)];
          links := links[links[id].nextId := links[links[id].nextId].(prevId := links[id].prevId)];
        }
      } else {
        newHead, newTail := NULL, NULL;
      }
      links := links - {id};
    }

    /** The end of `_remove`: the relinked nodes without `id` are stored. */
    method LinkOut(id: Address, links: map<Address, Node>, newHead: Address, newTail: Address)
      requires Valid() && Placed(order, pos, id)
      requires Represents(links, RemoveAt(order, pos[id]), ShiftDown(pos, id, pos[id]))
      requires newHead == At(RemoveAt(order, pos[id]), 0) && newTail == At(RemoveAt(order, pos[id]), |order| - 2)
      modifies this
      ensures Valid() && maxSize == old(maxSize) && order == old(RemoveAt(order, pos[id]))
    {
      hide RemoveAt, ShiftDown, Represents, At, Linked;
      ghost var k := pos[id];
      nodes, head, tail, size := links, newHead, newTail, size - 1;
      order, pos := RemoveAt(order, k), ShiftDown(pos, id, k);
    }

    /** `_remove`: takes out exactly the given id and closes the gap. */
    method Remove(id: Address) returns (r: Outcome)
      requires Valid()
      modifies this
      ensures Valid() && maxSize == old(maxSize)
      ensures r == if id in old(order) then Done else NotContained
      ensures order == if r == Done then Without(old(order), id) else old(order)
    {
      InPosIffInOrder(id);
      if !Contains(id) { return NotContained; }
      NoDuplicates();
      var links, newHead, newTail := Unsplice(id);
      assert order[pos[id]] == id;
      hide Without, RemoveAt, ShiftDown, Represents, Unspliced, Distinct, At, Linked, Placed;
      RemoveIsWithout(order, pos[id]);
      UnspliceRepresents(nodes, links, order, pos, pos[id]);
      LinkOut(id, links, newHead, newTail);
      r := Done;
    }

    /** `reInsert`: only this id moves, into a gap its new NICR fits. The vault's own NICR has
        already changed, so if just the rest of the list is sorted the whole list is afterwards. */
    method ReInsert(nicr: Address -> nat, id: Address, key: nat, prevHint: Address, nextHint: Address) returns (r: Outcome)
      requires Valid()
      modifies this
      ensures Valid() && maxSize == old(maxSize)
      ensures r == if id !in old(order) then NotContained else if key == 0 then KeyIsZero else Done
      ensures r != Done ==> order == old(order)
      ensures r == Done ==> Inserted(Without(old(order), id), order, nicr, id, key, prevHint, nextHint)
      ensures r == Done && old(Descending(Without(order, id), nicr)) ==> Descending(order, Rekey(nicr, id, key))
    {
      InPosIffInOrder(id);
      if !Contains(id) { return NotContained; }
      if key == 0 { return KeyIsZero; }
      NoDuplicates();
      assert Placed(order, pos, id);
      WithoutAt(order, pos[id]);
      assert id !in Without(order, id);
      assert |Without(order, id)| == |order| - 1 && id != NULL;
      r := Remove(id);
      r := Insert(nicr, id, key, prevHint, nextHint);
    }
  }
}
