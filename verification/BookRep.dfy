/** The book's memory seen as one value: two slot pools, the queues and ladders threaded
    through them, the three lookup maps and the two free sets; and when that memory stands
    for a book. */
module BookRep {
  import opened Machine
  import opened Books
  import opened Ladders
  import opened IntrusiveLists

  datatype OrderKey = OrderKey(id: nat, price: int, side: Side)

  datatype LevelKey = LevelKey(price: int, side: Side)

  /** owner is an order's back-pointer: the slot of its price level, or NULL. queue holds each
      level's order slots in FIFO order; bids and asks hold level slots, best first. */
  datatype View = View(
    orders: seq<OrderKey>,
    qty: seq<nat>,
    owner: seq<int>,
    queue: seq<seq<nat>>,
    orderMap: map<nat, nat>,
    orderFree: set<nat>,
    levels: seq<LevelKey>,
    total: seq<nat>,
    bids: seq<nat>,
    asks: seq<nat>,
    bidMap: map<int, nat>,
    askMap: map<int, nat>,
    levelFree: set<nat>)
  {
    function Ladder(side: Side): seq<nat> {
      if side.Bid? then bids else asks
    }

    function WithLadder(side: Side, l: seq<nat>): View {
      if side.Bid? then this.(bids := l) else this.(asks := l)
    }

    function LevelMap(side: Side): map<int, nat> {
      if side.Bid? then bidMap else askMap
    }

    function WithLevelMap(side: Side, m: map<int, nat>): View {
      if side.Bid? then this.(bidMap := m) else this.(askMap := m)
    }

    ghost predicate Sizes() {
      |orders| == |qty| == |owner| && |levels| == |total| == |queue|
    }

    /** The representation invariant. */
    ghost predicate Inv() {
      Sizes() && OrdersOk(this) && TotalsOk(total, qty, queue) && LaddersOk(this)
    }

    /** The book this memory stands for. */
    function Abs(): Book
      requires Sizes()
    {
      Book(LadderValue(levels, orders, qty, queue, bids), LadderValue(levels, orders, qty, queue, asks))
    }
  }

  /** Every order in use is in the queue of the level it points back to and nowhere else;
      a level is free exactly when its queue is empty. */
  ghost predicate QueuesOk(owner: seq<int>, orderFree: set<nat>, queue: seq<seq<nat>>, levelFree: set<nat>) {
    && (forall o :: o in orderFree ==> o < |owner|)
    && (forall j :: j in levelFree ==> j < |queue|)
    && (forall j :: 0 <= j < |queue| ==> (j in levelFree <==> queue[j] == []))
    && (forall j, k :: 0 <= j < |queue| && 0 <= k < |queue[j]| ==>
          queue[j][k] < |owner| && queue[j][k] !in orderFree && owner[queue[j][k]] == j)
    && (forall o :: 0 <= o < |owner| && o !in orderFree ==> 0 <= owner[o] < |queue| && o in queue[owner[o]])
    && (forall j :: 0 <= j < |queue| ==> NoRepeat(queue[j]))
  }

  /** The order map holds exactly the orders in use, under their ids. */
  ghost predicate OrderMapOk(orders: seq<OrderKey>, orderFree: set<nat>, orderMap: map<nat, nat>) {
    && (forall id :: id in orderMap ==>
          orderMap[id] < |orders| && orderMap[id] !in orderFree && orders[orderMap[id]].id == id)
    && (forall o :: 0 <= o < |orders| && o !in orderFree ==>
          orders[o].id in orderMap && orderMap[orders[o].id] == o)
  }

  /** An order and its level agree on price and side. */
  ghost predicate KeysOk(orders: seq<OrderKey>, owner: seq<int>, orderFree: set<nat>, levels: seq<LevelKey>)
    requires |orders| == |owner|
  {
    forall o :: 0 <= o < |orders| && o !in orderFree ==>
                  0 <= owner[o] < |levels| && levels[owner[o]] == LevelKey(orders[o].price, orders[o].side)
  }

  /** Sum of the quantities in a queue of order slots. */
  function QtySum(qty: seq<nat>, q: seq<nat>): nat {
    if q == [] then 0
    else (if q[|q| - 1] < |qty| then qty[q[|q| - 1]] else 0) + QtySum(qty, q[..|q| - 1])
  }

  /** A level's total is the sum of its orders' quantities modulo 2^32. */
  ghost predicate TotalsOk(total: seq<nat>, qty: seq<nat>, queue: seq<seq<nat>>)
    requires |total| == |queue|
  {
    forall j :: 0 <= j < |queue| && queue[j] != [] ==> total[j] == QtySum(qty, queue[j]) % U32
  }

  /** A ladder lists exactly the levels in use on its side, each once. */
  ghost predicate LadderOk(levels: seq<LevelKey>, levelFree: set<nat>, side: Side, ladder: seq<nat>) {
    && (forall i :: 0 <= i < |ladder| ==>
          ladder[i] < |levels| && ladder[i] !in levelFree && levels[ladder[i]].side == side)
    && (forall j :: 0 <= j < |levels| && j !in levelFree && levels[j].side == side ==> j in ladder)
    && NoRepeat(ladder)
  }

  /** A level map agrees with the levels in use on its side. */
  ghost predicate LevelMapOk(levels: seq<LevelKey>, levelFree: set<nat>, side: Side, m: map<int, nat>) {
    && (forall p :: p in m ==> m[p] < |levels| && m[p] !in levelFree && levels[m[p]] == LevelKey(p, side))
    && (forall j :: 0 <= j < |levels| && j !in levelFree && levels[j].side == side ==>
          levels[j].price in m && m[levels[j].price] == j)
  }

  function QueueValue(orders: seq<OrderKey>, qty: seq<nat>, q: seq<nat>): seq<Order>
    requires |orders| == |qty|
  {
    seq(|q|, k requires 0 <= k < |q| => if q[k] < |qty| then Order(orders[q[k]].id, qty[q[k]]) else Order(0, 0))
  }

  function LevelValue(levels: seq<LevelKey>, orders: seq<OrderKey>, qty: seq<nat>, queue: seq<seq<nat>>, j: nat): Level
    requires |orders| == |qty| && |levels| == |queue|
  {
    if j < |levels| then Level(levels[j].price, QueueValue(orders, qty, queue[j])) else Level(0, [])
  }

  function LadderValue(levels: seq<LevelKey>, orders: seq<OrderKey>, qty: seq<nat>, queue: seq<seq<nat>>,
                       ladder: seq<nat>): seq<Level>
    requires |orders| == |qty| && |levels| == |queue|
  {
    seq(|ladder|, i requires 0 <= i < |ladder| => LevelValue(levels, orders, qty, queue, ladder[i]))
  }

  // ---------------------------------------------------------------------------
  // Sums
  // ---------------------------------------------------------------------------

  lemma {:induction false} QtySumUntouched(a: seq<nat>, b: seq<nat>, q: seq<nat>)
    requires |a| == |b|
    requires forall k :: 0 <= k < |q| && q[k] < |a| ==> a[q[k]] == b[q[k]]
    ensures QtySum(a, q) == QtySum(b, q)
  {
    if q != [] {
      QtySumUntouched(a, b, q[..|q| - 1]);
    }
  }

  lemma {:induction false} QtySumSnoc(a: seq<nat>, q: seq<nat>, o: nat)
    requires o < |a|
    ensures QtySum(a, q + [o]) == QtySum(a, q) + a[o]
  {
    assert (q + [o])[..|q|] == q;
  }

  lemma {:induction false} QtySumRemove(a: seq<nat>, q: seq<nat>, k: nat)
    requires k < |q| && q[k] < |a|
    ensures QtySum(a, q) == QtySum(a, RemoveAt(q, k)) + a[q[k]]
  {
    var n := |q| - 1;
    var r := RemoveAt(q, k);
    if k == n {
      assert r == q[..n];
    } else {
      QtySumRemove(a, q[..n], k);
      assert r[..|r| - 1] == RemoveAt(q[..n], k) && r[|r| - 1] == q[n];
    }
  }

  lemma {:induction false} QtySumResize(a: seq<nat>, q: seq<nat>, k: nat, qty: nat)
    requires k < |q| && q[k] < |a| && NoRepeat(q)
    ensures QtySum(a[q[k] := qty], q) == QtySum(a, q) - a[q[k]] + qty
  {
    var n := |q| - 1;
    if k == n {
      QtySumUntouched(a, a[q[k] := qty], q[..n]);
    } else {
      QtySumResize(a, q[..n], k, qty);
    }
  }

  // ---------------------------------------------------------------------------
  // Values
  // ---------------------------------------------------------------------------

  /** Slots in q carry the same id and quantity in both memories. */
  ghost predicate Agree(orders: seq<OrderKey>, qty: seq<nat>, orders': seq<OrderKey>, qty': seq<nat>, q: seq<nat>)
    requires |orders| == |qty| == |orders'| == |qty'|
  {
    forall k :: 0 <= k < |q| && q[k] < |qty| ==> orders[q[k]].id == orders'[q[k]].id && qty[q[k]] == qty'[q[k]]
  }

  /** A ladder whose levels all keep their price, queue and orders keeps its value. */
  lemma {:induction false} LadderUntouched(levels: seq<LevelKey>, orders: seq<OrderKey>, qty: seq<nat>, queue: seq<seq<nat>>,
                                           levels': seq<LevelKey>, orders': seq<OrderKey>, qty': seq<nat>,
                                           queue': seq<seq<nat>>, ladder: seq<nat>)
    requires |orders| == |qty| == |orders'| == |qty'| && |levels| == |queue| == |levels'| == |queue'|
    requires forall i :: 0 <= i < |ladder| ==>
               && ladder[i] < |levels| && levels'[ladder[i]].price == levels[ladder[i]].price
               && queue'[ladder[i]] == queue[ladder[i]] && Agree(orders, qty, orders', qty', queue[ladder[i]])
    ensures LadderValue(levels', orders', qty', queue', ladder) == LadderValue(levels, orders, qty, queue, ladder)
  {
    forall i | 0 <= i < |ladder|
      ensures LevelValue(levels', orders', qty', queue', ladder[i]) == LevelValue(levels, orders, qty, queue, ladder[i])
    {
      assert QueueValue(orders', qty', queue[ladder[i]]) == QueueValue(orders, qty, queue[ladder[i]]);
    }
  }

  /** ... and when only the level at position i changes, only that entry changes. */
  lemma {:induction false} LadderTouched(levels: seq<LevelKey>, orders: seq<OrderKey>, qty: seq<nat>, queue: seq<seq<nat>>,
                                         orders': seq<OrderKey>, qty': seq<nat>, queue': seq<seq<nat>>,
                                         ladder: seq<nat>, i: nat)
    requires |orders| == |qty| == |orders'| == |qty'| && |levels| == |queue| == |queue'|
    requires i < |ladder| && NoRepeat(ladder)
    requires forall k :: 0 <= k < |ladder| && ladder[k] != ladder[i] ==>
               && ladder[k] < |levels|
               && queue'[ladder[k]] == queue[ladder[k]] && Agree(orders, qty, orders', qty', queue[ladder[k]])
    ensures LadderValue(levels, orders', qty', queue', ladder) ==
            LadderValue(levels, orders, qty, queue, ladder)[i := LevelValue(levels, orders', qty', queue', ladder[i])]
  {
    forall k | 0 <= k < |ladder| && k != i
      ensures LevelValue(levels, orders', qty', queue', ladder[k]) == LevelValue(levels, orders, qty, queue, ladder[k])
    {
      assert ladder[k] != ladder[i];
      assert QueueValue(orders', qty', queue[ladder[k]]) == QueueValue(orders, qty, queue[ladder[k]]);
    }
  }

  // ---------------------------------------------------------------------------
  // Joining the back of a level
  // ---------------------------------------------------------------------------

  /** Free order slot o takes the key, quantity and back-pointer and joins level slot j. */
  function Append(v: View, o: nat, key: OrderKey, q: nat, j: nat): View
    requires v.Sizes() && o < |v.orders| && j < |v.levels|
  {
    v.(orders := v.orders[o := key], qty := v.qty[o := q], owner := v.owner[o := j],
       queue := v.queue[j := v.queue[j] + [o]], total := v.total[j := Wrap32(v.total[j] + q)],
       orderMap := v.orderMap[key.id := o], orderFree := v.orderFree - {o}, levelFree := v.levelFree - {j})
  }

  lemma {:induction false} AppendQueues(owner: seq<int>, free: set<nat>, queue: seq<seq<nat>>, levelFree: set<nat>, o: nat, j: nat)
    requires QueuesOk(owner, free, queue, levelFree)
    requires o in free && j < |queue|
    ensures QueuesOk(owner[o := j], free - {o}, queue[j := queue[j] + [o]], levelFree - {j})
    ensures forall i :: 0 <= i < |queue| ==> o !in queue[i]
  {
    var queue', owner' := queue[j := queue[j] + [o]], owner[o := j];
    forall p | 0 <= p < |owner'| && p !in free - {o}
      ensures 0 <= owner'[p] < |queue'| && p in queue'[owner'[p]]
    {
      if p == o {
        assert queue'[j][|queue[j]|] == o;
      } else {
        assert p in queue[owner[p]];
      }
    }
    assert o !in queue[j];
  }

  lemma {:induction false} AppendTotals(total: seq<nat>, qty: seq<nat>, queue: seq<seq<nat>>, o: nat, q: nat, j: nat)
    requires |total| == |queue| && o < |qty| && j < |queue|
    requires TotalsOk(total, qty, queue) && total[j] == QtySum(qty, queue[j]) % U32
    requires forall i :: 0 <= i < |queue| ==> o !in queue[i]
    ensures TotalsOk(total[j := Wrap32(total[j] + q)], qty[o := q], queue[j := queue[j] + [o]])
  {
    forall i | 0 <= i < |queue|
      ensures QtySum(qty[o := q], queue[i]) == QtySum(qty, queue[i])
    {
      QtySumUntouched(qty, qty[o := q], queue[i]);
    }
    QtySumSnoc(qty[o := q], queue[j], o);
  }

  lemma {:induction false} AddOrderMap(orders: seq<OrderKey>, free: set<nat>, m: map<nat, nat>, o: nat, key: OrderKey)
    requires OrderMapOk(orders, free, m) && o in free && o < |orders| && key.id !in m
    ensures OrderMapOk(orders[o := key], free - {o}, m[key.id := o])
  {
  }

  lemma {:induction false} AddKeys(orders: seq<OrderKey>, owner: seq<int>, free: set<nat>, levels: seq<LevelKey>,
                                   o: nat, key: OrderKey, j: nat)
    requires |orders| == |owner| && KeysOk(orders, owner, free, levels) && o < |orders|
    requires j < |levels| && levels[j] == LevelKey(key.price, key.side)
    ensures KeysOk(orders[o := key], owner[o := j], free - {o}, levels)
  {
  }

  /** The part of the invariant that concerns orders and queues. */
  ghost predicate OrdersOk(v: View) {
    && v.Sizes()
    && QueuesOk(v.owner, v.orderFree, v.queue, v.levelFree)
    && OrderMapOk(v.orders, v.orderFree, v.orderMap)
    && KeysOk(v.orders, v.owner, v.orderFree, v.levels)
  }

  /** The part that concerns ladders and level maps. */
  ghost predicate LaddersOk(v: View) {
    && LadderOk(v.levels, v.levelFree, Bid, v.bids) && LadderOk(v.levels, v.levelFree, Ask, v.asks)
    && LevelMapOk(v.levels, v.levelFree, Bid, v.bidMap) && LevelMapOk(v.levels, v.levelFree, Ask, v.askMap)
  }

  lemma {:induction false} AppendOrders(v: View, o: nat, key: OrderKey, q: nat, j: nat)
    requires OrdersOk(v) && o in v.orderFree && j < |v.levels|
    requires key.id !in v.orderMap && v.levels[j] == LevelKey(key.price, key.side)
    ensures OrdersOk(Append(v, o, key, q, j))
    ensures forall i :: 0 <= i < |v.queue| ==> o !in v.queue[i]
  {
    AppendQueues(v.owner, v.orderFree, v.queue, v.levelFree, o, j);
    AddOrderMap(v.orders, v.orderFree, v.orderMap, o, key);
    AddKeys(v.orders, v.owner, v.orderFree, v.levels, o, key, j);
  }

  lemma {:induction false} AppendSums(v: View, o: nat, key: OrderKey, q: nat, j: nat)
    requires v.Sizes() && o < |v.orders| && j < |v.levels|
    requires TotalsOk(v.total, v.qty, v.queue) && v.total[j] == QtySum(v.qty, v.queue[j]) % U32
    requires forall i :: 0 <= i < |v.queue| ==> o !in v.queue[i]
    ensures var w := Append(v, o, key, q, j); TotalsOk(w.total, w.qty, w.queue)
  {
    AppendTotals(v.total, v.qty, v.queue, o, q, j);
  }

  lemma {:induction false} AppendInv(v: View, o: nat, key: OrderKey, q: nat, j: nat)
    requires v.Inv() && o in v.orderFree && j < |v.levels| && j !in v.levelFree
    requires key.id !in v.orderMap && v.levels[j] == LevelKey(key.price, key.side)
    ensures Append(v, o, key, q, j).Inv()
  {
    var w := Append(v, o, key, q, j);
    AppendOrders(v, o, key, q, j);
    AppendSums(v, o, key, q, j);
    assert w.levelFree == v.levelFree;
  }

  lemma {:induction false} AppendLadders(v: View, o: nat, key: OrderKey, q: nat, j: nat, ladder: seq<nat>)
    requires v.Sizes() && o < |v.orders| && j < |v.levels|
    requires forall i :: 0 <= i < |v.queue| ==> o !in v.queue[i]
    requires forall i :: 0 <= i < |ladder| ==> ladder[i] < |v.levels|
    requires NoRepeat(ladder)
    ensures var w := Append(v, o, key, q, j);
            var L := LadderValue(v.levels, v.orders, v.qty, v.queue, ladder);
            var L' := LadderValue(w.levels, w.orders, w.qty, w.queue, ladder);
            && (j !in ladder ==> L' == L)
            && (forall i :: 0 <= i < |ladder| && ladder[i] == j ==>
                  L' == L[i := L[i].(orders := L[i].orders + [Order(key.id, q)])])
  {
    var w := Append(v, o, key, q, j);
    if j !in ladder {
      LadderUntouched(v.levels, v.orders, v.qty, v.queue, w.levels, w.orders, w.qty, w.queue, ladder);
      return;
    }
    forall i | 0 <= i < |ladder| && ladder[i] == j
      ensures var L := LadderValue(v.levels, v.orders, v.qty, v.queue, ladder);
              LadderValue(w.levels, w.orders, w.qty, w.queue, ladder) ==
              L[i := L[i].(orders := L[i].orders + [Order(key.id, q)])]
    {
      LadderTouched(v.levels, v.orders, v.qty, v.queue, w.orders, w.qty, w.queue, ladder, i);
      assert QueueValue(w.orders, w.qty, w.queue[j]) == QueueValue(v.orders, v.qty, v.queue[j]) + [Order(key.id, q)];
    }
  }

  /** An order that finds its level joins the back of it. */
  lemma {:induction false} AppendAbs(v: View, o: nat, key: OrderKey, q: nat, j: nat)
    requires v.Inv() && o in v.orderFree && j < |v.levels| && j !in v.levelFree
    requires v.levels[j] == LevelKey(key.price, key.side)
    requires Sorted(key.side, v.Abs().Ladder(key.side))
    ensures Append(v, o, key, q, j).Abs() ==
            v.Abs().WithLadder(key.side, Rest(key.side, v.Abs().Ladder(key.side), key.price, Order(key.id, q)))
  {
    AppendQueues(v.owner, v.orderFree, v.queue, v.levelFree, o, j);
    AppendLadders(v, o, key, q, j, v.bids);
    AppendLadders(v, o, key, q, j, v.asks);
    var ladder := v.Ladder(key.side);
    var i :| 0 <= i < |ladder| && ladder[i] == j;
    RestAtLevel(key.side, v.Abs().Ladder(key.side), i, Order(key.id, q));
  }

  // ---------------------------------------------------------------------------
  // Opening a level
  // ---------------------------------------------------------------------------

  /** Free level slot j takes a price and side, enters its map and sits at place k of its ladder. */
  function Place(v: View, j: nat, price: int, side: Side, k: nat): View
    requires v.Sizes() && j < |v.levels| && k <= |v.Ladder(side)|
  {
    v.(levels := v.levels[j := LevelKey(price, side)], total := v.total[j := 0])
    .WithLadder(side, InsertAt(v.Ladder(side), k, j))
    .WithLevelMap(side, v.LevelMap(side)[price := j])
  }

  /** A new level together with its first order. */
  function Open(v: View, o: nat, key: OrderKey, q: nat, j: nat, k: nat): View
    requires v.Sizes() && o < |v.orders| && j < |v.levels| && k <= |v.Ladder(key.side)|
  {
    Append(Place(v, j, key.price, key.side, k), o, key, q, j)
  }

  lemma {:induction false} PlaceLadder(levels: seq<LevelKey>, free: set<nat>, side: Side, ladder: seq<nat>, j: nat, p: int, k: nat)
    requires LadderOk(levels, free, side, ladder) && j in free && j < |levels| && k <= |ladder|
    ensures LadderOk(levels[j := LevelKey(p, side)], free - {j}, side, InsertAt(ladder, k, j))
  {
    InsertNoRepeat(ladder, k, j);
    InsertMembers(ladder, k, j);
    var l := InsertAt(ladder, k, j);
    forall i | 0 <= i < |l|
      ensures l[i] == j || (l[i] in ladder && l[i] != j)
    {
      assert l[i] in l;
    }
  }

  lemma {:induction false} PlaceLadderOther(levels: seq<LevelKey>, free: set<nat>, side: Side, ladder: seq<nat>, j: nat, key: LevelKey)
    requires LadderOk(levels, free, side, ladder) && j in free && j < |levels| && key.side != side
    ensures LadderOk(levels[j := key], free - {j}, side, ladder)
  {
  }

  lemma {:induction false} PlaceMap(levels: seq<LevelKey>, free: set<nat>, side: Side, m: map<int, nat>, j: nat, p: int)
    requires LevelMapOk(levels, free, side, m) && j in free && j < |levels| && p !in m
    ensures LevelMapOk(levels[j := LevelKey(p, side)], free - {j}, side, m[p := j])
  {
  }

  lemma {:induction false} PlaceMapOther(levels: seq<LevelKey>, free: set<nat>, side: Side, m: map<int, nat>, j: nat, key: LevelKey)
    requires LevelMapOk(levels, free, side, m) && j in free && j < |levels| && key.side != side
    ensures LevelMapOk(levels[j := key], free - {j}, side, m)
  {
  }

  lemma {:induction false} OpenLadders(v: View, o: nat, key: OrderKey, q: nat, j: nat, k: nat)
    requires v.Sizes() && o < |v.orders| && LaddersOk(v)
    requires j < |v.levels| && j in v.levelFree && k <= |v.Ladder(key.side)| && key.price !in v.LevelMap(key.side)
    ensures LaddersOk(Open(v, o, key, q, j, k))
  {
    var side, other := key.side, Opposite(key.side);
    PlaceLadder(v.levels, v.levelFree, side, v.Ladder(side), j, key.price, k);
    PlaceLadderOther(v.levels, v.levelFree, other, v.Ladder(other), j, LevelKey(key.price, side));
    PlaceMap(v.levels, v.levelFree, side, v.LevelMap(side), j, key.price);
    PlaceMapOther(v.levels, v.levelFree, other, v.LevelMap(other), j, LevelKey(key.price, side));
  }

  lemma {:induction false} PlaceKeys(v: View, j: nat, key: LevelKey)
    requires OrdersOk(v) && j < |v.levels| && j in v.levelFree
    ensures KeysOk(v.orders, v.owner, v.orderFree, v.levels[j := key])
  {
    forall o | 0 <= o < |v.orders| && o !in v.orderFree
      ensures v.owner[o] != j
    {
      assert o in v.queue[v.owner[o]];
    }
  }

  lemma {:induction false} OpenOrders(v: View, o: nat, key: OrderKey, q: nat, j: nat, k: nat)
    requires OrdersOk(v) && o in v.orderFree && key.id !in v.orderMap
    requires j < |v.levels| && j in v.levelFree && k <= |v.Ladder(key.side)|
    ensures OrdersOk(Open(v, o, key, q, j, k))
    ensures forall i :: 0 <= i < |v.queue| ==> o !in v.queue[i]
  {
    PlaceKeys(v, j, LevelKey(key.price, key.side));
    AppendOrders(Place(v, j, key.price, key.side, k), o, key, q, j);
  }

  lemma {:induction false} OpenSums(v: View, o: nat, key: OrderKey, q: nat, j: nat, k: nat)
    requires v.Sizes() && o < |v.orders| && TotalsOk(v.total, v.qty, v.queue)
    requires j < |v.levels| && v.queue[j] == [] && k <= |v.Ladder(key.side)|
    requires forall i :: 0 <= i < |v.queue| ==> o !in v.queue[i]
    ensures var w := Open(v, o, key, q, j, k); TotalsOk(w.total, w.qty, w.queue)
  {
    AppendSums(Place(v, j, key.price, key.side, k), o, key, q, j);
  }

  lemma {:induction false} OpenInv(v: View, o: nat, key: OrderKey, q: nat, j: nat, k: nat)
    requires v.Inv() && o in v.orderFree && key.id !in v.orderMap
    requires j in v.levelFree && k <= |v.Ladder(key.side)| && key.price !in v.LevelMap(key.side)
    ensures Open(v, o, key, q, j, k).Inv()
  {
    OpenOrders(v, o, key, q, j, k);
    OpenLadders(v, o, key, q, j, k);
    OpenSums(v, o, key, q, j, k);
  }

  /** Place k of a ladder is where level j ranks: nothing before it is beaten by j's price,
      and what stands at k is. */
  ghost predicate RanksAt(levels: seq<LevelKey>, side: Side, ladder: seq<nat>, j: nat, k: nat) {
    && j < |levels| && k <= |ladder|
    && (forall n :: 0 <= n < |ladder| ==> ladder[n] < |levels|)
    && (forall n :: 0 <= n < k ==> !Better(side, levels[j].price, levels[ladder[n]].price))
    && (k < |ladder| ==> Better(side, levels[j].price, levels[ladder[k]].price))
  }

  lemma {:induction false} InsertLadderValue(levels: seq<LevelKey>, orders: seq<OrderKey>, qty: seq<nat>,
                                             queue: seq<seq<nat>>, ladder: seq<nat>, k: nat, j: nat)
    requires |orders| == |qty| && |levels| == |queue| && k <= |ladder|
    ensures var L := LadderValue(levels, orders, qty, queue, ladder);
            LadderValue(levels, orders, qty, queue, InsertAt(ladder, k, j)) ==
            L[..k] + [LevelValue(levels, orders, qty, queue, j)] + L[k..]
  {
  }

  /** Ladder entries are real slots other than j. */
  ghost predicate Avoids(ladder: seq<nat>, n: nat, j: nat) {
    forall i :: 0 <= i < |ladder| ==> ladder[i] < n && ladder[i] != j
  }

  lemma {:induction false} OpenValues(v: View, o: nat, key: OrderKey, q: nat, j: nat, k: nat)
    requires v.Sizes() && o < |v.orders| && j < |v.levels| && v.queue[j] == [] && k <= |v.Ladder(key.side)|
    requires forall i :: 0 <= i < |v.queue| ==> o !in v.queue[i]
    requires Avoids(v.bids, |v.levels|, j) && Avoids(v.asks, |v.levels|, j)
    ensures var L := v.Abs().Ladder(key.side);
            Open(v, o, key, q, j, k).Abs() ==
            v.Abs().WithLadder(key.side, L[..k] + [Level(key.price, [Order(key.id, q)])] + L[k..])
  {
    var w := Open(v, o, key, q, j, k);
    LadderUntouched(v.levels, v.orders, v.qty, v.queue, w.levels, w.orders, w.qty, w.queue, v.bids);
    LadderUntouched(v.levels, v.orders, v.qty, v.queue, w.levels, w.orders, w.qty, w.queue, v.asks);
    InsertLadderValue(w.levels, w.orders, w.qty, w.queue, v.Ladder(key.side), k, j);
    assert w.queue[j] == [o];
    assert QueueValue(w.orders, w.qty, [o]) == [Order(key.id, q)];
  }

  /** An order that finds no level at its price opens one at the place its price ranks. */
  lemma {:induction false} OpenAbs(v: View, o: nat, key: OrderKey, q: nat, j: nat, k: nat)
    requires v.Inv() && o in v.orderFree && j in v.levelFree && k <= |v.Ladder(key.side)|
    requires Sorted(key.side, v.Abs().Ladder(key.side))
    requires forall i :: 0 <= i < k ==> Better(key.side, v.Abs().Ladder(key.side)[i].price, key.price)
    requires k < |v.Ladder(key.side)| ==> Better(key.side, key.price, v.Abs().Ladder(key.side)[k].price)
    ensures Open(v, o, key, q, j, k).Abs() ==
            v.Abs().WithLadder(key.side, Rest(key.side, v.Abs().Ladder(key.side), key.price, Order(key.id, q)))
  {
    AppendQueues(v.owner, v.orderFree, v.queue, v.levelFree, o, j);
    OpenValues(v, o, key, q, j, k);
    RestAtGap(key.side, v.Abs().Ladder(key.side), k, key.price, Order(key.id, q));
  }

  // ---------------------------------------------------------------------------
  // Taking an order out
  // ---------------------------------------------------------------------------

  /** Order slot o leaves place k of level j's queue and goes back to the pool. */
  function Detach(v: View, o: nat, j: nat, k: nat): View
    requires v.Sizes() && o < |v.orders| && j < |v.levels| && k < |v.queue[j]|
  {
    v.(owner := v.owner[o := NULL], queue := v.queue[j := RemoveAt(v.queue[j], k)],
       total := v.total[j := Sub32(v.total[j], v.qty[o])],
       orderMap := v.orderMap - {v.orders[o].id}, orderFree := v.orderFree + {o})
  }

  /** Level slot j leaves place i of its ladder, its map entry goes, and the slot is free. */
  function Retire(v: View, j: nat, i: nat): View
    requires v.Sizes() && j < |v.levels| && i < |v.Ladder(v.levels[j].side)|
  {
    var side := v.levels[j].side;
    v.WithLadder(side, RemoveAt(v.Ladder(side), i))
    .WithLevelMap(side, v.LevelMap(side) - {v.levels[j].price})
    .(levelFree := v.levelFree + {j})
  }

  /** A level emptied by the removal is retired with it. */
  function Drop(v: View, o: nat, j: nat, k: nat, i: nat): View
    requires v.Sizes() && o < |v.orders| && j < |v.levels| && k < |v.queue[j]| && i < |v.Ladder(v.levels[j].side)|
  {
    if |v.queue[j]| == 1 then Retire(Detach(v, o, j, k), j, i) else Detach(v, o, j, k)
  }

  lemma {:induction false} DetachQueues(owner: seq<int>, free: set<nat>, queue: seq<seq<nat>>, levelFree: set<nat>, j: nat, k: nat)
    requires QueuesOk(owner, free, queue, levelFree)
    requires j < |queue| && k < |queue[j]|
    ensures var o, q := queue[j][k], RemoveAt(queue[j], k);
            && o < |owner|
            && QueuesOk(owner[o := NULL], free + {o}, queue[j := q], if q == [] then levelFree + {j} else levelFree)
  {
    var o, q := queue[j][k], RemoveAt(queue[j], k);
    RemoveNoRepeat(queue[j], k);
    RemoveMembers(queue[j], k);
    var queue', owner' := queue[j := q], owner[o := NULL];
    forall i, n | 0 <= i < |queue'| && 0 <= n < |queue'[i]|
      ensures queue'[i][n] < |owner| && queue'[i][n] !in free + {o} && owner'[queue'[i][n]] == i
    {
      assert queue'[i][n] in queue'[i];
      assert queue'[i][n] in queue[i];
      assert queue'[i][n] != o;
    }
  }

  lemma {:induction false} DetachOrderMap(orders: seq<OrderKey>, free: set<nat>, m: map<nat, nat>, o: nat)
    requires OrderMapOk(orders, free, m) && o !in free && o < |orders|
    ensures OrderMapOk(orders, free + {o}, m - {orders[o].id})
  {
  }

  lemma {:induction false} DetachOrders(v: View, j: nat, k: nat)
    requires OrdersOk(v) && j < |v.levels| && k < |v.queue[j]|
    ensures v.queue[j][k] < |v.orders|
    ensures OrdersOk(Detach(v, v.queue[j][k], j, k)
                     .(levelFree := if |v.queue[j]| == 1 then v.levelFree + {j} else v.levelFree))
  {
    DetachQueues(v.owner, v.orderFree, v.queue, v.levelFree, j, k);
    DetachOrderMap(v.orders, v.orderFree, v.orderMap, v.queue[j][k]);
  }

  lemma {:induction false} DetachSums(v: View, j: nat, k: nat)
    requires v.Sizes() && TotalsOk(v.total, v.qty, v.queue)
    requires j < |v.levels| && k < |v.queue[j]| && v.queue[j][k] < |v.orders|
    ensures var w := Detach(v, v.queue[j][k], j, k); TotalsOk(w.total, w.qty, w.queue)
  {
    QtySumRemove(v.qty, v.queue[j], k);
  }

  lemma {:induction false} RetireLadder(levels: seq<LevelKey>, free: set<nat>, side: Side, ladder: seq<nat>, i: nat)
    requires LadderOk(levels, free, side, ladder) && i < |ladder|
    ensures LadderOk(levels, free + {ladder[i]}, side, RemoveAt(ladder, i))
  {
    RemoveNoRepeat(ladder, i);
    RemoveMembers(ladder, i);
    var l := RemoveAt(ladder, i);
    forall n | 0 <= n < |l|
      ensures l[n] in ladder && l[n] != ladder[i]
    {
      assert l[n] in l;
    }
  }

  lemma {:induction false} RetireLadderOther(levels: seq<LevelKey>, free: set<nat>, side: Side, ladder: seq<nat>, j: nat)
    requires LadderOk(levels, free, side, ladder) && j < |levels| && levels[j].side != side
    ensures LadderOk(levels, free + {j}, side, ladder)
  {
  }

  lemma {:induction false} RetireMap(levels: seq<LevelKey>, free: set<nat>, side: Side, m: map<int, nat>, j: nat)
    requires LevelMapOk(levels, free, side, m) && j < |levels| && j !in free && levels[j].side == side
    ensures LevelMapOk(levels, free + {j}, side, m - {levels[j].price})
  {
  }

  lemma {:induction false} RetireMapOther(levels: seq<LevelKey>, free: set<nat>, side: Side, m: map<int, nat>, j: nat)
    requires LevelMapOk(levels, free, side, m) && j < |levels| && levels[j].side != side
    ensures LevelMapOk(levels, free + {j}, side, m)
  {
  }

  lemma {:induction false} RetireLadders(v: View, j: nat, i: nat)
    requires v.Sizes() && LaddersOk(v) && j < |v.levels| && j !in v.levelFree
    requires i < |v.Ladder(v.levels[j].side)| && v.Ladder(v.levels[j].side)[i] == j
    ensures LaddersOk(Retire(v, j, i))
  {
    var side, other := v.levels[j].side, Opposite(v.levels[j].side);
    RetireLadder(v.levels, v.levelFree, side, v.Ladder(side), i);
    RetireLadderOther(v.levels, v.levelFree, other, v.Ladder(other), j);
    RetireMap(v.levels, v.levelFree, side, v.LevelMap(side), j);
    RetireMapOther(v.levels, v.levelFree, other, v.LevelMap(other), j);
  }

  lemma {:induction false} DropInv(v: View, j: nat, k: nat, i: nat)
    requires v.Inv() && j < |v.levels| && k < |v.queue[j]|
    requires i < |v.Ladder(v.levels[j].side)| && v.Ladder(v.levels[j].side)[i] == j
    ensures v.queue[j][k] < |v.orders| && Drop(v, v.queue[j][k], j, k, i).Inv()
  {
    DetachOrders(v, j, k);
    DetachSums(v, j, k);
    RetireLadders(v, j, i);
  }

  lemma {:induction false} RemoveQueueValue(orders: seq<OrderKey>, qty: seq<nat>, q: seq<nat>, k: nat)
    requires |orders| == |qty| && k < |q|
    ensures var os := QueueValue(orders, qty, q);
            QueueValue(orders, qty, RemoveAt(q, k)) == os[..k] + os[k + 1..]
  {
  }

  lemma {:induction false} RemoveLadderValue(levels: seq<LevelKey>, orders: seq<OrderKey>, qty: seq<nat>,
                                             queue: seq<seq<nat>>, ladder: seq<nat>, i: nat)
    requires |orders| == |qty| && |levels| == |queue| && i < |ladder|
    ensures var L := LadderValue(levels, orders, qty, queue, ladder);
            LadderValue(levels, orders, qty, queue, RemoveAt(ladder, i)) == L[..i] + L[i + 1..]
  {
  }

  lemma {:induction false} DetachValues(v: View, j: nat, k: nat, ladder: seq<nat>, i: nat)
    requires v.Sizes() && j < |v.levels| && k < |v.queue[j]| && v.queue[j][k] < |v.orders|
    requires forall n :: 0 <= n < |ladder| ==> ladder[n] < |v.levels|
    requires NoRepeat(ladder) && i < |ladder| && ladder[i] == j
    ensures var w := Detach(v, v.queue[j][k], j, k);
            var L := LadderValue(v.levels, v.orders, v.qty, v.queue, ladder);
            var os := L[i].orders;
            && |os| == |v.queue[j]|
            && LadderValue(w.levels, w.orders, w.qty, w.queue, ladder) ==
               L[i := L[i].(orders := os[..k] + os[k + 1..])]
  {
    var w := Detach(v, v.queue[j][k], j, k);
    LadderTouched(v.levels, v.orders, v.qty, v.queue, w.orders, w.qty, w.queue, ladder, i);
    RemoveQueueValue(v.orders, v.qty, v.queue[j], k);
  }

  lemma {:induction false} DropLadderValue(v: View, j: nat, k: nat, i: nat)
    requires v.Sizes() && j < |v.levels| && k < |v.queue[j]| && v.queue[j][k] < |v.orders|
    requires var ladder := v.Ladder(v.levels[j].side);
             && (forall n :: 0 <= n < |ladder| ==> ladder[n] < |v.levels|)
             && NoRepeat(ladder) && i < |ladder| && ladder[i] == j
    ensures var L := v.Abs().Ladder(v.levels[j].side);
            && i < |L| && k < |L[i].orders|
            && Drop(v, v.queue[j][k], j, k, i).Abs().Ladder(v.levels[j].side) == DropAt(L, i, k)
  {
    var side := v.levels[j].side;
    var d := Detach(v, v.queue[j][k], j, k);
    var L := v.Abs().Ladder(side);
    DetachValues(v, j, k, v.Ladder(side), i);
    RemoveLadderValue(d.levels, d.orders, d.qty, d.queue, v.Ladder(side), i);
    assert L[i].orders == QueueValue(v.orders, v.qty, v.queue[j]);
    if |v.queue[j]| == 1 {
      var X := d.Abs().Ladder(side);
      assert X[..i] == L[..i] && X[i + 1..] == L[i + 1..];
    }
  }

  /** Taking an order out removes it from its place in the book, and its level when it was
      the last; the other side is untouched. */
  lemma {:induction false} DropAbs(v: View, j: nat, k: nat, i: nat)
    requires v.Inv() && j < |v.levels| && k < |v.queue[j]|
    requires i < |v.Ladder(v.levels[j].side)| && v.Ladder(v.levels[j].side)[i] == j
    ensures v.queue[j][k] < |v.orders|
    ensures var side := v.levels[j].side;
            var L := v.Abs().Ladder(side);
            && i < |L| && k < |L[i].orders| && L[i].orders[k] == Order(v.orders[v.queue[j][k]].id, v.qty[v.queue[j][k]])
            && Drop(v, v.queue[j][k], j, k, i).Abs() == v.Abs().WithLadder(side, DropAt(L, i, k))
  {
    var side, other := v.levels[j].side, Opposite(v.levels[j].side);
    DropLadderValue(v, j, k, i);
    var w := Drop(v, v.queue[j][k], j, k, i);
    assert j !in v.Ladder(other);
    LadderUntouched(v.levels, v.orders, v.qty, v.queue, w.levels, w.orders, w.qty, w.queue, v.Ladder(other));
  }

  // ---------------------------------------------------------------------------
  // Changing a quantity in place
  // ---------------------------------------------------------------------------

  /** Order slot o of level j changes its quantity to q; the level's total follows. */
  function SetQty(v: View, o: nat, j: nat, q: nat): View
    requires v.Sizes() && o < |v.orders| && j < |v.levels|
  {
    v.(qty := v.qty[o := q], total := v.total[j := Sub32(v.total[j], v.qty[o] as int - q)])
  }

  lemma {:induction false} SetQtySums(v: View, j: nat, k: nat, q: nat)
    requires v.Sizes() && TotalsOk(v.total, v.qty, v.queue)
    requires j < |v.levels| && k < |v.queue[j]| && v.queue[j][k] < |v.orders| && NoRepeat(v.queue[j])
    requires forall i :: 0 <= i < |v.queue| && i != j ==> v.queue[j][k] !in v.queue[i]
    ensures var w := SetQty(v, v.queue[j][k], j, q); TotalsOk(w.total, w.qty, w.queue)
  {
    var o := v.queue[j][k];
    QtySumResize(v.qty, v.queue[j], k, q);
    forall i | 0 <= i < |v.queue| && i != j
      ensures QtySum(v.qty[o := q], v.queue[i]) == QtySum(v.qty, v.queue[i])
    {
      QtySumUntouched(v.qty, v.qty[o := q], v.queue[i]);
    }
  }

  lemma {:induction false} OnlyOwnQueue(owner: seq<int>, free: set<nat>, queue: seq<seq<nat>>, levelFree: set<nat>, j: nat, k: nat)
    requires QueuesOk(owner, free, queue, levelFree) && j < |queue| && k < |queue[j]|
    ensures queue[j][k] < |owner| && NoRepeat(queue[j])
    ensures forall i :: 0 <= i < |queue| && i != j ==> queue[j][k] !in queue[i]
  {
  }

  lemma {:induction false} SetQtyInv(v: View, j: nat, k: nat, q: nat)
    requires v.Inv() && j < |v.levels| && k < |v.queue[j]|
    ensures v.queue[j][k] < |v.orders| && SetQty(v, v.queue[j][k], j, q).Inv()
  {
    OnlyOwnQueue(v.owner, v.orderFree, v.queue, v.levelFree, j, k);
    SetQtySums(v, j, k, q);
  }

  lemma {:induction false} SetQtyValues(v: View, j: nat, k: nat, q: nat, i: nat)
    requires v.Sizes() && j < |v.levels| && k < |v.queue[j]| && v.queue[j][k] < |v.orders| && NoRepeat(v.queue[j])
    requires forall n :: 0 <= n < |v.queue| && n != j ==> v.queue[j][k] !in v.queue[n]
    requires var ladder := v.Ladder(v.levels[j].side);
             && (forall n :: 0 <= n < |ladder| ==> ladder[n] < |v.levels|)
             && NoRepeat(ladder) && i < |ladder| && ladder[i] == j
    ensures var L := v.Abs().Ladder(v.levels[j].side);
            && i < |L| && k < |L[i].orders|
            && SetQty(v, v.queue[j][k], j, q).Abs().Ladder(v.levels[j].side) == ResizeAt(L, i, k, q)
  {
    var w := SetQty(v, v.queue[j][k], j, q);
    var ladder := v.Ladder(v.levels[j].side);
    LadderTouched(v.levels, v.orders, v.qty, v.queue, w.orders, w.qty, w.queue, ladder, i);
    var os := QueueValue(v.orders, v.qty, v.queue[j]);
    assert QueueValue(w.orders, w.qty, w.queue[j]) == os[k := os[k].(qty := q)];
  }

  lemma {:induction false} SetQtyAbs(v: View, j: nat, k: nat, q: nat, i: nat)
    requires v.Inv() && j < |v.levels| && k < |v.queue[j]|
    requires i < |v.Ladder(v.levels[j].side)| && v.Ladder(v.levels[j].side)[i] == j
    ensures v.queue[j][k] < |v.orders|
    ensures var side := v.levels[j].side;
            var L := v.Abs().Ladder(side);
            && i < |L| && k < |L[i].orders| && L[i].orders[k] == Order(v.orders[v.queue[j][k]].id, v.qty[v.queue[j][k]])
            && SetQty(v, v.queue[j][k], j, q).Abs() == v.Abs().WithLadder(side, ResizeAt(L, i, k, q))
  {
    var side, other := v.levels[j].side, Opposite(v.levels[j].side);
    OnlyOwnQueue(v.owner, v.orderFree, v.queue, v.levelFree, j, k);
    SetQtyValues(v, j, k, q, i);
    var w := SetQty(v, v.queue[j][k], j, q);
    assert j !in v.Ladder(other);
    LadderUntouched(v.levels, v.orders, v.qty, v.queue, w.levels, w.orders, w.qty, w.queue, v.Ladder(other));
  }

  // ---------------------------------------------------------------------------
  // Scribbling on free slots
  // ---------------------------------------------------------------------------

  /** w differs from v only in the contents of slots that are free in both. */
  ghost predicate SameButFree(v: View, w: View) {
    && v.Sizes() && w.Sizes() && |w.orders| == |v.orders| && |w.levels| == |v.levels|
    && (forall o :: 0 <= o < |v.orders| && o !in v.orderFree ==>
          w.orders[o] == v.orders[o] && w.qty[o] == v.qty[o] && w.owner[o] == v.owner[o])
    && (forall j :: 0 <= j < |v.levels| && j !in v.levelFree ==>
          w.levels[j] == v.levels[j] && w.total[j] == v.total[j])
    && w.queue == v.queue && w.orderMap == v.orderMap && w.orderFree == v.orderFree
    && w.bids == v.bids && w.asks == v.asks && w.bidMap == v.bidMap && w.askMap == v.askMap && w.levelFree == v.levelFree
  }

  lemma {:induction false} ScribbleSums(v: View, w: View)
    requires SameButFree(v, w) && TotalsOk(v.total, v.qty, v.queue)
    requires QueuesOk(v.owner, v.orderFree, v.queue, v.levelFree)
    ensures TotalsOk(w.total, w.qty, w.queue)
  {
    forall j | 0 <= j < |v.queue|
      ensures QtySum(w.qty, v.queue[j]) == QtySum(v.qty, v.queue[j])
    {
      QtySumUntouched(v.qty, w.qty, v.queue[j]);
    }
  }

  lemma {:induction false} ScribbleInv(v: View, w: View)
    requires v.Inv() && SameButFree(v, w)
    ensures w.Inv() && w.Abs() == v.Abs()
  {
    ScribbleSums(v, w);
    ScribbleOrders(v, w);
    ScribbleLadders(v, w);
    LadderUntouched(v.levels, v.orders, v.qty, v.queue, w.levels, w.orders, w.qty, w.queue, v.bids);
    LadderUntouched(v.levels, v.orders, v.qty, v.queue, w.levels, w.orders, w.qty, w.queue, v.asks);
  }

  lemma {:induction false} ScribbleOrders(v: View, w: View)
    requires OrdersOk(v) && SameButFree(v, w)
    ensures OrdersOk(w)
  {
    forall o | 0 <= o < |v.orders| && o !in v.orderFree
      ensures v.owner[o] !in v.levelFree
    {
      assert o in v.queue[v.owner[o]];
    }
  }

  lemma {:induction false} ScribbleLadders(v: View, w: View)
    requires LaddersOk(v) && SameButFree(v, w)
    ensures LaddersOk(w)
  {
  }

  // ---------------------------------------------------------------------------
  // Lookup
  // ---------------------------------------------------------------------------

  /** Slot o is order k of level j, which is entry i of its ladder. */
  ghost predicate Stands(v: View, o: nat, j: nat, k: nat, i: nat)
    requires v.Sizes()
  {
    && j < |v.levels| && j !in v.levelFree && k < |v.queue[j]| && v.queue[j][k] == o
    && i < |v.Ladder(v.levels[j].side)| && v.Ladder(v.levels[j].side)[i] == j
  }

  /** Where an order in use stands: its level's place on the ladder and its place in the queue. */
  lemma {:induction false} Position(v: View, o: nat) returns (j: nat, k: nat, i: nat)
    requires v.Inv() && o < |v.orders| && o !in v.orderFree
    ensures j == v.owner[o] && j < |v.levels| && j !in v.levelFree
    ensures k < |v.queue[j]| && v.queue[j][k] == o
    ensures i < |v.Ladder(v.levels[j].side)| && v.Ladder(v.levels[j].side)[i] == j
  {
    j := v.owner[o];
    k :| 0 <= k < |v.queue[j]| && v.queue[j][k] == o;
    i :| 0 <= i < |v.Ladder(v.levels[j].side)| && v.Ladder(v.levels[j].side)[i] == j;
  }

  /** Slot o is in use, carries the id and stands at the given position. */
  ghost predicate Holds(v: View, id: nat, o: nat, j: nat, k: nat, i: nat) {
    && v.Sizes() && o < |v.orders| && o !in v.orderFree && v.orders[o].id == id && v.owner[o] == j
    && Stands(v, o, j, k, i)
  }

  lemma {:induction false} Locate(v: View, id: nat) returns (j: nat, k: nat, i: nat)
    requires v.Inv() && id in v.orderMap
    ensures Holds(v, id, v.orderMap[id], j, k, i)
  {
    j, k, i := Position(v, v.orderMap[id]);
  }

  lemma {:induction false} LadderIdInMap(v: View, side: Side, id: nat)
    requires v.Inv() && id in Ids(v.Abs().Ladder(side))
    ensures id in v.orderMap
  {
    var i, k := WhereIsId(v.Abs().Ladder(side), id);
    var j := v.Ladder(side)[i];
    assert v.Abs().Ladder(side)[i].orders[k].id == v.orders[v.queue[j][k]].id;
  }

  /** The order map knows exactly the ids resting in the book. */
  lemma {:induction false} MapIsIds(v: View, id: nat)
    requires v.Inv()
    ensures id in v.orderMap <==> id in BookIds(v.Abs())
  {
    if id in v.orderMap {
      var j, k, i := Position(v, v.orderMap[id]);
      IdAt(v.Abs().Ladder(v.levels[j].side), i, k);
    } else if id in Ids(v.Abs().bids) {
      LadderIdInMap(v, Bid, id);
    } else if id in Ids(v.Abs().asks) {
      LadderIdInMap(v, Ask, id);
    }
  }

  // ---------------------------------------------------------------------------
  // Finding or opening a level
  // ---------------------------------------------------------------------------

  /** w differs from v only in the contents of free level slots. */
  ghost predicate SameButFreeLevels(v: View, w: View) {
    && w == v.(levels := w.levels, total := w.total)
    && |w.levels| == |v.levels| && |w.total| == |v.total|
    && (forall j :: 0 <= j < |v.levels| && j !in v.levelFree ==> w.levels[j] == v.levels[j])
    && (forall j :: 0 <= j < |v.total| && j !in v.levelFree ==> w.total[j] == v.total[j])
  }

  /** Level slot j serves the price: it did already, or it was free and has been placed. */
  ghost predicate Supplied(v: View, w: View, side: Side, price: int, j: nat, created: bool, k: nat) {
    && created == (price !in v.LevelMap(side))
    && (!created ==> w == v && v.LevelMap(side)[price] == j)
    && (created ==>
          && v.Sizes() && j in v.levelFree && j < |v.levels| && k <= |v.Ladder(side)|
          && w == Place(v, j, price, side, k).(levelFree := v.levelFree - {j})
          && RanksAt(w.levels, side, v.Ladder(side), j, k))
  }
}
