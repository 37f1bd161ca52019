/** The limit order book: pools, intrusive queues and ladders and three hash maps, kept in
    step so that together they stand for one well-formed book. */
module OrderBooks {
  import opened Machine
  import opened Books
  import opened Ladders
  import opened Matching
  import opened Quantities
  import opened Draining
  import opened FreeStack
  import opened HashTable
  import opened IntrusiveLists
  import opened BookRep
  import opened Wiring
  import opened BookParts

  lemma {:induction false} EmptyMemory(v: View)
    requires v.Sizes() && v.bids == v.asks == [] && v.orderMap == map[] && v.bidMap == v.askMap == map[]
    requires v.orderFree == Below(|v.orders|) && v.levelFree == Below(|v.levels|)
    requires v.queue == seq(|v.levels|, _ => [])
    ensures v.Inv() && v.Abs() == EMPTY_BOOK && WellFormed(v.Abs())
  {
  }

  /** In a book where ids are unique, dropping an order at its position is cancelling its id. */
  lemma {:induction false} DropIsCancel(b: Book, side: Side, i: nat, k: nat)
    requires WellFormed(b) && i < |b.Ladder(side)| && k < |b.Ladder(side)[i].orders|
    ensures var id := b.Ladder(side)[i].orders[k].id;
            b.WithLadder(side, DropAt(b.Ladder(side), i, k)) == CancelBook(b, id)
  {
    var L, M := b.Ladder(side), b.Ladder(Opposite(side));
    var id := L[i].orders[k].id;
    GoodHasOrders(Bid, b.bids);
    GoodHasOrders(Ask, b.asks);
    IdAt(L, i, k);
    assert BookIds(b)[id] == Ids(L)[id] + Ids(M)[id];
    CancelIsDropAt(L, i, k);
    CancelAbsent(M, id);
  }

  /** Dropping an order keeps the memory sound and cancels the order's id. */
  lemma {:induction false} DropValid(v: View, o: nat, j: nat, k: nat, i: nat)
    requires v.Inv() && WellFormed(v.Abs())
    requires o < |v.orders| && Stands(v, o, j, k, i)
    ensures var w := Drop(v, o, j, k, i);
            w.Inv() && WellFormed(w.Abs()) && w.Abs() == CancelBook(v.Abs(), v.orders[o].id)
  {
    DropInv(v, j, k, i);
    DropAbs(v, j, k, i);
    DropIsCancel(v.Abs(), v.levels[j].side, i, k);
    CancelWellFormed(v.Abs(), v.orders[o].id);
  }

  /** What the slot of a resting order says about the book. */
  lemma {:induction false} HeldOrder(v: View, id: nat, o: nat, j: nat, k: nat, i: nat)
    requires v.Inv() && WellFormed(v.Abs()) && Holds(v, id, o, j, k, i)
    ensures var L := v.Abs().Ladder(v.levels[j].side);
            i < |L| && k < |L[i].orders| && L[i].orders[k] == Order(id, v.qty[o]) &&
            BookQty(v.Abs(), id) == v.qty[o] < U32
  {
    hide OrdersOk, TotalsOk, LaddersOk;
    SetQtyAbs(v, j, k, v.qty[o], i);
    assert GoodLevel(v.Abs().Ladder(v.levels[j].side)[i]);
    BookQtyAt(v.Abs(), v.levels[j].side, i, k);
  }

  /** Reducing a resting order in its slot resizes it in the book. */
  lemma {:induction false} SetQtyValid(v: View, id: nat, o: nat, j: nat, k: nat, i: nat, q: nat)
    requires v.Inv() && WellFormed(v.Abs()) && Holds(v, id, o, j, k, i) && 0 < q < U32
    ensures var w := SetQty(v, o, j, q);
            w.Inv() && WellFormed(w.Abs()) && w.Abs() == ResizeBook(v.Abs(), id, q)
  {
    hide OrdersOk, TotalsOk, LaddersOk, WellFormed;
    SetQtyInv(v, j, k, q);
    SetQtyAbs(v, j, k, q, i);
    ResizeBookAt(v.Abs(), v.levels[j].side, i, k, q);
    ResizeWellFormed(v.Abs(), id, q);
  }

  lemma {:induction false} SumOfQueue(orders: seq<OrderKey>, qty: seq<nat>, q: seq<nat>)
    requires |orders| == |qty|
    ensures QtySum(qty, q) == SumQty(QueueValue(orders, qty, q))
  {
    if q != [] {
      var n := |q| - 1;
      SumOfQueue(orders, qty, q[..n]);
      assert QueueValue(orders, qty, q)[..n] == QueueValue(orders, qty, q[..n]);
    }
  }

  /** A level's stored total is the sum of its orders' quantities, modulo 2^32. */
  lemma {:induction false} VolumeOfLevel(v: View, side: Side, price: int)
    requires v.Inv() && WellFormed(v.Abs()) && price in v.LevelMap(side)
    ensures var j := v.LevelMap(side)[price];
            j < |v.levels| && v.total[j] == SumQty(OrdersAt(v.Abs().Ladder(side), price)) % U32
  {
    hide OrderMapOk, KeysOk, WellFormed;
    MappedLevel(v, side, price);
    WellFormedSorted(v.Abs(), side);
    var j := v.LevelMap(side)[price];
    assert j in v.Ladder(side);
    var i :| 0 <= i < |v.Ladder(side)| && v.Ladder(side)[i] == j;
    OrdersAtLevel(side, v.Abs().Ladder(side), i);
    SumOfQueue(v.orders, v.qty, v.queue[j]);
  }

  lemma {:induction false} NoVolume(v: View, side: Side, price: int)
    requires v.Inv() && price !in v.LevelMap(side)
    ensures OrdersAt(v.Abs().Ladder(side), price) == []
  {
    OrdersAtNone(v.Abs().Ladder(side), price);
  }

  /** Level j is the best of its side and has an order in front. */
  ghost predicate Leads(v: View, j: nat) {
    && v.Sizes() && j < |v.levels| && v.queue[j] != [] && v.queue[j][0] < |v.orders|
    && v.Ladder(v.levels[j].side) != [] && v.Ladder(v.levels[j].side)[0] == j
  }

  lemma {:induction false} BestLeads(v: View, side: Side)
    requires v.Inv() && v.Ladder(side) != []
    ensures var j := v.Ladder(side)[0];
            Leads(v, j) && v.levels[j].side == side && v.levels[j].price == v.Abs().Ladder(side)[0].price
  {
  }

  /** The front order of level j loses quantity f, and leaves when that was all it had. */
  ghost function Filled(v: View, j: nat, f: nat): View
    requires Leads(v, j) && f <= v.qty[v.queue[j][0]]
  {
    var o := v.queue[j][0];
    var w := SetQty(v, o, j, v.qty[o] - f);
    if f == v.qty[o] then Drop(w, o, j, 0, 0) else w
  }

  lemma {:induction false} FilledAbs(v: View, j: nat, f: nat)
    requires v.Inv() && Leads(v, j) && f <= v.qty[v.queue[j][0]]
    ensures var o, side := v.queue[j][0], v.levels[j].side;
            var L := v.Abs().Ladder(side);
            && L != [] && L[0].orders != []
            && L[0].price == v.levels[j].price && L[0].orders[0] == Order(v.orders[o].id, v.qty[o])
            && Filled(v, j, f).Inv() && Filled(v, j, f).Abs() == v.Abs().WithLadder(side, FillFront(L, f))
  {
    hide OrdersOk, TotalsOk, LaddersOk, WellFormed;
    var o, side := v.queue[j][0], v.levels[j].side;
    var w := SetQty(v, o, j, v.qty[o] - f);
    var L := v.Abs().Ladder(side);
    SetQtyInv(v, j, 0, v.qty[o] - f);
    SetQtyAbs(v, j, 0, v.qty[o] - f, 0);
    assert L[0] == LevelValue(v.levels, v.orders, v.qty, v.queue, j);
    if f == v.qty[o] {
      DropInv(w, j, 0, 0);
      DropAbs(w, j, 0, 0);
      assert DropAt(ResizeAt(L, 0, 0, 0), 0, 0) == DropAt(L, 0, 0);
    }
  }

  /** Unless the whole level went, it still leads. */
  lemma {:induction false} StillLeads(v: View, j: nat, f: nat)
    requires v.Inv() && Leads(v, j) && f <= v.qty[v.queue[j][0]] && Filled(v, j, f).Inv()
    requires !(f == v.qty[v.queue[j][0]] && v.queue[j] == [v.queue[j][0]])
    ensures Leads(Filled(v, j, f), j) && Filled(v, j, f).levels == v.levels
  {
    assert v.queue[j] != [v.queue[j][0]] ==> |v.queue[j]| > 1;
    assert Filled(v, j, f).queue[j] != [];
  }

  lemma {:induction false} FrontHolds(v: View, j: nat)
    requires v.Inv() && Leads(v, j)
    ensures Holds(v, v.orders[v.queue[j][0]].id, v.queue[j][0], j, 0, 0)
  {
  }

  /** The stored total of the best level. */
  lemma {:induction false} LeadTotal(v: View, j: nat)
    requires v.Inv() && Leads(v, j)
    ensures var L := v.Abs().Ladder(v.levels[j].side);
            L != [] && v.total[j] == SumQty(L[0].orders) % U32
  {
    SumOfQueue(v.orders, v.qty, v.queue[j]);
  }

  /** Book b' is b after a taker wanting `left` traded f with the front order of a side, at
      that order's price. */
  ghost predicate Traded(b: Book, b': Book, side: Side, left: nat, maker: nat, price: int, f: nat) {
    var L := b.Ladder(side);
    && L != [] && L[0].orders != [] && maker == L[0].orders[0].id && price == L[0].price
    && f == Min(left, L[0].orders[0].qty) && b' == b.WithLadder(side, FillFront(L, f))
  }

  lemma {:induction false} FilledWellFormed(b: Book, side: Side, f: nat)
    requires WellFormed(b) && b.Ladder(side) != [] && b.Ladder(side)[0].orders != []
    requires f <= b.Ladder(side)[0].orders[0].qty
    ensures WellFormed(b.WithLadder(side, FillFront(b.Ladder(side), f)))
    ensures BookIds(b.WithLadder(side, FillFront(b.Ladder(side), f))) <= BookIds(b)
  {
    var L := b.Ladder(side);
    var b' := b.WithLadder(side, FillFront(L, f));
    assert GoodLevel(L[0]);
    FillFrontGood(side, L, f);
    FillFrontShrinks(side, L, f);
    assert BookIds(b') <= BookIds(b);
    UniqueSmaller(BookIds(b'), BookIds(b));
  }

  /** Memory once an order slot has been given its contents and its map entry. */
  function Registered(v: View, o: nat, key: OrderKey, q: nat): View
    requires v.Sizes() && o < |v.orders|
  {
    v.(orders := v.orders[o := key], qty := v.qty[o := q], orderFree := v.orderFree - {o},
       orderMap := v.orderMap[key.id := o])
  }

  /** w is v with order slot o so registered. */
  ghost predicate NewlyRegistered(v: View, w: View, o: nat, key: OrderKey, q: nat) {
    v.Sizes() && o < |v.orders| && w == Registered(v, o, key, q)
  }

  /** ... and once it has joined its level's queue. */
  function Enqueued(v: View, o: nat, j: nat): View
    requires v.Sizes() && o < |v.orders| && j < |v.levels|
  {
    v.(owner := v.owner[o := j], queue := v.queue[j := v.queue[j] + [o]],
       total := v.total[j := Wrap32(v.total[j] + v.qty[o])])
  }

  /** A mapped price names a live level with that price and side. */
  lemma {:induction false} MappedLevel(v: View, side: Side, price: int)
    requires LaddersOk(v) && price in v.LevelMap(side)
    ensures var j := v.LevelMap(side)[price];
            j < |v.levels| && j !in v.levelFree && v.levels[j] == LevelKey(price, side)
  {
  }

  lemma {:induction false} WellFormedSorted(b: Book, side: Side)
    requires WellFormed(b)
    ensures Sorted(side, b.Ladder(side))
  {
  }

  lemma {:induction false} JoinedValid(v: View, o: nat, key: OrderKey, q: nat, j: nat)
    requires v.Inv() && WellFormed(v.Abs()) && o in v.orderFree && o < |v.orders|
    requires key.price in v.LevelMap(key.side) && v.LevelMap(key.side)[key.price] == j
    requires key.id !in v.orderMap && 0 < q < U32
    ensures j < |v.levels| && Enqueued(Registered(v, o, key, q), o, j) == Append(v, o, key, q, j)
    ensures Rests(v, Append(v, o, key, q, j), key, q)
  {
    hide OrdersOk, TotalsOk, LaddersOk, WellFormed, View.Abs, BookIds, Rest;
    MappedLevel(v, key.side, key.price);
    WellFormedSorted(v.Abs(), key.side);
    assert v.levelFree - {j} == v.levelFree;
    AppendInv(v, o, key, q, j);
    AppendAbs(v, o, key, q, j);
    MapIsIds(v, key.id);
    RestWellFormed(v.Abs(), key.side, key.price, Order(key.id, q));
  }

  /** Memory w is sound and holds the book of v with one more order at rest. */
  ghost predicate Rests(v: View, w: View, key: OrderKey, q: nat) {
    && v.Sizes() && w.Inv() && WellFormed(w.Abs())
    && w.Abs() == v.Abs().WithLadder(key.side, Rest(key.side, v.Abs().Ladder(key.side), key.price, Order(key.id, q)))
  }

  /** No level in use has this price, so the ranking is strict. */
  lemma {:induction false} StrictRank(v: View, side: Side, price: int, w: seq<LevelKey>, j: nat, k: nat)
    requires v.Sizes() && LaddersOk(v) && j in v.levelFree && j < |v.levels|
    requires price !in v.LevelMap(side) && w == v.levels[j := LevelKey(price, side)]
    requires RanksAt(w, side, v.Ladder(side), j, k)
    ensures forall i :: 0 <= i < k ==> Better(side, v.Abs().Ladder(side)[i].price, price)
    ensures k < |v.Ladder(side)| ==> Better(side, price, v.Abs().Ladder(side)[k].price)
  {
    forall i | 0 <= i < |v.Ladder(side)|
      ensures v.Abs().Ladder(side)[i].price == v.levels[v.Ladder(side)[i]].price != price
      ensures w[v.Ladder(side)[i]] == v.levels[v.Ladder(side)[i]]
    {
    }
  }

  lemma {:induction false} OpenedValid(v: View, o: nat, key: OrderKey, q: nat, j: nat, k: nat)
    requires v.Inv() && WellFormed(v.Abs()) && o in v.orderFree && o < |v.orders|
    requires j in v.levelFree && j < |v.levels| && k <= |v.Ladder(key.side)| && key.price !in v.LevelMap(key.side)
    requires RanksAt(v.levels[j := LevelKey(key.price, key.side)], key.side, v.Ladder(key.side), j, k)
    requires key.id !in v.orderMap && 0 < q < U32
    ensures Rests(v, Open(v, o, key, q, j, k), key, q)
  {
    hide OrdersOk, TotalsOk, LaddersOk, WellFormed, View.Abs, BookIds, Rest, RanksAt;
    WellFormedSorted(v.Abs(), key.side);
    StrictRank(v, key.side, key.price, v.levels[j := LevelKey(key.price, key.side)], j, k);
    OpenInv(v, o, key, q, j, k);
    OpenAbs(v, o, key, q, j, k);
    MapIsIds(v, key.id);
    RestWellFormed(v.Abs(), key.side, key.price, Order(key.id, q));
  }

  /** Registering, finding or opening the level and joining its queue rests the order. */
  lemma {:induction false} AddedValid(v: View, o: nat, key: OrderKey, q: nat, w: View, j: nat, created: bool, k: nat)
    requires v.Inv() && WellFormed(v.Abs()) && o in v.orderFree && o < |v.orders|
    requires key.id !in v.orderMap && 0 < q < U32
    requires Supplied(Registered(v, o, key, q), w, key.side, key.price, j, created, k)
    ensures w.Sizes() && j < |w.levels| && w.queue == v.queue && Rests(v, Enqueued(w, o, j), key, q)
  {
    hide View.Inv, WellFormed, View.Abs, Supplied, Enqueued, Rests, Open;
    SuppliedParts(v, o, key, q, w, j, created, k);
    if created {
      OpenedValid(v, o, key, q, j, k);
    } else {
      JoinedValid(v, o, key, q, j);
    }
  }

  lemma {:induction false} SuppliedParts(v: View, o: nat, key: OrderKey, q: nat, w: View, j: nat, created: bool, k: nat)
    requires v.Inv() && o in v.orderFree && o < |v.orders|
    requires Supplied(Registered(v, o, key, q), w, key.side, key.price, j, created, k)
    ensures w.Sizes() && j < |w.levels| && w.queue == v.queue && created == (key.price !in v.LevelMap(key.side))
    ensures !created ==> w == Registered(v, o, key, q) && v.LevelMap(key.side)[key.price] == j
    ensures created ==>
              && j in v.levelFree && j < |v.levels| && k <= |v.Ladder(key.side)| && Enqueued(w, o, j) == Open(v, o, key, q, j, k)
              && RanksAt(v.levels[j := LevelKey(key.price, key.side)], key.side, v.Ladder(key.side), j, k)
  {
    hide OrdersOk, TotalsOk, RanksAt;
    if !created {
      MappedLevel(v, key.side, key.price);
    }
  }

  /** With no order slot free every slot has an entry of its own in the order map. */
  lemma {:induction false} SlotsCovered(v: View)
    requires v.Sizes() && OrderMapOk(v.orders, v.orderFree, v.orderMap) && v.orderFree == {}
    ensures |v.orderMap| >= |v.orders|
  {
    var es := seq(|v.orders|, o requires 0 <= o < |v.orders| => (v.orders[o].id, o));
    forall i, j | 0 <= i < j < |es|
      ensures es[i].0 != es[j].0
    {
      assert v.orderMap[es[i].0] == i && v.orderMap[es[j].0] == j;
    }
    var keys := set o | 0 <= o < |v.orders| :: v.orders[o].id;
    forall k | k in keys
      ensures exists i :: 0 <= i < |es| && es[i].0 == k
    {
      var o :| 0 <= o < |v.orders| && v.orders[o].id == k;
      assert es[o].0 == k;
    }
    forall i | 0 <= i < |es|
      ensures es[i].0 in keys
    {
    }
    DistinctCardinality(es, keys);
    assert keys <= v.orderMap.Keys;
    Fewer(keys, v.orderMap.Keys);
  }

  lemma {:induction false} Fewer<T>(a: set<T>, b: set<T>)
    requires a <= b
    ensures |a| <= |b|
  {
    assert b == a + (b - a);
  }

  lemma {:induction false} NothingMapped(v: View)
    requires v.Inv() && v.Abs() == EMPTY_BOOK
    ensures v.orderMap == map[] && v.bidMap == map[] && v.askMap == map[]
  {
    forall id
      ensures id !in v.orderMap
    {
      MapIsIds(v, id);
    }
    LevelMapSize(v, Bid);
    LevelMapSize(v, Ask);
    assert |v.Abs().bids| == |v.bids| && |v.Abs().asks| == |v.asks|;
  }

  lemma {:induction false} ListedCount(ladder: seq<nat>)
    ensures |Elements(ladder)| <= |ladder|
  {
    if ladder != [] {
      var n := |ladder| - 1;
      ListedCount(ladder[..n]);
      assert Elements(ladder) == Elements(ladder[..n]) + {ladder[n]};
    }
  }

  lemma {:induction false} LadderCovers(v: View, j: nat)
    requires v.Sizes() && LaddersOk(v) && j < |v.levels| && j !in v.levelFree
    ensures j in Elements(v.bids) + Elements(v.asks)
  {
    assert v.levels[j].side.Bid? || v.levels[j].side.Ask?;
  }

  /** With no level slot free every level has an entry in the map of its side. */
  lemma {:induction false} LevelsCovered(v: View)
    requires v.Sizes() && LaddersOk(v) && v.levelFree == {}
    ensures |v.bidMap| + |v.askMap| >= |v.levels|
  {
    hide LaddersOk, Elements;
    LevelMapSize(v, Bid);
    LevelMapSize(v, Ask);
    ListedCount(v.bids);
    ListedCount(v.asks);
    var a, b := Elements(v.bids), Elements(v.asks);
    BelowCount(|v.levels|);
    forall j | j in Below(|v.levels|)
      ensures j in a + b
    {
      LadderCovers(v, j);
    }
    Fewer(Below(|v.levels|), a + b);
    assert |a + b| <= |a| + |b|;
  }

  /** Each level in use has its own entry in its side's map. */
  lemma {:induction false} LevelMapSize(v: View, side: Side)
    requires LaddersOk(v)
    ensures |v.LevelMap(side)| == |v.Ladder(side)|
  {
    var l, m := v.Ladder(side), v.LevelMap(side);
    var es := seq(|l|, i requires 0 <= i < |l| => (v.levels[l[i]].price, l[i]));
    forall i, j | 0 <= i < j < |es|
      ensures es[i].0 != es[j].0
    {
      assert m[es[i].0] == l[i] && m[es[j].0] == l[j];
    }
    forall p | p in m
      ensures exists i :: 0 <= i < |es| && es[i].0 == p
    {
      var i :| 0 <= i < |l| && l[i] == m[p];
      assert es[i].0 == p;
    }
    DistinctCardinality(es, m.Keys);
  }

  /** A mapped price is the price of a level on the ladder. */
  lemma {:induction false} ListedPrice(v: View, side: Side, ladder: seq<nat>, m: map<int, nat>, price: int)
    requires v.Sizes() && price in m
    requires LadderOk(v.levels, v.levelFree, side, ladder) && LevelMapOk(v.levels, v.levelFree, side, m)
    ensures var L := LadderValue(v.levels, v.orders, v.qty, v.queue, ladder); exists i :: 0 <= i < |L| && L[i].price == price
  {
    var L := LadderValue(v.levels, v.orders, v.qty, v.queue, ladder);
    var i :| 0 <= i < |ladder| && ladder[i] == m[price];
    assert L[i].price == price;
  }

  lemma {:induction false} MappedPrice(v: View, side: Side, price: int)
    requires v.Sizes() && LaddersOk(v) && price in v.LevelMap(side)
    ensures exists i :: 0 <= i < |v.Abs().Ladder(side)| && v.Abs().Ladder(side)[i].price == price
  {
    hide LadderOk, LevelMapOk, LadderValue;
    assert v.Abs().Ladder(side) == LadderValue(v.levels, v.orders, v.qty, v.queue, v.Ladder(side));
    ListedPrice(v, side, v.Ladder(side), v.LevelMap(side), price);
  }

  /** Unlinking an order, retiring its level if that leaves it empty, and forgetting the order is
      dropping it. */
  lemma {:induction false} DropInSteps(v: View, u: View, r: View, o: nat, j: nat, k: nat, i: nat)
    requires v.Sizes() && o < |v.orders| && Holds(v, v.orders[o].id, o, j, k, i)
    requires u == v.(queue := v.queue[j := RemoveAt(v.queue[j], k)], total := v.total[j := Sub32(v.total[j], v.qty[o])])
    requires r == if u.queue[j] == [] then Retire(u, j, i) else u
    ensures |r.orders| == |r.owner| == |v.orders| && r.orders[o] == v.orders[o] && r.orderFree == v.orderFree
    ensures Drop(v, o, j, k, i) ==
            r.(orderMap := r.orderMap - {v.orders[o].id}, orderFree := r.orderFree + {o}, owner := r.owner[o := NULL])
  {
  }

  lemma {:induction false} SameReflexive(v: View)
    requires v.Sizes()
    ensures SameButFree(v, v) && SameButFreeLevels(v, v)
  {
  }

  /** Contents written to a free order slot do not matter. */
  lemma {:induction false} FreeSlotSame(v: View, o: nat, key: OrderKey, q: nat)
    requires v.Sizes() && o in v.orderFree && o < |v.orders|
    ensures SameButFree(v, v.(orders := v.orders[o := key], qty := v.qty[o := q], owner := v.owner[o := NULL],
                              orderFree := v.orderFree - {o} + {o}))
  {
  }

  /** Nor do those written to a free level slot. */
  lemma {:induction false} FreeLevelSame(v: View, j: nat, key: LevelKey)
    requires v.Sizes() && j in v.levelFree && j < |v.levels|
    ensures SameButFreeLevels(v, v.(levels := v.levels[j := key], total := v.total[j := 0],
                                    levelFree := v.levelFree - {j} + {j}))
  {
  }

  lemma {:induction false} Unregistered(v: View, o: nat, key: OrderKey, q: nat, w: View)
    requires v.Sizes() && o in v.orderFree && o < |v.orders| && key.id !in v.orderMap
    requires SameButFreeLevels(Registered(v, o, key, q), w)
    ensures SameButFree(v, w.(orderMap := w.orderMap - {key.id}, orderFree := w.orderFree + {o}, owner := w.owner[o := NULL]))
  {
  }

  lemma {:induction false} RegisteredLadders(v: View, o: nat, key: OrderKey, q: nat)
    requires v.Sizes() && o < |v.orders| && LaddersOk(v)
    ensures LaddersOk(Registered(v, o, key, q))
  {
  }

  lemma {:induction false} UnqueuedFree(v: View, o: nat)
    requires v.Inv() && o in v.orderFree
    ensures forall i :: 0 <= i < |v.queue| ==> o !in v.queue[i]
  {
  }

  ghost predicate BlankPools(p: Pools)
    reads p.Repr
  {
    p.Valid() && p.orderFree.free == Below(p.orderFree.capacity) && p.levelFree.free == Below(p.levelFree.capacity)
  }

  ghost predicate BlankChains(c: Chains)
    reads c.Repr
  {
    c.Valid() && c.queue == seq(c.nL, _ => []) && c.bids == c.asks == []
  }

  ghost predicate BlankIndex(x: Index)
    reads x.Repr
  {
    x.Valid() && x.orderMap.contents == map[] && x.bidMap.contents == x.askMap.contents == map[]
  }

  method NewPools(orders: nat, levels: nat) returns (p: Pools)
    requires orders > 0 && levels > 0
    ensures BlankPools(p) && fresh(p.Repr) && (forall o :: o in p.Repr ==> allocated(o))
    ensures p.orderFree.capacity == orders && p.levelFree.capacity == levels
  {
    p := new Pools(orders, levels);
  }

  method NewChains(orders: nat, levels: nat) returns (c: Chains)
    ensures BlankChains(c) && fresh(c.Repr) && (forall o :: o in c.Repr ==> allocated(o))
    ensures c.nO == orders && c.nL == levels
  {
    c := new Chains(orders, levels);
  }

  method NewIndex(orderMapCap: nat, levelMapCap: nat, hashId: nat -> nat, hashPrice: int -> nat) returns (x: Index)
    requires ValidCapacity(orderMapCap) && ValidCapacity(levelMapCap)
    ensures BlankIndex(x) && fresh(x.Repr) && (forall o :: o in x.Repr ==> allocated(o))
    ensures x.orderMap.Fresh(orderMapCap, hashId) && x.bidMap.Fresh(levelMapCap, hashPrice) && x.askMap.Fresh(levelMapCap, hashPrice)
  {
    hide HashMap.Valid, HashMap.Fresh;
    x := new Index(orderMapCap, levelMapCap, hashId, hashPrice);
  }

  /** A book with the given capacities, everything empty. */
  method CreateBook(orders: nat, levels: nat, orderMapCap: nat, levelMapCap: nat, hashId: nat -> nat, hashPrice: int -> nat)
    returns (b: OrderBook)
    requires 0 < orders <= orderMapCap && 0 < levels <= levelMapCap
    requires ValidCapacity(orderMapCap) && ValidCapacity(levelMapCap)
    ensures b.Valid() && b.Value() == EMPTY_BOOK && fresh(b.Repr) && b.chains.nO == orders && b.chains.nL == levels
    ensures b.index.orderMap.Fresh(orderMapCap, hashId)
    ensures b.index.bidMap.Fresh(levelMapCap, hashPrice) && b.index.askMap.Fresh(levelMapCap, hashPrice)
  {
    hide HashMap.Valid, HashMap.Fresh, BlankPools, BlankChains, BlankIndex, OrderBook.Valid, OrderBook.Value;
    var p := NewPools(orders, levels);
    var c := NewChains(orders, levels);
    assert BlankPools(p) && p.Repr !! c.Repr;
    var x := NewIndex(orderMapCap, levelMapCap, hashId, hashPrice);
    assert BlankPools(p) && BlankChains(c) && p.Repr !! x.Repr && c.Repr !! x.Repr;
    b := new OrderBook(p, c, x);
  }

  class OrderBook {
    const pools: Pools
    const chains: Chains
    const index: Index

    /** Everything the book owns. */
    ghost const Repr: set<object>

    /** The parts share no memory and agree on the pool sizes. */
    ghost predicate Assembled() {
      && Repr == pools.Repr + chains.Repr + index.Repr && pools.Owns() && chains.Owns() && index.Owns()
      && pools.Repr !! chains.Repr && pools.Repr !! index.Repr && chains.Repr !! index.Repr
      && chains.nO == pools.orderFree.capacity && chains.nL == pools.levelFree.capacity
    }

    /** Every part is sound on its own. */
    ghost predicate Plumbing()
      reads Repr
    {
      Assembled() && pools.Valid() && chains.Valid() && index.Valid()
    }

    /** The whole memory as one value. */
    ghost function Memory(): View
      requires Assembled()
      reads Repr
    {
      View(pools.orderKeys[..], pools.qtys[..], pools.owners[..], chains.queue, index.orderMap.contents, pools.orderFree.free,
           pools.levelKeys[..], pools.totals[..], chains.bids, chains.asks, index.bidMap.contents, index.askMap.contents,
           pools.levelFree.free)
    }

    lemma {:induction false} MemorySizes()
      requires Plumbing()
      ensures Memory().Sizes()
    {
    }

    ghost predicate Valid()
      reads Repr
    {
      Assembled() && Plumbing() && Memory().Inv() && WellFormed(Memory().Abs())
    }

    lemma {:induction false} Whole()
      requires Valid()
      ensures Assembled()
    {
    }

    /** The book as a value. */
    ghost function Value(): Book
      requires Valid()
      reads Repr
    {
      Memory().Abs()
    }

    /** How worn its maps are. */
    ghost function Wear(): BookWear
      requires Valid()
      reads Repr
    {
      index.Wear()
    }

    /** Binds the parts carved out of the caller's storage. */
    constructor (p: Pools, c: Chains, x: Index)
      requires BlankPools(p) && BlankChains(c) && BlankIndex(x)
      requires p.Repr !! c.Repr && p.Repr !! x.Repr && c.Repr !! x.Repr
      requires c.nO == p.orderFree.capacity && c.nL == p.levelFree.capacity
      ensures Valid() && Value() == EMPTY_BOOK && pools == p && chains == c && index == x && Repr == p.Repr + c.Repr + x.Repr
    {
      pools, chains, index := p, c, x;
      Repr := p.Repr + c.Repr + x.Repr;
      new;
      EmptyMemory(Memory());
    }

    // -------------------------------------------------------------------------
    // Pieces of the operations
    // -------------------------------------------------------------------------

    /** Takes order o out of its level's queue and its quantity off the level's total. */
    method UnlinkOrder(o: nat, j: nat, ghost k: nat)
      requires Plumbing() && o < chains.nO && j < chains.nL && k < |chains.queue[j]| && chains.queue[j][k] == o
      modifies chains.Repr, pools.totals
      ensures Plumbing()
      ensures var v := old(Memory());
              Memory() == v.(queue := v.queue[j := RemoveAt(v.queue[j], k)],
                             total := v.total[j := Sub32(v.total[j], v.qty[o])])
    {
      hide HashMap.Valid, IndexFreeStack.Valid, ListArena.Valid, Wired;
      chains.EraseOrder(j, o, k);
      pools.totals[j] := Sub32(pools.totals[j], pools.qtys[o]);
    }

    /** Takes level j off its ladder and out of its map. */
    method UnlistLevel(side: Side, price: int, j: nat, ghost i: nat)
      requires Plumbing() && i < |chains.Ladder(side)| && chains.Ladder(side)[i] == j
      modifies chains.Repr, index.Repr
      ensures Plumbing()
      ensures var v := old(Memory());
              Memory() == v.WithLadder(side, RemoveAt(v.Ladder(side), i))
                           .WithLevelMap(side, v.LevelMap(side) - {price})
      ensures index.Wear() == old(index.Wear())
    {
      hide HashMap.Valid, IndexFreeStack.Valid, ListArena.Valid, Wired, Index.Wear;
      chains.EraseLevel(side, j, i);
      var _ := index.EraseLevel(side, price);
    }

    /** Retires level j, already emptied, from its ladder, its map and its pool. */
    method RemoveLevel(j: nat, ghost i: nat)
      requires Plumbing() && j < chains.nL && j !in pools.levelFree.free
      requires i < |chains.Ladder(pools.levelKeys[j].side)| && chains.Ladder(pools.levelKeys[j].side)[i] == j
      modifies chains.Repr, index.Repr, pools.levelFree, pools.levelFree.indices
      ensures Plumbing()
      ensures Memory() == Retire(old(Memory()), j, i)
      ensures index.Wear() == old(index.Wear())
    {
      hide HashMap.Valid, IndexFreeStack.Valid, ListArena.Valid, Wired, Index.Wear;
      UnlistLevel(pools.levelKeys[j].side, pools.levelKeys[j].price, j, i);
      pools.FreeLevel(j);
    }

    method ForgetOrder(o: nat)
      requires Plumbing() && o < chains.nO && o !in pools.orderFree.free
      modifies index.orderMap, index.orderMap.slots, pools.orderFree, pools.orderFree.indices, pools.owners
      ensures Plumbing()
      ensures var v := old(Memory());
              Memory() == v.(orderMap := v.orderMap - {v.orders[o].id}, orderFree := v.orderFree + {o},
                             owner := v.owner[o := NULL])
      ensures index.Wear() == old(index.Wear())
    {
      hide HashMap.Valid, IndexFreeStack.Valid, ListArena.Valid, Wired, Index.Wear;
      var _ := index.EraseOrder(pools.orderKeys[o].id);
      pools.FreeOrder(o);
    }

    /** Order o leaves the book: queue, level if emptied, map, pool. */
    method TakeOut(o: nat, ghost j: nat, ghost k: nat, ghost i: nat)
      requires Plumbing() && o < chains.nO && Holds(Memory(), pools.orderKeys[o].id, o, j, k, i)
      modifies Repr
      ensures Plumbing()
      ensures Memory() == Drop(old(Memory()), o, j, k, i)
      ensures index.Wear() == old(index.Wear())
    {
      hide HashMap.Valid, IndexFreeStack.Valid, ListArena.Valid, Wired, Chains.Valid, Drop, Retire, Index.Wear;
      ghost var v := Memory();
      var level := pools.owners[o];
      UnlinkOrder(o, level, k);
      ghost var u := Memory();
      if chains.QueueEmpty(level) {
        RemoveLevel(level, i);
      }
      ghost var r := Memory();
      DropInSteps(v, u, r, o, j, k, i);
      ForgetOrder(o);
    }

    /** Walks the ladder from the best level to the first one that level j's price beats. */
    method FindRank(side: Side, j: nat) returns (h: nat, ghost k: nat)
      requires Plumbing() && j < chains.nL
      ensures Plumbing() && k <= |chains.Ladder(side)|
      ensures h == if k < |chains.Ladder(side)| then LevelAddr(chains.nO, chains.Ladder(side)[k])
                   else SideAddr(chains.nO, chains.nL, side)
      ensures RanksAt(Memory().levels, side, chains.Ladder(side), j, k)
    {
      hide HashMap.Valid, IndexFreeStack.Valid, ListArena.Valid, Wired;
      var price := pools.levelKeys[j].price;
      h := chains.FirstHook(side);
      k := 0;
      while h != SideAddr(chains.nO, chains.nL, side)
        invariant k <= |chains.Ladder(side)|
        invariant h == if k < |chains.Ladder(side)| then LevelAddr(chains.nO, chains.Ladder(side)[k])
                       else SideAddr(chains.nO, chains.nL, side)
        invariant forall n :: 0 <= n < k ==> !Better(side, price, pools.levelKeys[chains.Ladder(side)[n]].price)
        decreases |chains.Ladder(side)| - k
      {
        var cur := h - chains.nO;
        if Better(side, price, pools.levelKeys[cur].price) {
          break;
        }
        h := chains.NextHook(side, cur, k);
        k := k + 1;
      }
    }

    /** Links level j into its ladder where its price ranks. */
    method InsertLevelSorted(side: Side, j: nat) returns (ghost k: nat)
      requires Plumbing() && j < chains.nL && j !in chains.bids && j !in chains.asks
      modifies chains.Repr
      ensures Plumbing()
      ensures var v := old(Memory());
              && k <= |v.Ladder(side)|
              && Memory() == v.WithLadder(side, InsertAt(v.Ladder(side), k, j))
              && RanksAt(v.levels, side, v.Ladder(side), j, k)
    {
      hide HashMap.Valid, IndexFreeStack.Valid, ListArena.Valid, Wired, RanksAt;
      var h;
      h, k := FindRank(side, j);
      chains.InsertLevel(side, j, h, k);
    }

    /** A level at this price exists, or one can be opened. */
    ghost predicate LevelAvailable(side: Side, price: int)
      requires Plumbing()
      reads Repr
    {
      price in index.LevelMap(side).contents ||
      (pools.levelFree.free != {} && !index.LevelMap(side).Refuses(price))
    }

    /** A side with as many levels as its map's load cap admits takes no new price, however many
        levels are free and whatever the hash: a map of four slots takes two levels. */
    lemma {:induction false} LevelMapRefuses(side: Side, price: int)
      requires Valid() && |Value().Ladder(side)| == index.LevelMap(side).maxLoad
      requires forall i :: 0 <= i < |Value().Ladder(side)| ==> Value().Ladder(side)[i].price != price
      ensures !LevelAvailable(side, price)
    {
      hide HashMap.Valid, HashMap.Refuses, WellFormed, OrdersOk, TotalsOk;
      var v := Memory();
      LevelMapSize(v, side);
      index.LevelMap(side).FullRefuses(price);
      if price in v.LevelMap(side) {
        MappedPrice(v, side, price);
      }
    }

    /** Neither does a side whose map is at its load cap through tombstones, for a price whose path
        begins with an empty slot. */
    lemma {:induction false} TombstonesRefuse(side: Side, price: int)
      requires Valid() && price !in index.LevelMap(side).contents && index.LevelMap(side).capacity != 0
      requires Wear().Levels(side).load >= index.LevelMap(side).maxLoad
      requires index.LevelMap(side).Home(price) in Wear().Levels(side).vacant
      ensures !LevelAvailable(side, price)
    {
      hide HashMap.Valid, HashMap.Refuses, HashMap.Home, View.Inv, View.Abs, WellFormed;
      index.LevelMap(side).EmptyBucketRefused(price);
    }

    /** Enters an allocated level in its map, or gives its slot back when the map refuses. */
    method MapLevel(side: Side, price: int, j: nat) returns (ok: bool)
      requires Plumbing() && price !in index.LevelMap(side).contents && j < chains.nL && j !in pools.levelFree.free
      modifies pools.levelFree, pools.levelFree.indices, index.Repr
      ensures Plumbing() && ok == !old(index.LevelMap(side).Refuses(price))
      ensures var v := old(Memory());
              Memory() == if ok then v.WithLevelMap(side, v.LevelMap(side)[price := j]) else v.(levelFree := v.levelFree + {j})
      ensures !ok ==> index.LevelMap(side).Refuses(price)
      ensures Adds(old(index.Wear()), index.Wear(), side) && index.Wear().orders == old(index.Wear()).orders
      ensures if ok then TakesHome(old(index.Wear()).Levels(side), index.Wear().Levels(side), index.LevelMap(side).Home(price))
              else index.Wear() == old(index.Wear())
    {
      hide HashMap.Valid, IndexFreeStack.Valid, Chains.Valid, Chains.Owns, HashMap.Refuses;
      hide Index.Wear, TakesHome, Adds, HashMap.Home;
      ok := index.InsertLevel(side, price, j);
      if !ok {
        pools.FreeLevel(j);
      }
    }

    /** Gives a free level slot a price and enters it in its map. The pool may be exhausted or
        the map may refuse; then the slot goes back and nothing but its contents changed. */
    method RegisterLevel(side: Side, price: int) returns (ok: bool, j: nat)
      requires Plumbing() && price !in index.LevelMap(side).contents
      modifies pools.levelFree, pools.levelFree.indices, pools.levelKeys, pools.totals, index.Repr
      ensures Plumbing()
      ensures ok == old(LevelAvailable(side, price))
      ensures ok ==> j in old(pools.levelFree.free) && j < chains.nL
      ensures var v := old(Memory());
              ok ==> Memory() == v.(levels := v.levels[j := LevelKey(price, side)], total := v.total[j := 0],
                                    levelFree := v.levelFree - {j})
                                  .WithLevelMap(side, v.LevelMap(side)[price := j])
      ensures !ok ==> SameButFreeLevels(old(Memory()), Memory()) && !LevelAvailable(side, price)
      ensures Adds(old(index.Wear()), index.Wear(), side) && index.Wear().orders == old(index.Wear()).orders
      ensures if ok then TakesHome(old(index.Wear()).Levels(side), index.Wear().Levels(side), index.LevelMap(side).Home(price))
              else index.Wear() == old(index.Wear())
    {
      hide HashMap.Valid, IndexFreeStack.Valid, Chains.Valid, Chains.Owns, HashMap.Refuses, SameButFreeLevels;
      hide Index.Wear, TakesHome, Adds, HashMap.Home;
      MemorySizes();
      AddsNone(index.Wear(), side);
      ghost var v := Memory();
      ok, j := pools.AllocLevel(LevelKey(price, side));
      if !ok {
        SameReflexive(v);
        return;
      }
      FreeLevelSame(v, j, LevelKey(price, side));
      ok := MapLevel(side, price, j);
    }

    /** Opens a level at a price that has none and ranks it into the ladder. */
    method OpenLevel(side: Side, price: int) returns (ok: bool, j: nat, ghost k: nat)
      requires Plumbing() && LaddersOk(Memory()) && price !in index.LevelMap(side).contents
      modifies pools.levelFree, pools.levelFree.indices, pools.levelKeys, pools.totals, chains.Repr, index.Repr
      ensures Plumbing()
      ensures ok == old(LevelAvailable(side, price))
      ensures ok ==> Supplied(old(Memory()), Memory(), side, price, j, true, k)
      ensures !ok ==> SameButFreeLevels(old(Memory()), Memory()) && !LevelAvailable(side, price)
      ensures Adds(old(index.Wear()), index.Wear(), side) && index.Wear().orders == old(index.Wear()).orders
      ensures if ok then TakesHome(old(index.Wear()).Levels(side), index.Wear().Levels(side), index.LevelMap(side).Home(price))
              else index.Wear() == old(index.Wear())
    {
      hide HashMap.Valid, IndexFreeStack.Valid, ListArena.Valid, Wired, LevelMapOk, HashMap.Refuses, Index.Wear;
      hide TakesHome, Adds, HashMap.Home;
      k := 0;
      ok, j := RegisterLevel(side, price);
      if ok {
        k := InsertLevelSorted(side, j);
      }
    }

    /** The level at a price: the existing one, or a new one ranked into the ladder. */
    method FindOrCreateLevel(side: Side, price: int) returns (ok: bool, j: nat, ghost created: bool, ghost k: nat)
      requires Plumbing() && LaddersOk(Memory())
      modifies pools.levelFree, pools.levelFree.indices, pools.levelKeys, pools.totals, chains.Repr, index.Repr
      ensures Plumbing()
      ensures ok == old(LevelAvailable(side, price)) && created == (price !in old(index.LevelMap(side).contents))
      ensures ok ==> Supplied(old(Memory()), Memory(), side, price, j, created, k)
      ensures !ok ==> SameButFreeLevels(old(Memory()), Memory()) && !LevelAvailable(side, price)
      ensures Adds(old(index.Wear()), index.Wear(), side) && index.Wear().orders == old(index.Wear()).orders
      ensures if ok && created then
                TakesHome(old(index.Wear()).Levels(side), index.Wear().Levels(side), index.LevelMap(side).Home(price))
              else index.Wear() == old(index.Wear())
    {
      hide HashMap.Valid, IndexFreeStack.Valid, Chains.Valid, LaddersOk, Index.Wear, TakesHome, HashMap.Home;
      var found := index.FindLevel(side, price);
      k, created := 0, false;
      if found.Some? {
        return true, found.value, false, 0;
      }
      created := true;
      ok, j, k := OpenLevel(side, price);
    }

    /** Enters an allocated slot in the order map, or gives it back when the map refuses. */
    method MapOrder(id: nat, o: nat, ghost side: Side, ghost price: int) returns (ok: bool)
      requires Plumbing() && id !in index.orderMap.contents && o < chains.nO && o !in pools.orderFree.free
      modifies pools.orderFree, pools.orderFree.indices, pools.owners, index.orderMap, index.orderMap.slots
      ensures Plumbing() && ok == !old(index.orderMap.Refuses(id))
      ensures var v := old(Memory());
              Memory() == if ok then v.(orderMap := v.orderMap[id := o])
                          else v.(orderFree := v.orderFree + {o}, owner := v.owner[o := NULL])
      ensures LevelAvailable(side, price) == old(LevelAvailable(side, price))
      ensures !ok ==> index.orderMap.Refuses(id)
      ensures Spends(old(index.Wear()).orders, index.Wear().orders)
      ensures index.Wear() == old(index.Wear()).(orders := index.Wear().orders)
    {
      hide HashMap.Valid, IndexFreeStack.Valid, Chains.Valid, Chains.Owns, HashMap.Refuses, Index.Wear, Spends;
      ok := index.InsertOrder(id, o);
      if !ok {
        pools.FreeOrder(o);
      }
    }

    /** Gives a free order slot its contents and enters it in the order map. The pool may be
        exhausted or the map may refuse; then the slot goes back. */
    method RegisterOrder(id: nat, side: Side, price: int, qty: nat) returns (ok: bool, o: nat)
      requires Plumbing() && id !in index.orderMap.contents
      modifies pools.orderFree, pools.orderFree.indices, pools.orderKeys, pools.qtys, pools.owners
      modifies index.orderMap, index.orderMap.slots
      ensures Plumbing()
      ensures ok == (old(pools.orderFree.free) != {} && !old(index.orderMap.Refuses(id)))
      ensures ok ==> o in old(pools.orderFree.free) && o < chains.nO
      ensures ok ==> NewlyRegistered(old(Memory()), Memory(), o, OrderKey(id, price, side), qty)
      ensures !ok ==> SameButFree(old(Memory()), Memory()) && (pools.orderFree.free == {} || index.orderMap.Refuses(id))
      ensures LevelAvailable(side, price) == old(LevelAvailable(side, price))
      ensures Spends(old(index.Wear()).orders, index.Wear().orders)
      ensures index.Wear() == old(index.Wear()).(orders := index.Wear().orders)
    {
      hide HashMap.Valid, IndexFreeStack.Valid, Chains.Valid, Chains.Owns, HashMap.Refuses, SameButFree, Index.Wear;
      MemorySizes();
      AddsNone(index.Wear(), side);
      ghost var v := Memory();
      ok, o := pools.AllocOrder(OrderKey(id, price, side), qty);
      if !ok {
        SameReflexive(v);
        return;
      }
      FreeSlotSame(v, o, OrderKey(id, price, side), qty);
      ok := MapOrder(id, o, side, price);
    }

    /** Appends order o to level j's queue and adds its quantity to the level's total. */
    method Enqueue(o: nat, j: nat)
      requires Plumbing() && o < chains.nO && j < chains.nL
      requires forall i :: 0 <= i < chains.nL ==> o !in chains.queue[i]
      modifies pools.owners, pools.totals, chains.Repr
      ensures Plumbing()
      ensures var v := old(Memory());
              Memory() == v.(owner := v.owner[o := j], queue := v.queue[j := v.queue[j] + [o]],
                             total := v.total[j := Wrap32(v.total[j] + v.qty[o])])
    {
      hide HashMap.Valid, IndexFreeStack.Valid, ListArena.Valid, Wired;
      pools.owners[o] := j;
      chains.PushOrder(j, o);
      pools.totals[j] := Wrap32(pools.totals[j] + pools.qtys[o]);
    }

    // -------------------------------------------------------------------------
    // Operations
    // -------------------------------------------------------------------------

    /** Slot and position of the order with an id, if it rests. */
    method FindOrder(id: nat) returns (r: Option<nat>, ghost j: nat, ghost k: nat, ghost i: nat)
      requires Valid()
      ensures Valid() && r.Some? == (id in BookIds(Value()))
      ensures r.Some? ==> Holds(Memory(), id, r.value, j, k, i)
    {
      hide HashMap.Valid, IndexFreeStack.Valid, Chains.Valid, View.Inv, WellFormed;
      ghost var v := Memory();
      MapIsIds(v, id);
      r := index.orderMap.Find(id);
      j, k, i := 0, 0, 0;
      if r.Some? {
        j, k, i := Locate(v, id);
      }
    }

    /** Cancels an order by id; false exactly when no such order rests. */
    method CancelOrder(id: nat) returns (ok: bool)
      requires Valid()
      modifies Repr
      ensures Valid()
      ensures ok == (id in BookIds(old(Value())))
      ensures Value() == CancelBook(old(Value()), id)
      ensures Wear() == old(Wear())
    {
      hide HashMap.Valid, IndexFreeStack.Valid, Chains.Valid, OrderMapOk, QueuesOk, KeysOk, TotalsOk, LaddersOk;
      hide WellFormed, Index.Wear;
      ghost var v := Memory();
      var found, j, k, i := FindOrder(id);
      if found.None? {
        CancelAbsentBook(v.Abs(), id);
        return false;
      }
      TakeOut(found.value, j, k, i);
      DropValid(v, found.value, j, k, i);
      return true;
    }

    /** Gives a registered slot back. */
    method Unregister(o: nat, ghost side: Side, ghost price: int)
      requires Plumbing() && o < chains.nO && o !in pools.orderFree.free
      modifies index.orderMap, index.orderMap.slots, pools.orderFree, pools.orderFree.indices, pools.owners
      ensures Plumbing() && LevelAvailable(side, price) == old(LevelAvailable(side, price))
      ensures var v := old(Memory());
              Memory() == v.(orderMap := v.orderMap - {v.orders[o].id}, orderFree := v.orderFree + {o},
                             owner := v.owner[o := NULL])
      ensures index.Wear() == old(index.Wear())
    {
      hide HashMap.Valid, IndexFreeStack.Valid, Chains.Valid, Chains.Owns, HashMap.Refuses, Index.Wear;
      ForgetOrder(o);
    }

    /** Finishes adding the order registered in slot o: finds or opens its level and joins the
        queue there, or gives the slot back when no level can be had. */
    method Settle(o: nat, key: OrderKey, ghost qty: nat, ghost v: View) returns (ok: bool)
      requires Plumbing() && v.Inv() && WellFormed(v.Abs()) && o in v.orderFree && o < |v.orders|
      requires key.id !in v.orderMap && 0 < qty < U32 && Memory() == Registered(v, o, key, qty)
      modifies Repr
      ensures Plumbing()
      ensures ok == old(LevelAvailable(key.side, key.price))
      ensures if ok then Rests(v, Memory(), key, qty)
              else SameButFree(v, Memory()) && !LevelAvailable(key.side, key.price)
      ensures Adds(old(index.Wear()), index.Wear(), key.side) && index.Wear().orders == old(index.Wear()).orders
      ensures ok && key.price !in v.LevelMap(key.side) ==>
                TakesHome(old(index.Wear()).Levels(key.side), index.Wear().Levels(key.side), index.LevelMap(key.side).Home(key.price))
      ensures !ok || key.price in v.LevelMap(key.side) ==> index.Wear() == old(index.Wear())
    {
      hide HashMap.Valid, IndexFreeStack.Valid, Chains.Valid, Chains.Owns, HashMap.Refuses, LevelAvailable, Index.Wear;
      hide TakesHome, Adds, HashMap.Home;
      hide OrdersOk, TotalsOk, LaddersOk, WellFormed, View.Abs, Supplied, SameButFree, SameButFreeLevels, Rests;
      RegisteredLadders(v, o, key, qty);
      var j;
      ghost var created, k;
      ok, j, created, k := FindOrCreateLevel(key.side, key.price);
      if !ok {
        Unregistered(v, o, key, qty, Memory());
        Unregister(o, key.side, key.price);
        return;
      }
      AddedValid(v, o, key, qty, Memory(), j, created, k);
      UnqueuedFree(v, o);
      Enqueue(o, j);
    }

    /** Some order slot is free unless as many orders rest as there are slots. */
    lemma {:induction false} OrderSlotFree()
      requires Valid() && |index.orderMap.contents| < chains.nO
      ensures pools.orderFree.free != {}
    {
      hide HashMap.Valid, IndexFreeStack.Valid, Chains.Valid, TotalsOk, LaddersOk, OrderMapOk, QueuesOk, KeysOk;
      hide WellFormed, View.Abs;
      if pools.orderFree.free == {} {
        SlotsCovered(Memory());
      }
    }

    /** Some level slot is free unless as many levels are in use as there are slots. */
    lemma {:induction false} LevelSlotFree()
      requires Valid() && |index.bidMap.contents| + |index.askMap.contents| < chains.nL
      ensures pools.levelFree.free != {}
    {
      hide HashMap.Valid, IndexFreeStack.Valid, Chains.Valid, TotalsOk, OrdersOk, LaddersOk, WellFormed, View.Abs;
      if pools.levelFree.free == {} {
        LevelsCovered(Memory());
      }
    }

    /** A book whose maps are little worn takes any order. */
    lemma {:induction false} RoomRests(id: nat, side: Side, price: int)
      requires Valid() && Ample(side)
      ensures CanRest(id, side, price)
    {
      hide HashMap.Valid, View.Inv, WellFormed, View.Abs;
      OrderSlotFree();
      LevelSlotFree();
      index.orderMap.RoomRefusesNothing(id);
      index.LevelMap(side).RoomRefusesNothing(price);
    }

    /** Fewer slots of the maps are in use than their load caps, and there are orders and levels to
        give out. */
    ghost predicate Ample(side: Side)
      requires Assembled()
      reads Repr
    {
      && index.orderMap.capacity != 0 && index.LevelMap(side).capacity != 0
      && index.orderMap.Load() < index.orderMap.maxLoad && |index.orderMap.contents| < chains.nO
      && index.LevelMap(side).Load() < index.LevelMap(side).maxLoad
      && |index.bidMap.contents| + |index.askMap.contents| < chains.nL
    }

    /** Few slots in use mean few orders and levels. */
    lemma {:induction false} LightlyWorn(side: Side)
      requires Valid() && index.orderMap.capacity != 0 && index.LevelMap(side).capacity != 0
      requires index.orderMap.Load() < Min(index.orderMap.maxLoad, chains.nO)
      requires index.LevelMap(side).Load() < index.LevelMap(side).maxLoad
      requires index.bidMap.Load() + index.askMap.Load() < chains.nL
      ensures Assembled() && Ample(side)
    {
      hide HashMap.Valid, IndexFreeStack.Valid, Chains.Valid, View.Inv, WellFormed, View.Abs;
      index.orderMap.LoadCoversKeys();
      index.bidMap.LoadCoversKeys();
      index.askMap.LoadCoversKeys();
    }

    /** An empty book has empty maps. */
    lemma {:induction false} EmptyMaps()
      requires Valid() && Value() == EMPTY_BOOK
      ensures index.orderMap.contents == map[] && index.bidMap.contents == map[] && index.askMap.contents == map[]
    {
      hide HashMap.Valid, IndexFreeStack.Valid, Chains.Valid, WellFormed;
      NothingMapped(Memory());
    }

    /** The pools and maps have room for one more order at this price. */
    ghost predicate CanRest(id: nat, side: Side, price: int)
      requires Plumbing()
      reads Repr
    {
      pools.orderFree.free != {} && !index.orderMap.Refuses(id) && LevelAvailable(side, price)
    }

    /** Adds a resting order behind the others at its price. Refused, leaving the book as it
        was, exactly for a zero quantity, an id that already rests, or lack of room; a lack of
        room is there still after the call. */
    method AddOrder(id: nat, side: Side, price: int, qty: nat) returns (ok: bool)
      requires Valid() && qty < U32
      modifies Repr
      ensures Valid()
      ensures ok == (qty != 0 && id !in BookIds(old(Value())) && old(CanRest(id, side, price)))
      ensures !ok && qty != 0 && id !in BookIds(old(Value())) ==> !CanRest(id, side, price)
      ensures Value() ==
              if ok then old(Value()).WithLadder(side, Rest(side, old(Value()).Ladder(side), price, Order(id, qty)))
              else old(Value())
      ensures Adds(old(Wear()), Wear(), side)
      ensures if ok && price !in old(index.LevelMap(side).contents) then
                TakesHome(old(Wear()).Levels(side), Wear().Levels(side), index.LevelMap(side).Home(price))
              else Wear().Levels(side) == old(Wear()).Levels(side)
    {
      hide HashMap.Valid, IndexFreeStack.Valid, Chains.Valid, HashMap.Refuses, LevelAvailable, Index.Wear, TakesHome;
      hide HashMap.Home;
      hide OrdersOk, TotalsOk, LaddersOk, WellFormed, View.Abs, BookIds, SameButFree;
      if qty == 0 {
        return false;
      }
      ghost var v := Memory();
      MapIsIds(v, id);
      var found := index.orderMap.Find(id);
      if found.Some? {
        return false;
      }
      var o;
      ok, o := RegisterOrder(id, side, price, qty);
      if ok {
        ok := Settle(o, OrderKey(id, price, side), qty, v);
      }
      if !ok {
        ScribbleInv(v, Memory());
      }
    }

    /** Drops an order that has nothing left; true when its level went with it. */
    method RemoveFilledOrder(o: nat, ghost j: nat, ghost k: nat, ghost i: nat) returns (emptied: bool)
      requires Plumbing() && o < chains.nO && Holds(Memory(), pools.orderKeys[o].id, o, j, k, i)
      modifies Repr
      ensures Plumbing()
      ensures Memory() == Drop(old(Memory()), o, j, k, i)
      ensures emptied == (old(chains.queue[j]) == [o])
      ensures index.Wear() == old(index.Wear())
    {
      hide HashMap.Valid, IndexFreeStack.Valid, ListArena.Valid, Wired, Index.Wear;
      var level := pools.owners[o];
      UnlinkOrder(o, level, k);
      ForgetOrder(o);
      emptied := chains.QueueEmpty(level);
      if emptied {
        RemoveLevel(level, i);
      }
    }

    /** Takes quantity f off order o in front of level j, dropping the order when nothing is
        left of it; true when the level went with it. */
    method ReduceFront(j: nat, o: nat, f: nat) returns (emptied: bool)
      requires Plumbing() && Leads(Memory(), j) && chains.queue[j][0] == o && f <= pools.qtys[o]
      requires Holds(Memory(), pools.orderKeys[o].id, o, j, 0, 0)
      modifies Repr
      ensures Plumbing()
      ensures Memory() == Filled(old(Memory()), j, f)
      ensures emptied == (f == old(pools.qtys[o]) && old(chains.queue[j]) == [o])
      ensures index.Wear() == old(index.Wear())
    {
      hide HashMap.Valid, IndexFreeStack.Valid, Chains.Valid, Index.Wear;
      ghost var v := Memory();
      pools.qtys[o] := pools.qtys[o] - f;
      pools.totals[j] := Sub32(pools.totals[j], f);
      emptied := false;
      assert Memory() == SetQty(v, o, j, v.qty[o] - f);
      if pools.qtys[o] == 0 {
        emptied := RemoveFilledOrder(o, j, 0, 0);
      }
    }

    /** A trade of f with the first order of the best level: the front of the book is filled. */
    method FillResting(j: nat, o: nat, f: nat, ghost left: nat) returns (emptied: bool)
      requires Valid() && Leads(Memory(), j) && chains.queue[j][0] == o && f == Min(left, pools.qtys[o])
      modifies Repr
      ensures Valid()
      ensures var v := old(Memory());
              Traded(v.Abs(), Value(), v.levels[j].side, left, v.orders[o].id, v.levels[j].price, f)
      ensures !emptied ==> Leads(Memory(), j) && pools.levelKeys[..] == old(pools.levelKeys[..])
      ensures index.Wear() == old(index.Wear())
    {
      hide HashMap.Valid, IndexFreeStack.Valid, Chains.Valid, OrdersOk, TotalsOk, LaddersOk, WellFormed, View.Abs;
      hide Filled, FillFront, Index.Wear;
      ghost var v := Memory();
      FrontHolds(v, j);
      FilledAbs(v, j, f);
      FilledWellFormed(v.Abs(), v.levels[j].side, f);
      emptied := ReduceFront(j, o, f);
      if !emptied {
        StillLeads(v, j, f);
      }
    }

    /** A side has nothing resting. */
    method SideEmpty(side: Side) returns (r: bool)
      requires Valid()
      ensures Valid() && r == (Value().Ladder(side) == [])
    {
      hide HashMap.Valid, IndexFreeStack.Valid, ListArena.Valid, Wired, View.Inv, WellFormed;
      r := chains.LadderEmpty(side);
    }

    /** Level j is the best of a side, at this price. */
    ghost predicate Facing(j: nat, side: Side, price: int)
      requires Valid()
      reads Repr
    {
      Leads(Memory(), j) && pools.levelKeys[j] == LevelKey(price, side)
    }

    /** The best level of a side and its price. */
    method BestLevel(side: Side) returns (j: nat, price: int)
      requires Valid() && Value().Ladder(side) != []
      ensures Valid() && Facing(j, side, price) && price == Value().Ladder(side)[0].price
    {
      hide HashMap.Valid, IndexFreeStack.Valid, ListArena.Valid, Wired, OrdersOk, TotalsOk, LaddersOk, WellFormed, Leads;
      BestLeads(Memory(), side);
      j := chains.FirstHook(side) - chains.nO;
      price := pools.levelKeys[j].price;
    }

    method FrontOrder(j: nat) returns (o: nat)
      requires Valid() && Leads(Memory(), j)
      ensures Valid() && o == chains.queue[j][0]
    {
      hide HashMap.Valid, IndexFreeStack.Valid, ListArena.Valid, Wired, View.Inv, WellFormed;
      o := chains.FirstOrder(j);
    }

    /** A taker wanting `left` trades with the front order of the best level, at that level's
        price and for no more than the maker has. */
    method TradeFront(j: nat, left: nat, ghost side: Side, ghost price: int)
      returns (maker: nat, execPrice: int, f: nat, emptied: bool)
      requires Valid() && Facing(j, side, price)
      modifies Repr
      ensures Valid() && execPrice == price
      ensures Traded(old(Value()), Value(), side, left, maker, price, f)
      ensures !emptied ==> Facing(j, side, price)
      ensures Wear() == old(Wear())
    {
      hide HashMap.Valid, IndexFreeStack.Valid, Chains.Valid, View.Inv, WellFormed, View.Abs, FillFront, Index.Wear;
      var o := FrontOrder(j);
      maker, execPrice, f := pools.orderKeys[o].id, pools.levelKeys[j].price, Min(left, pools.qtys[o]);
      emptied := FillResting(j, o, f, left);
    }

    /** Quantity resting under an id, 0 when it does not rest. */
    method OrderQty(id: nat) returns (q: nat)
      requires Valid()
      ensures Valid() && q == BookQty(Value(), id)
    {
      hide HashMap.Valid, IndexFreeStack.Valid, Chains.Valid, View.Inv, WellFormed, View.Abs;
      var found, j, k, i := FindOrder(id);
      if found.None? {
        BookQtyAbsent(Value(), id);
        return 0;
      }
      HeldOrder(Memory(), id, found.value, j, k, i);
      q := pools.qtys[found.value];
    }

    /** Quantity resting at a price, as the 32-bit counter holds it. */
    method VolumeAt(side: Side, price: int) returns (q: nat)
      requires Valid()
      ensures Valid() && q == SumQty(OrdersAt(Value().Ladder(side), price)) % U32
    {
      hide HashMap.Valid, IndexFreeStack.Valid, Chains.Valid, View.Inv, WellFormed, View.Abs;
      var found := index.FindLevel(side, price);
      if found.None? {
        NoVolume(Memory(), side, price);
        return 0;
      }
      VolumeOfLevel(Memory(), side, price);
      q := pools.totals[found.value];
    }

    /** Best price of a side and the quantity resting at it, if anything rests there. */
    method BestQuote(side: Side) returns (r: Option<(int, nat)>)
      requires Valid()
      ensures Valid()
      ensures var L := Value().Ladder(side);
              r == if L == [] then None else Some((L[0].price, SumQty(L[0].orders) % U32))
    {
      hide HashMap.Valid, IndexFreeStack.Valid, Chains.Valid, View.Inv, WellFormed, View.Abs;
      var empty := SideEmpty(side);
      if empty {
        return None;
      }
      var j, price := BestLevel(side);
      LeadTotal(Memory(), j);
      r := Some((price, pools.totals[j]));
    }

    /** Best price of a side, if anything rests there. */
    method BestPrice(side: Side) returns (r: Option<int>)
      requires Valid()
      ensures Valid() && r == if Value().Ladder(side) == [] then None else Some(Value().Ladder(side)[0].price)
    {
      hide HashMap.Valid, IndexFreeStack.Valid, Chains.Valid, View.Inv, WellFormed, View.Abs;
      var empty := SideEmpty(side);
      if empty {
        return None;
      }
      var _, price := BestLevel(side);
      r := Some(price);
    }

    /** Reduces an order in place, keeping its place in line, or cancels it when nothing is
        to be left. Refused exactly for an id that does not rest or a quantity that is no
        reduction. */
    method ReduceOrder(id: nat, newQty: nat) returns (ok: bool)
      requires Valid()
      modifies Repr
      ensures Valid()
      ensures ok == (newQty < BookQty(old(Value()), id))
      ensures Value() == if !ok then old(Value())
                         else if newQty == 0 then CancelBook(old(Value()), id)
                         else ResizeBook(old(Value()), id, newQty)
      ensures Wear() == old(Wear())
    {
      hide HashMap.Valid, IndexFreeStack.Valid, Chains.Valid, OrdersOk, TotalsOk, LaddersOk, WellFormed, View.Abs, Index.Wear;
      ghost var v := Memory();
      var found, j, k, i := FindOrder(id);
      if found.None? {
        BookQtyAbsent(v.Abs(), id);
        return false;
      }
      var o := found.value;
      HeldOrder(v, id, o, j, k, i);
      if newQty >= pools.qtys[o] {
        return false;
      }
      if newQty == 0 {
        TakeOut(o, j, k, i);
        DropValid(v, o, j, k, i);
        return true;
      }
      SetQtyValid(v, id, o, j, k, i, newQty);
      SetQuantity(o, newQty);
      return true;
    }

    method SetQuantity(o: nat, q: nat)
      requires Plumbing() && o < chains.nO && 0 <= pools.owners[o] < chains.nL && q <= pools.qtys[o]
      modifies pools.qtys, pools.totals
      ensures Plumbing()
      ensures Memory() == SetQty(old(Memory()), o, old(pools.owners[o]), q)
    {
      hide HashMap.Valid, IndexFreeStack.Valid, Chains.Valid;
      var j := pools.owners[o];
      var delta := pools.qtys[o] - q;
      pools.qtys[o] := q;
      pools.totals[j] := Sub32(pools.totals[j], delta);
    }

    // -------------------------------------------------------------------------
    // Clearing
    // -------------------------------------------------------------------------

    /** Takes the first order off a queue and returns its slot. */
    method DropFirst(j: nat)
      requires Plumbing() && j < chains.nL && Drains(Memory(), j) && chains.queue[j] != []
      modifies Repr
      ensures Plumbing() && Drains(Memory(), j) && |chains.queue[j]| < old(|chains.queue[j]|)
      ensures Memory() == old(Memory()).(queue := Memory().queue, orderFree := Memory().orderFree, owner := Memory().owner)
    {
      hide HashMap.Valid, IndexFreeStack.Valid, ListArena.Valid, Wired, Drains;
      PopOrderDrains(Memory(), j);
      var o := chains.FirstOrder(j);
      chains.EraseOrder(j, o, 0);
      pools.FreeOrder(o);
    }

    /** Empties the queue of level j and returns the level's slot. */
    method DrainLevel(j: nat)
      requires Plumbing() && Drains(Memory(), j)
      modifies Repr
      ensures Plumbing() && Drains(Memory(), NONE)
      ensures chains.bids == old(chains.bids) && chains.asks == old(chains.asks)
    {
      hide HashMap.Valid, IndexFreeStack.Valid, ListArena.Valid, Wired, QueuesDraining, LadderDraining;
      while true
        invariant Plumbing() && Drains(Memory(), j)
        invariant chains.bids == old(chains.bids) && chains.asks == old(chains.asks)
        decreases |chains.queue[j]|
      {
        if chains.QueueEmpty(j) {
          break;
        }
        DropFirst(j);
      }
      FreeLevelDrains(Memory(), j);
      pools.FreeLevel(j);
    }

    /** Takes levels off a side until none is left. */
    method DrainSide(side: Side)
      requires Plumbing() && Drains(Memory(), NONE)
      modifies Repr
      ensures Plumbing() && Drains(Memory(), NONE)
      ensures chains.Ladder(side) == [] && chains.Ladder(Opposite(side)) == old(chains.Ladder(Opposite(side)))
    {
      hide HashMap.Valid, IndexFreeStack.Valid, ListArena.Valid, Wired, Drains;
      while true
        invariant Plumbing() && Drains(Memory(), NONE)
        invariant chains.Ladder(Opposite(side)) == old(chains.Ladder(Opposite(side)))
        decreases |chains.Ladder(side)|
      {
        if chains.LadderEmpty(side) {
          break;
        }
        PopLevelDrains(Memory(), side);
        var j := chains.FirstHook(side) - chains.nO;
        chains.EraseLevel(side, j, 0);
        DrainLevel(j);
      }
    }

    lemma {:induction false} FreeBelow()
      requires Plumbing()
      ensures Memory().levelFree <= Below(|Memory().levels|) && Memory().orderFree <= Below(|Memory().orders|)
    {
    }

    /** Empties the book, returning every slot to its pool. */
    method Clear()
      requires Valid()
      modifies Repr
      ensures Valid() && Value() == EMPTY_BOOK
      ensures pools.orderFree.free == Below(chains.nO) && pools.levelFree.free == Below(chains.nL)
    {
      hide HashMap.Valid, IndexFreeStack.Valid, Chains.Valid, Drains, View.Inv, WellFormed;
      DrainStart(Memory());
      DrainSide(Bid);
      DrainSide(Ask);
      FreeBelow();
      MemorySizes();
      Drained(Memory());
      index.Clear();
      EmptyMemory(Memory());
    }
  }
}
