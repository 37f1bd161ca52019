/** Quantities resting in a book, by order and by level, and changing one in place. */
module Quantities {
  import opened Machine
  import opened Books
  import opened Ladders

  /** Quantity resting under an id; 0 when the id does not rest. */
  function QueueQty(os: seq<Order>, id: nat): nat {
    if os == [] then 0 else (if os[0].id == id then os[0].qty else 0) + QueueQty(os[1..], id)
  }

  function LadderQty(levels: seq<Level>, id: nat): nat {
    if levels == [] then 0 else QueueQty(levels[0].orders, id) + LadderQty(levels[1..], id)
  }

  function BookQty(b: Book, id: nat): nat {
    LadderQty(b.bids, id) + LadderQty(b.asks, id)
  }

  lemma {:induction false} QueueQtyAbsent(os: seq<Order>, id: nat)
    requires id !in QueueIds(os)
    ensures QueueQty(os, id) == 0
  {
    if os != [] {
      QueueQtyAbsent(os[1..], id);
    }
  }

  lemma {:induction false} LadderQtyAbsent(levels: seq<Level>, id: nat)
    requires id !in Ids(levels)
    ensures LadderQty(levels, id) == 0
  {
    if levels != [] {
      QueueQtyAbsent(levels[0].orders, id);
      LadderQtyAbsent(levels[1..], id);
    }
  }

  lemma {:induction false} QueueQtyAt(os: seq<Order>, k: nat)
    requires k < |os| && QueueIds(os)[os[k].id] <= 1
    ensures QueueQty(os, os[k].id) == os[k].qty
  {
    if k == 0 {
      QueueQtyAbsent(os[1..], os[0].id);
    } else {
      QueueIdAt(os[1..], k - 1);
      QueueQtyAt(os[1..], k - 1);
    }
  }

  lemma {:induction false} LadderQtyAt(levels: seq<Level>, i: nat, k: nat)
    requires i < |levels| && k < |levels[i].orders| && Ids(levels)[levels[i].orders[k].id] <= 1
    ensures LadderQty(levels, levels[i].orders[k].id) == levels[i].orders[k].qty
  {
    var id := levels[i].orders[k].id;
    if i == 0 {
      QueueIdAt(levels[0].orders, k);
      QueueQtyAt(levels[0].orders, k);
      LadderQtyAbsent(levels[1..], id);
    } else {
      IdAt(levels[1..], i - 1, k);
      QueueQtyAbsent(levels[0].orders, id);
      LadderQtyAt(levels[1..], i - 1, k);
    }
  }

  /** In a book with unique ids the quantity under an id is that of its one order. */
  lemma {:induction false} BookQtyAt(b: Book, side: Side, i: nat, k: nat)
    requires WellFormed(b) && i < |b.Ladder(side)| && k < |b.Ladder(side)[i].orders|
    ensures var o := b.Ladder(side)[i].orders[k];
            o.id in BookIds(b) && BookQty(b, o.id) == o.qty
  {
    var L, M := b.Ladder(side), b.Ladder(Opposite(side));
    var id := L[i].orders[k].id;
    IdAt(L, i, k);
    assert BookIds(b)[id] == Ids(L)[id] + Ids(M)[id];
    LadderQtyAt(L, i, k);
    LadderQtyAbsent(M, id);
  }

  lemma {:induction false} BookQtyAbsent(b: Book, id: nat)
    requires id !in BookIds(b)
    ensures BookQty(b, id) == 0
  {
    LadderQtyAbsent(b.bids, id);
    LadderQtyAbsent(b.asks, id);
  }

  // ---------------------------------------------------------------------------
  // Changing a quantity where the order stands
  // ---------------------------------------------------------------------------

  function ResizeQueue(os: seq<Order>, id: nat, qty: nat): seq<Order> {
    seq(|os|, k requires 0 <= k < |os| => if os[k].id == id then os[k].(qty := qty) else os[k])
  }

  function Resize(levels: seq<Level>, id: nat, qty: nat): seq<Level> {
    seq(|levels|, i requires 0 <= i < |levels| => levels[i].(orders := ResizeQueue(levels[i].orders, id, qty)))
  }

  function ResizeBook(b: Book, id: nat, qty: nat): Book {
    Book(Resize(b.bids, id, qty), Resize(b.asks, id, qty))
  }

  lemma {:induction false} ResizeQueueAbsent(os: seq<Order>, id: nat, qty: nat)
    requires id !in QueueIds(os)
    ensures ResizeQueue(os, id, qty) == os
  {
    forall k | 0 <= k < |os|
      ensures os[k].id != id
    {
      QueueIdAt(os, k);
    }
  }

  lemma {:induction false} ResizeAbsent(levels: seq<Level>, id: nat, qty: nat)
    requires id !in Ids(levels)
    ensures Resize(levels, id, qty) == levels
  {
    forall i | 0 <= i < |levels|
      ensures ResizeQueue(levels[i].orders, id, qty) == levels[i].orders
    {
      AbsentFromLevel(levels, i, id);
      ResizeQueueAbsent(levels[i].orders, id, qty);
    }
  }

  lemma {:induction false} AbsentFromLevel(levels: seq<Level>, i: nat, id: nat)
    requires i < |levels| && id !in Ids(levels)
    ensures id !in QueueIds(levels[i].orders)
  {
    if i > 0 {
      AbsentFromLevel(levels[1..], i - 1, id);
    }
  }

  lemma {:induction false} ResizeQueueAt(os: seq<Order>, k: nat, qty: nat)
    requires k < |os| && QueueIds(os)[os[k].id] <= 1
    ensures ResizeQueue(os, os[k].id, qty) == os[k := os[k].(qty := qty)]
  {
    var id := os[k].id;
    var r := ResizeQueue(os, id, qty);
    assert r[1..] == ResizeQueue(os[1..], id, qty);
    if k == 0 {
      ResizeQueueAbsent(os[1..], id, qty);
      assert r == [r[0]] + r[1..];
    } else {
      QueueIdAt(os[1..], k - 1);
      ResizeQueueAt(os[1..], k - 1, qty);
      assert r == [r[0]] + r[1..];
    }
  }

  lemma {:induction false} ResizeCons(levels: seq<Level>, id: nat, qty: nat)
    requires levels != []
    ensures Resize(levels, id, qty) ==
            [levels[0].(orders := ResizeQueue(levels[0].orders, id, qty))] + Resize(levels[1..], id, qty)
  {
    hide ResizeQueue;
  }

  lemma {:induction false} ResizeIsResizeAt(levels: seq<Level>, i: nat, k: nat, qty: nat)
    requires i < |levels| && k < |levels[i].orders| && Ids(levels)[levels[i].orders[k].id] <= 1
    ensures Resize(levels, levels[i].orders[k].id, qty) == ResizeAt(levels, i, k, qty)
  {
    var id := levels[i].orders[k].id;
    ResizeCons(levels, id, qty);
    hide Resize, ResizeQueue;
    if i == 0 {
      QueueIdAt(levels[0].orders, k);
      ResizeQueueAt(levels[0].orders, k, qty);
      ResizeAbsent(levels[1..], id, qty);
    } else {
      IdAt(levels[1..], i - 1, k);
      ResizeQueueAbsent(levels[0].orders, id, qty);
      ResizeIsResizeAt(levels[1..], i - 1, k, qty);
      assert ResizeAt(levels, i, k, qty) == [levels[0]] + ResizeAt(levels[1..], i - 1, k, qty);
    }
  }

  lemma {:induction false} ResizeQueueIds(os: seq<Order>, id: nat, qty: nat)
    ensures QueueIds(ResizeQueue(os, id, qty)) == QueueIds(os)
  {
    if os != [] {
      ResizeQueueIds(os[1..], id, qty);
      assert ResizeQueue(os, id, qty)[1..] == ResizeQueue(os[1..], id, qty);
    }
  }

  lemma {:induction false} ResizeIds(levels: seq<Level>, id: nat, qty: nat)
    ensures Ids(Resize(levels, id, qty)) == Ids(levels)
  {
    if levels != [] {
      ResizeQueueIds(levels[0].orders, id, qty);
      ResizeIds(levels[1..], id, qty);
      assert Resize(levels, id, qty)[1..] == Resize(levels[1..], id, qty);
    }
  }

  lemma {:induction false} ResizeGood(side: Side, levels: seq<Level>, id: nat, qty: nat)
    requires GoodLadder(side, levels) && 0 < qty < U32
    ensures GoodLadder(side, Resize(levels, id, qty))
  {
    forall i | 0 <= i < |levels|
      ensures GoodLevel(Resize(levels, id, qty)[i])
    {
      assert GoodLevel(levels[i]);
    }
  }

  /** Resizing keeps the book well formed, every id and every place in line. */
  lemma {:induction false} ResizeWellFormed(b: Book, id: nat, qty: nat)
    requires WellFormed(b) && 0 < qty < U32
    ensures WellFormed(ResizeBook(b, id, qty)) && BookIds(ResizeBook(b, id, qty)) == BookIds(b)
  {
    ResizeGood(Bid, b.bids, id, qty);
    ResizeGood(Ask, b.asks, id, qty);
    ResizeIds(b.bids, id, qty);
    ResizeIds(b.asks, id, qty);
  }

  lemma {:induction false} ResizeBookAt(b: Book, side: Side, i: nat, k: nat, qty: nat)
    requires WellFormed(b) && i < |b.Ladder(side)| && k < |b.Ladder(side)[i].orders|
    ensures b.WithLadder(side, ResizeAt(b.Ladder(side), i, k, qty)) == ResizeBook(b, b.Ladder(side)[i].orders[k].id, qty)
  {
    var L, M := b.Ladder(side), b.Ladder(Opposite(side));
    var id := L[i].orders[k].id;
    IdAt(L, i, k);
    assert BookIds(b)[id] == Ids(L)[id] + Ids(M)[id];
    ResizeIsResizeAt(L, i, k, qty);
    ResizeAbsent(M, id, qty);
  }

  // ---------------------------------------------------------------------------
  // Volume at a price
  // ---------------------------------------------------------------------------

  function OrdersAt(levels: seq<Level>, price: int): seq<Order> {
    if levels == [] then []
    else if levels[0].price == price then levels[0].orders
    else OrdersAt(levels[1..], price)
  }

  function SumQty(os: seq<Order>): nat {
    if os == [] then 0 else os[|os| - 1].qty + SumQty(os[..|os| - 1])
  }

  lemma {:induction false} OrdersAtLevel(side: Side, levels: seq<Level>, i: nat)
    requires Sorted(side, levels) && i < |levels|
    ensures OrdersAt(levels, levels[i].price) == levels[i].orders
  {
    if i > 0 {
      OrdersAtLevel(side, levels[1..], i - 1);
    }
  }

  lemma {:induction false} OrdersAtNone(levels: seq<Level>, price: int)
    requires forall i :: 0 <= i < |levels| ==> levels[i].price != price
    ensures OrdersAt(levels, price) == []
  {
    if levels != [] {
      OrdersAtNone(levels[1..], price);
    }
  }
}
