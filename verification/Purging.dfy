/** Taking a whole set of orders out of a book, as a disconnect does. */
module Purging {
  import opened Machine
  import opened Books
  import opened Ladders
  import opened Matching

  function DropIds(os: seq<Order>, gone: set<nat>): seq<Order> {
    if os == [] then []
    else if os[0].id in gone then DropIds(os[1..], gone)
    else [os[0]] + DropIds(os[1..], gone)
  }

  /** The ladder without some ids; levels left empty disappear. */
  function Purge(levels: seq<Level>, gone: set<nat>): seq<Level> {
    if levels == [] then []
    else
      var os := DropIds(levels[0].orders, gone);
      if os == [] then Purge(levels[1..], gone) else [levels[0].(orders := os)] + Purge(levels[1..], gone)
  }

  function PurgeBook(b: Book, gone: set<nat>): Book {
    Book(Purge(b.bids, gone), Purge(b.asks, gone))
  }

  lemma {:induction false} DropNone(os: seq<Order>)
    ensures DropIds(os, {}) == os
  {
    if os != [] {
      DropNone(os[1..]);
      assert os == [os[0]] + os[1..];
    }
  }

  lemma {:induction false} PurgeNone(levels: seq<Level>)
    requires forall i :: 0 <= i < |levels| ==> levels[i].orders != []
    ensures Purge(levels, {}) == levels
  {
    if levels != [] {
      DropNone(levels[0].orders);
      PurgeNone(levels[1..]);
      assert levels == [levels[0]] + levels[1..];
    }
  }

  lemma {:induction false} DropOneMore(os: seq<Order>, gone: set<nat>, x: nat)
    ensures DropId(DropIds(os, gone), x) == DropIds(os, gone + {x})
  {
    if os != [] {
      DropOneMore(os[1..], gone, x);
      if os[0].id !in gone {
        assert ([os[0]] + DropIds(os[1..], gone))[1..] == DropIds(os[1..], gone);
      }
    }
  }

  /** Purging is cancelling one by one, in any order. */
  lemma {:induction false} PurgeOneMore(levels: seq<Level>, gone: set<nat>, x: nat)
    ensures Cancel(Purge(levels, gone), x) == Purge(levels, gone + {x})
  {
    if levels != [] {
      PurgeOneMore(levels[1..], gone, x);
      DropOneMore(levels[0].orders, gone, x);
      var os := DropIds(levels[0].orders, gone);
      if os != [] {
        var p := [levels[0].(orders := os)] + Purge(levels[1..], gone);
        assert p[1..] == Purge(levels[1..], gone);
      }
    }
  }

  lemma {:induction false} PurgeStep(b: Book, gone: set<nat>, x: nat)
    ensures PurgeBook(b, gone + {x}) == CancelBook(PurgeBook(b, gone), x)
  {
    PurgeOneMore(b.bids, gone, x);
    PurgeOneMore(b.asks, gone, x);
  }

  lemma {:induction false} PurgeBookNone(b: Book)
    requires WellFormed(b)
    ensures PurgeBook(b, {}) == b
  {
    GoodHasOrders(Bid, b.bids);
    GoodHasOrders(Ask, b.asks);
    PurgeNone(b.bids);
    PurgeNone(b.asks);
  }

  lemma {:induction false} PurgeKeeps(b: Book, gone: set<nat>)
    requires WellFormed(b) && Uncrossed(b)
    ensures WellFormed(PurgeBook(b, gone)) && Uncrossed(PurgeBook(b, gone))
    decreases |gone|
  {
    hide WellFormed, Uncrossed, PurgeBook, CancelBook;
    if gone == {} {
      PurgeBookNone(b);
    } else {
      var x :| x in gone;
      var rest := gone - {x};
      PurgeKeeps(b, rest);
      assert rest + {x} == gone;
      PurgeStep(b, rest, x);
      CancelWellFormed(PurgeBook(b, rest), x);
      CancelUncrossed(PurgeBook(b, rest), x);
    }
  }

  lemma {:induction false} DropIdsIds(os: seq<Order>, gone: set<nat>, x: nat)
    ensures x in QueueIds(DropIds(os, gone)) <==> x in QueueIds(os) && x !in gone
  {
    if os != [] {
      DropIdsIds(os[1..], gone, x);
      if os[0].id !in gone {
        assert ([os[0]] + DropIds(os[1..], gone))[1..] == DropIds(os[1..], gone);
      }
    }
  }

  /** Exactly the ids asked for leave. */
  lemma {:induction false} PurgeIds(levels: seq<Level>, gone: set<nat>, x: nat)
    ensures x in Ids(Purge(levels, gone)) <==> x in Ids(levels) && x !in gone
  {
    if levels != [] {
      var os := DropIds(levels[0].orders, gone);
      DropIdsIds(levels[0].orders, gone, x);
      PurgeIds(levels[1..], gone, x);
      if os != [] {
        FlattenCons(levels[0].(orders := os), Purge(levels[1..], gone));
      }
    }
  }

  function Filter(ms: seq<Maker>, gone: set<nat>): seq<Maker> {
    if ms == [] then []
    else if ms[0].id in gone then Filter(ms[1..], gone)
    else [ms[0]] + Filter(ms[1..], gone)
  }

  lemma {:induction false} FilterConcat(a: seq<Maker>, b: seq<Maker>, gone: set<nat>)
    ensures Filter(a + b, gone) == Filter(a, gone) + Filter(b, gone)
  {
    if a == [] {
      assert a + b == b;
    } else {
      FilterConcat(a[1..], b, gone);
      assert (a + b)[1..] == a[1..] + b && (a + b)[0] == a[0];
    }
  }

  lemma {:induction false} DropIdsMakers(price: int, os: seq<Order>, gone: set<nat>)
    ensures QueueMakers(price, DropIds(os, gone)) == Filter(QueueMakers(price, os), gone)
  {
    if os != [] {
      DropIdsMakers(price, os[1..], gone);
      assert QueueMakers(price, os)[1..] == QueueMakers(price, os[1..]);
      if os[0].id !in gone {
        assert QueueMakers(price, DropIds(os, gone)) == [QueueMakers(price, os)[0]] + QueueMakers(price, DropIds(os[1..], gone));
      }
    }
  }

  /** Every order that stays keeps its price, its quantity and its place in line. */
  lemma {:induction false} PurgeFlatten(levels: seq<Level>, gone: set<nat>)
    ensures Flatten(Purge(levels, gone)) == Filter(Flatten(levels), gone)
  {
    if levels != [] {
      var l := levels[0];
      var os := DropIds(l.orders, gone);
      PurgeFlatten(levels[1..], gone);
      DropIdsMakers(l.price, l.orders, gone);
      FilterConcat(QueueMakers(l.price, l.orders), Flatten(levels[1..]), gone);
      if os == [] {
        assert QueueMakers(l.price, os) == [];
      } else {
        FlattenCons(l.(orders := os), Purge(levels[1..], gone));
      }
    }
  }
}
