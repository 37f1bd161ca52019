/** Updates of a ladder: cancelling, resizing, resting and sweeping, and what each does to
    the priority list. */
module Ladders {
  import opened Machine
  import opened Books

  // ---------------------------------------------------------------------------
  // Cancelling
  // ---------------------------------------------------------------------------

  function DropId(os: seq<Order>, id: nat): seq<Order> {
    if os == [] then []
    else if os[0].id == id then DropId(os[1..], id)
    else [os[0]] + DropId(os[1..], id)
  }

  /** The ladder without an id; a level left empty disappears. */
  function Cancel(levels: seq<Level>, id: nat): seq<Level> {
    if levels == [] then []
    else
      var os := DropId(levels[0].orders, id);
      if os == [] then Cancel(levels[1..], id) else [levels[0].(orders := os)] + Cancel(levels[1..], id)
  }

  function CancelBook(b: Book, id: nat): Book {
    Book(Cancel(b.bids, id), Cancel(b.asks, id))
  }

  function Without(ms: seq<Maker>, id: nat): seq<Maker> {
    if ms == [] then []
    else if ms[0].id == id then Without(ms[1..], id)
    else [ms[0]] + Without(ms[1..], id)
  }

  lemma {:induction false} WithoutConcat(a: seq<Maker>, b: seq<Maker>, id: nat)
    ensures Without(a + b, id) == Without(a, id) + Without(b, id)
  {
    if a == [] {
      assert a + b == b;
    } else {
      WithoutConcat(a[1..], b, id);
      assert (a + b)[1..] == a[1..] + b && (a + b)[0] == a[0];
    }
  }

  lemma {:induction false} DropIdMakers(price: int, os: seq<Order>, id: nat)
    ensures QueueMakers(price, DropId(os, id)) == Without(QueueMakers(price, os), id)
  {
    if os != [] {
      DropIdMakers(price, os[1..], id);
      assert QueueMakers(price, os)[1..] == QueueMakers(price, os[1..]);
      assert os[0].id != id ==>
          QueueMakers(price, DropId(os, id)) == [QueueMakers(price, os)[0]] + QueueMakers(price, DropId(os[1..], id));
    }
  }

  lemma {:induction false} FlattenCons(l: Level, ls: seq<Level>)
    ensures Flatten([l] + ls) == QueueMakers(l.price, l.orders) + Flatten(ls)
    ensures Ids([l] + ls) == QueueIds(l.orders) + Ids(ls)
  {
    assert ([l] + ls)[1..] == ls;
  }

  /** Cancelling takes one id out of the priority list and disturbs nothing else: every
      other order keeps its price, its quantity and its place in the queue. */
  lemma {:induction false} CancelFlatten(levels: seq<Level>, id: nat)
    ensures Flatten(Cancel(levels, id)) == Without(Flatten(levels), id)
  {
    if levels != [] {
      var l := levels[0];
      var os := DropId(l.orders, id);
      CancelFlatten(levels[1..], id);
      DropIdMakers(l.price, l.orders, id);
      WithoutConcat(QueueMakers(l.price, l.orders), Flatten(levels[1..]), id);
      if os == [] {
        assert QueueMakers(l.price, os) == [];
      } else {
        FlattenCons(l.(orders := os), Cancel(levels[1..], id));
      }
    }
  }

  lemma {:induction false} DropIdIds(os: seq<Order>, id: nat)
    ensures QueueIds(DropId(os, id)) == QueueIds(os)[id := 0]
  {
    if os != [] {
      DropIdIds(os[1..], id);
      var rest := DropId(os[1..], id);
      assert os[0].id != id ==> ([os[0]] + rest)[1..] == rest;
    }
  }

  lemma {:induction false} CancelIds(levels: seq<Level>, id: nat)
    ensures Ids(Cancel(levels, id)) == Ids(levels)[id := 0]
  {
    if levels != [] {
      var l := levels[0];
      var os := DropId(l.orders, id);
      CancelIds(levels[1..], id);
      DropIdIds(l.orders, id);
      if os != [] {
        FlattenCons(l.(orders := os), Cancel(levels[1..], id));
      }
    }
  }

  lemma {:induction false} DropIdGood(os: seq<Order>, id: nat)
    requires forall k :: 0 <= k < |os| ==> GoodOrder(os[k])
    ensures forall k :: 0 <= k < |DropId(os, id)| ==> GoodOrder(DropId(os, id)[k])
  {
    if os != [] {
      DropIdGood(os[1..], id);
    }
  }

  /** Every price on the ladder ranks strictly after p. */
  ghost predicate After(side: Side, p: int, levels: seq<Level>) {
    forall i :: 0 <= i < |levels| ==> Better(side, p, levels[i].price)
  }

  lemma {:induction false} GoodCons(side: Side, l: Level, ls: seq<Level>)
    requires GoodLevel(l) && GoodLadder(side, ls) && After(side, l.price, ls)
    ensures GoodLadder(side, [l] + ls)
  {
  }

  lemma {:induction false} GoodTail(side: Side, levels: seq<Level>)
    requires GoodLadder(side, levels) && levels != []
    ensures GoodLevel(levels[0]) && GoodLadder(side, levels[1..]) && After(side, levels[0].price, levels[1..])
  {
  }

  lemma {:induction false} CancelGood(side: Side, levels: seq<Level>, id: nat, p: int)
    requires GoodLadder(side, levels)
    ensures GoodLadder(side, Cancel(levels, id))
    ensures After(side, p, levels) ==> After(side, p, Cancel(levels, id))
  {
    if levels != [] {
      var l := levels[0];
      var os := DropId(l.orders, id);
      GoodTail(side, levels);
      CancelGood(side, levels[1..], id, p);
      CancelGood(side, levels[1..], id, l.price);
      DropIdGood(l.orders, id);
      if os != [] {
        GoodCons(side, l.(orders := os), Cancel(levels[1..], id));
      }
    }
  }

  lemma {:induction false} DropIdAbsent(os: seq<Order>, id: nat)
    requires id !in QueueIds(os)
    ensures DropId(os, id) == os
  {
    if os != [] {
      DropIdAbsent(os[1..], id);
      assert os == [os[0]] + os[1..];
    }
  }

  lemma {:induction false} CancelAbsent(levels: seq<Level>, id: nat)
    requires id !in Ids(levels)
    requires forall i :: 0 <= i < |levels| ==> levels[i].orders != []
    ensures Cancel(levels, id) == levels
  {
    if levels != [] {
      CancelAbsent(levels[1..], id);
      DropIdAbsent(levels[0].orders, id);
      assert levels == [levels[0]] + levels[1..];
    }
  }

  // ---------------------------------------------------------------------------
  // The same updates by position
  // ---------------------------------------------------------------------------

  /** Removes order k of level i, and the level with it when it was the last one. */
  function DropAt(levels: seq<Level>, i: nat, k: nat): seq<Level>
    requires i < |levels| && k < |levels[i].orders|
  {
    var os := levels[i].orders;
    if |os| == 1 then levels[..i] + levels[i + 1..]
    else levels[i := levels[i].(orders := os[..k] + os[k + 1..])]
  }

  function ResizeAt(levels: seq<Level>, i: nat, k: nat, qty: nat): seq<Level>
    requires i < |levels| && k < |levels[i].orders|
  {
    var os := levels[i].orders;
    levels[i := levels[i].(orders := os[k := os[k].(qty := qty)])]
  }

  lemma {:induction false} DropIdIsRemoval(os: seq<Order>, k: nat)
    requires k < |os| && QueueIds(os)[os[k].id] <= 1
    ensures DropId(os, os[k].id) == os[..k] + os[k + 1..]
    ensures os[k].id in QueueIds(os)
  {
    if k == 0 {
      DropIdAbsent(os[1..], os[0].id);
    } else {
      DropIdIsRemoval(os[1..], k - 1);
      assert os[1..][k - 1] == os[k];
      assert os[..k] + os[k + 1..] == [os[0]] + (os[1..][..k - 1] + os[1..][k..]);
    }
  }

  lemma {:induction false} DropAtFront(levels: seq<Level>, k: nat)
    requires levels != [] && k < |levels[0].orders|
    ensures var os := levels[0].orders;
            DropAt(levels, 0, k) ==
            if |os| == 1 then levels[1..] else [levels[0].(orders := os[..k] + os[k + 1..])] + levels[1..]
  {
  }

  lemma {:induction false} CancelIsDropAtFront(levels: seq<Level>, k: nat)
    requires levels != [] && k < |levels[0].orders|
    requires forall j :: 0 <= j < |levels| ==> levels[j].orders != []
    requires Ids(levels)[levels[0].orders[k].id] <= 1
    ensures Cancel(levels, levels[0].orders[k].id) == DropAt(levels, 0, k)
    ensures levels[0].orders[k].id in Ids(levels)
  {
    var os := levels[0].orders;
    DropIdIsRemoval(os, k);
    CancelAbsent(levels[1..], os[k].id);
    DropAtFront(levels, k);
  }

  lemma {:induction false} DropAtCons(levels: seq<Level>, i: nat, k: nat)
    requires 0 < i < |levels| && k < |levels[i].orders|
    ensures DropAt(levels, i, k) == [levels[0]] + DropAt(levels[1..], i - 1, k)
  {
  }

  /** Where an id occurs once, cancelling it is removal at its position. */
  lemma {:induction false} CancelIsDropAt(levels: seq<Level>, i: nat, k: nat)
    requires i < |levels| && k < |levels[i].orders|
    requires forall j :: 0 <= j < |levels| ==> levels[j].orders != []
    requires Ids(levels)[levels[i].orders[k].id] <= 1
    ensures Cancel(levels, levels[i].orders[k].id) == DropAt(levels, i, k)
    ensures levels[i].orders[k].id in Ids(levels)
  {
    if i == 0 {
      CancelIsDropAtFront(levels, k);
    } else {
      CancelIsDropAt(levels[1..], i - 1, k);
      DropIdAbsent(levels[0].orders, levels[i].orders[k].id);
      DropAtCons(levels, i, k);
    }
  }

  /** The ids on a ladder are those found at some position of it. */
  lemma {:induction false} IdAt(levels: seq<Level>, i: nat, k: nat)
    requires i < |levels| && k < |levels[i].orders|
    ensures levels[i].orders[k].id in Ids(levels)
  {
    if i == 0 {
      QueueIdAt(levels[0].orders, k);
    } else {
      IdAt(levels[1..], i - 1, k);
    }
  }

  lemma {:induction false} QueueIdAt(os: seq<Order>, k: nat)
    requires k < |os|
    ensures os[k].id in QueueIds(os)
  {
    if k > 0 {
      QueueIdAt(os[1..], k - 1);
    }
  }

  lemma {:induction false} WhereIsId(levels: seq<Level>, id: nat) returns (i: nat, k: nat)
    requires id in Ids(levels)
    ensures i < |levels| && k < |levels[i].orders| && levels[i].orders[k].id == id
  {
    if id in QueueIds(levels[0].orders) {
      i := 0;
      k := WhereInQueue(levels[0].orders, id);
    } else {
      i, k := WhereIsId(levels[1..], id);
      i := i + 1;
    }
  }

  lemma {:induction false} WhereInQueue(os: seq<Order>, id: nat) returns (k: nat)
    requires id in QueueIds(os)
    ensures k < |os| && os[k].id == id
  {
    if os[0].id == id {
      k := 0;
    } else {
      k := WhereInQueue(os[1..], id);
      k := k + 1;
    }
  }

  // ---------------------------------------------------------------------------
  // Sweeping: matching at the level structure itself
  // ---------------------------------------------------------------------------

  /** One trade with the order at the front of the best level. */
  function FillFront(levels: seq<Level>, f: nat): seq<Level>
    requires levels != [] && levels[0].orders != [] && f <= levels[0].orders[0].qty
  {
    if f == levels[0].orders[0].qty then DropAt(levels, 0, 0)
    else ResizeAt(levels, 0, 0, levels[0].orders[0].qty - f)
  }

  /** The priority list after a trade of f with its first maker. */
  function FillHead(ms: seq<Maker>, f: nat): seq<Maker>
    requires ms != [] && f <= ms[0].qty
  {
    if f == ms[0].qty then ms[1..] else [ms[0].(qty := ms[0].qty - f)] + ms[1..]
  }

  lemma {:induction false} FlattenHead(levels: seq<Level>)
    requires levels != [] && levels[0].orders != []
    ensures Flatten(levels) != []
    ensures Flatten(levels)[0] == Maker(levels[0].orders[0].id, levels[0].price, levels[0].orders[0].qty)
    ensures Flatten(levels)[1..] == QueueMakers(levels[0].price, levels[0].orders[1..]) + Flatten(levels[1..])
  {
    var l := levels[0];
    assert QueueMakers(l.price, l.orders)[1..] == QueueMakers(l.price, l.orders[1..]);
  }

  lemma {:induction false} QueueFirst(price: int, os: seq<Order>, o: Order)
    requires os != []
    ensures QueueMakers(price, os[0 := o]) == [Maker(o.id, price, o.qty)] + QueueMakers(price, os[1..])
  {
  }

  lemma {:induction false} ResizeFirst(side: Side, levels: seq<Level>, qty: nat)
    requires GoodLadder(side, levels) && levels != [] && GoodLevel(levels[0]) && 0 < qty <= levels[0].orders[0].qty
    ensures var l' := levels[0].(orders := levels[0].orders[0 := levels[0].orders[0].(qty := qty)]);
            ResizeAt(levels, 0, 0, qty) == [l'] + levels[1..] && GoodLadder(side, [l'] + levels[1..])
  {
    var l' := levels[0].(orders := levels[0].orders[0 := levels[0].orders[0].(qty := qty)]);
    assert GoodOrder(levels[0].orders[0]);
    GoodTail(side, levels);
    GoodCons(side, l', levels[1..]);
  }

  lemma {:induction false} ConsConcat(m: Maker, a: seq<Maker>, b: seq<Maker>)
    ensures ([m] + a) + b == [m] + (a + b)
  {
  }

  lemma {:induction false} ResizeFlatten(levels: seq<Level>, o: Order)
    requires levels != [] && levels[0].orders != []
    ensures Flatten([levels[0].(orders := levels[0].orders[0 := o])] + levels[1..]) ==
            [Maker(o.id, levels[0].price, o.qty)] + (QueueMakers(levels[0].price, levels[0].orders[1..]) + Flatten(levels[1..]))
  {
    var l := levels[0];
    FlattenCons(l.(orders := l.orders[0 := o]), levels[1..]);
    QueueFirst(l.price, l.orders, o);
    hide Flatten, QueueMakers;
    ConsConcat(Maker(o.id, l.price, o.qty), QueueMakers(l.price, l.orders[1..]), Flatten(levels[1..]));
  }

  lemma {:induction false} FillFrontPartial(side: Side, levels: seq<Level>, f: nat)
    requires GoodLadder(side, levels) && levels != [] && GoodLevel(levels[0]) && f < levels[0].orders[0].qty
    requires Flatten(levels) != [] && Flatten(levels)[0].qty == levels[0].orders[0].qty
    ensures GoodLadder(side, FillFront(levels, f)) && Flatten(FillFront(levels, f)) == FillHead(Flatten(levels), f)
  {
    var o := levels[0].orders[0];
    ResizeFirst(side, levels, o.qty - f);
    hide GoodLadder, ResizeAt, Flatten, QueueMakers;
    FlattenHead(levels);
    ResizeFlatten(levels, o.(qty := o.qty - f));
  }

  lemma {:induction false} FillFrontWhole(side: Side, levels: seq<Level>)
    requires GoodLadder(side, levels) && levels != [] && GoodLevel(levels[0])
    ensures GoodLadder(side, DropAt(levels, 0, 0)) && Flatten(DropAt(levels, 0, 0)) == Flatten(levels)[1..]
  {
    var l, tail := levels[0], levels[1..];
    var os := l.orders;
    GoodTail(side, levels);
    FlattenHead(levels);
    if |os| == 1 {
      assert DropAt(levels, 0, 0) == tail;
      assert QueueMakers(l.price, os[1..]) == [];
    } else {
      var l' := l.(orders := os[1..]);
      DropAtFront(levels, 0);
      assert os[..0] + os[1..] == os[1..];
      GoodCons(side, l', tail);
      hide GoodLadder, Flatten, QueueMakers, DropAt;
      FlattenCons(l', tail);
    }
  }

  /** A trade at the front of the best level is a trade at the head of the priority list. */
  lemma {:induction false} FillFrontFlatten(side: Side, levels: seq<Level>, f: nat)
    requires GoodLadder(side, levels) && levels != [] && GoodLevel(levels[0]) && f <= levels[0].orders[0].qty
    ensures Flatten(levels) != []
    ensures Flatten(levels)[0] == Maker(levels[0].orders[0].id, levels[0].price, levels[0].orders[0].qty)
    ensures GoodLadder(side, FillFront(levels, f)) && Flatten(FillFront(levels, f)) == FillHead(Flatten(levels), f)
  {
    FlattenHead(levels);
    if f == levels[0].orders[0].qty {
      FillFrontWhole(side, levels);
    } else {
      FillFrontPartial(side, levels, f);
    }
  }

  function Sweep(levels: seq<Level>, taker: nat, side: Side, limit: int, qty: nat, room: nat): Outcome<seq<Level>>
    decreases room
  {
    if qty == 0 || levels == [] || room == 0 || levels[0].orders == [] || !Crosses(side, limit, levels[0].price) then
      Outcome([], levels, qty)
    else
      var o := levels[0].orders[0];
      var f := Min(qty, o.qty);
      var rest := Sweep(FillFront(levels, f), taker, side, limit, qty - f, room - 1);
      Outcome([Fill(o.id, taker, levels[0].price, f)] + rest.fills, rest.left, rest.remaining)
  }

  lemma {:induction false} GreedyStep(ms: seq<Maker>, taker: nat, side: Side, limit: int, qty: nat, room: nat)
    requires ms != [] && 0 < ms[0].qty && 0 < qty && 0 < room && Crosses(side, limit, ms[0].price)
    ensures var f := Min(qty, ms[0].qty);
            var rest := Greedy(FillHead(ms, f), taker, side, limit, qty - f, room - 1);
            Greedy(ms, taker, side, limit, qty, room) ==
            rest.(fills := [Fill(ms[0].id, taker, ms[0].price, f)] + rest.fills)
  {
  }

  /** The nested loop over levels and queues is greedy matching down the flat priority list. */
  lemma {:induction false} SweepIsGreedy(levels: seq<Level>, taker: nat, side: Side, limit: int, qty: nat, room: nat)
    requires GoodLadder(Opposite(side), levels)
    ensures var s := Sweep(levels, taker, side, limit, qty, room);
            var g := Greedy(Flatten(levels), taker, side, limit, qty, room);
            && GoodLadder(Opposite(side), s.left)
            && s.fills == g.fills && Flatten(s.left) == g.left && s.remaining == g.remaining
    decreases room
  {
    if levels == [] {
      return;
    }
    assert GoodLevel(levels[0]);
    FlattenHead(levels);
    if qty == 0 || room == 0 || !Crosses(side, limit, levels[0].price) {
      return;
    }
    var o := levels[0].orders[0];
    assert GoodOrder(o);
    var f := Min(qty, o.qty);
    hide FillFront, Flatten, GoodLadder, Greedy;
    FillFrontFlatten(Opposite(side), levels, f);
    GreedyStep(Flatten(levels), taker, side, limit, qty, room);
    SweepIsGreedy(FillFront(levels, f), taker, side, limit, qty - f, room - 1);
  }

  lemma {:induction false} FillFrontGood(side: Side, levels: seq<Level>, f: nat)
    requires GoodLadder(side, levels) && levels != [] && GoodLevel(levels[0]) && f <= levels[0].orders[0].qty
    ensures GoodLadder(side, FillFront(levels, f))
  {
    FillFrontFlatten(side, levels, f);
  }

  function IdSeq(ms: seq<Maker>): seq<nat> {
    seq(|ms|, i requires 0 <= i < |ms| => ms[i].id)
  }

  function MakerIds(ms: seq<Maker>): multiset<nat> {
    multiset(IdSeq(ms))
  }

  lemma {:induction false} MakerIdsConcat(a: seq<Maker>, b: seq<Maker>)
    ensures MakerIds(a + b) == MakerIds(a) + MakerIds(b)
  {
    assert IdSeq(a + b) == IdSeq(a) + IdSeq(b);
  }

  lemma {:induction false} QueueMakerIds(price: int, os: seq<Order>)
    ensures MakerIds(QueueMakers(price, os)) == QueueIds(os)
  {
    var ms := QueueMakers(price, os);
    if os == [] {
      assert IdSeq(ms) == [];
    } else {
      QueueMakerIds(price, os[1..]);
      assert IdSeq(ms) == [os[0].id] + IdSeq(QueueMakers(price, os[1..]));
    }
  }

  lemma {:induction false} FlattenIds(levels: seq<Level>)
    ensures MakerIds(Flatten(levels)) == Ids(levels)
  {
    if levels != [] {
      FlattenIds(levels[1..]);
      QueueMakerIds(levels[0].price, levels[0].orders);
      MakerIdsConcat(QueueMakers(levels[0].price, levels[0].orders), Flatten(levels[1..]));
    }
  }

  lemma {:induction false} GreedyIds(ms: seq<Maker>, taker: nat, side: Side, limit: int, qty: nat, room: nat)
    ensures MakerIds(Greedy(ms, taker, side, limit, qty, room).left) <= MakerIds(ms)
    decreases |ms|
  {
    if qty > 0 && ms != [] && room > 0 && Crosses(side, limit, ms[0].price) {
      if qty < ms[0].qty {
        assert IdSeq([ms[0].(qty := ms[0].qty - qty)] + ms[1..]) == IdSeq(ms);
      } else {
        assert IdSeq(ms) == [ms[0].id] + IdSeq(ms[1..]);
        GreedyIds(ms[1..], taker, side, limit, qty - ms[0].qty, room - 1);
      }
    }
  }

  /** Sweeping only takes ids away. */
  lemma {:induction false} SweepIds(levels: seq<Level>, taker: nat, side: Side, limit: int, qty: nat, room: nat)
    requires GoodLadder(Opposite(side), levels)
    ensures Ids(Sweep(levels, taker, side, limit, qty, room).left) <= Ids(levels)
  {
    SweepIsGreedy(levels, taker, side, limit, qty, room);
    GreedyIds(Flatten(levels), taker, side, limit, qty, room);
    FlattenIds(levels);
    FlattenIds(Sweep(levels, taker, side, limit, qty, room).left);
  }

  lemma {:induction false} SweepCons(levels: seq<Level>, taker: nat, side: Side, limit: int, qty: nat, room: nat)
    requires qty > 0 && levels != [] && levels[0].orders != [] && room > 0 && Crosses(side, limit, levels[0].price)
    ensures var f := Min(qty, levels[0].orders[0].qty);
            Sweep(levels, taker, side, limit, qty, room).left ==
            Sweep(FillFront(levels, f), taker, side, limit, qty - f, room - 1).left
  {
    hide FillFront;
  }

  /** Sweeping never improves the best price. */
  lemma {:induction false} SweepFront(levels: seq<Level>, taker: nat, side: Side, limit: int, qty: nat, room: nat)
    requires GoodLadder(Opposite(side), levels)
    ensures var left := Sweep(levels, taker, side, limit, qty, room).left;
            left != [] ==> levels != [] && !Better(Opposite(side), left[0].price, levels[0].price)
    decreases room
  {
    if qty == 0 || levels == [] || room == 0 || !Crosses(side, limit, levels[0].price) {
      return;
    }
    assert GoodLevel(levels[0]);
    hide Sweep, FillFront, GoodLadder, Ids;
    var f := Min(qty, levels[0].orders[0].qty);
    SweepCons(levels, taker, side, limit, qty, room);
    FillFrontGood(Opposite(side), levels, f);
    FillFrontShrinks(Opposite(side), levels, f);
    SweepFront(FillFront(levels, f), taker, side, limit, qty - f, room - 1);
  }

  lemma {:induction false} FillFrontShrinks(side: Side, levels: seq<Level>, f: nat)
    requires GoodLadder(side, levels) && levels != [] && GoodLevel(levels[0]) && f <= levels[0].orders[0].qty
    ensures Ids(FillFront(levels, f)) <= Ids(levels)
    ensures FillFront(levels, f) != [] ==> !Better(side, FillFront(levels, f)[0].price, levels[0].price)
  {
    var l, tail := levels[0], levels[1..];
    var os := l.orders;
    if f < os[0].qty {
      var l' := l.(orders := os[0 := os[0].(qty := os[0].qty - f)]);
      assert FillFront(levels, f) == [l'] + tail;
      FlattenCons(l', tail);
      assert l'.orders[1..] == os[1..];
    } else if |os| == 1 {
      assert FillFront(levels, f) == tail;
    } else {
      var l' := l.(orders := os[1..]);
      assert os[..0] + os[1..] == os[1..];
      assert FillFront(levels, f) == [l'] + tail;
      FlattenCons(l', tail);
    }
  }

  // ---------------------------------------------------------------------------
  // Resting
  // ---------------------------------------------------------------------------

  /** Joins the back of the level at this price, or opens a level at its sorted place. */
  function Rest(side: Side, levels: seq<Level>, price: int, o: Order): seq<Level> {
    if levels == [] then [Level(price, [o])]
    else if levels[0].price == price then [levels[0].(orders := levels[0].orders + [o])] + levels[1..]
    else if Better(side, price, levels[0].price) then [Level(price, [o])] + levels
    else [levels[0]] + Rest(side, levels[1..], price, o)
  }

  lemma {:induction false} QueueIdsSnoc(os: seq<Order>, o: Order)
    ensures QueueIds(os + [o]) == QueueIds(os) + multiset{o.id}
  {
    if os == [] {
      assert os + [o] == [o] && [o][1..] == [];
    } else {
      QueueIdsSnoc(os[1..], o);
      assert (os + [o])[1..] == os[1..] + [o];
    }
  }

  lemma {:induction false} RestIds(side: Side, levels: seq<Level>, price: int, o: Order)
    ensures Ids(Rest(side, levels, price, o)) == Ids(levels) + multiset{o.id}
  {
    QueueIdsSnoc([], o);
    assert [] + [o] == [o];
    if levels == [] {
      assert Rest(side, levels, price, o) == [Level(price, [o])] + [];
      FlattenCons(Level(price, [o]), []);
    } else if levels[0].price == price {
      QueueIdsSnoc(levels[0].orders, o);
      FlattenCons(levels[0].(orders := levels[0].orders + [o]), levels[1..]);
    } else if Better(side, price, levels[0].price) {
      FlattenCons(Level(price, [o]), levels);
    } else {
      RestIds(side, levels[1..], price, o);
      FlattenCons(levels[0], Rest(side, levels[1..], price, o));
    }
  }

  lemma {:induction false} RestGood(side: Side, levels: seq<Level>, price: int, o: Order, p: int)
    requires GoodLadder(side, levels) && GoodOrder(o)
    ensures GoodLadder(side, Rest(side, levels, price, o))
    ensures After(side, p, levels) && Better(side, p, price) ==> After(side, p, Rest(side, levels, price, o))
  {
    if levels != [] {
      GoodTail(side, levels);
      if levels[0].price == price {
        GoodCons(side, levels[0].(orders := levels[0].orders + [o]), levels[1..]);
      } else if Better(side, price, levels[0].price) {
        GoodCons(side, Level(price, [o]), levels);
      } else {
        RestGood(side, levels[1..], price, o, levels[0].price);
        RestGood(side, levels[1..], price, o, p);
        GoodCons(side, levels[0], Rest(side, levels[1..], price, o));
      }
    }
  }

  /** The priority list with one more maker between its two halves. */
  ghost predicate RanksBetween(side: Side, before: seq<Maker>, m: Maker, after: seq<Maker>) {
    && (forall i :: 0 <= i < |before| ==> !Better(side, m.price, before[i].price))
    && (forall i :: 0 <= i < |after| ==> Better(side, m.price, after[i].price))
  }

  lemma {:induction false} FlattenAfter(side: Side, levels: seq<Level>, p: int)
    requires After(side, p, levels)
    ensures forall i :: 0 <= i < |Flatten(levels)| ==> Better(side, p, Flatten(levels)[i].price)
  {
    if levels != [] {
      FlattenAfter(side, levels[1..], p);
    }
  }

  lemma {:induction false} QueueMakersSnoc(price: int, os: seq<Order>, o: Order)
    ensures QueueMakers(price, os + [o]) == QueueMakers(price, os) + [Maker(o.id, price, o.qty)]
  {
  }

  lemma {:induction false} RanksBehind(side: Side, here: seq<Maker>, b: seq<Maker>, m: Maker, a: seq<Maker>)
    requires RanksBetween(side, b, m, a)
    requires forall i :: 0 <= i < |here| ==> !Better(side, m.price, here[i].price)
    ensures RanksBetween(side, here + b, m, a)
    ensures here + (b + a) == (here + b) + a && here + (b + [m] + a) == (here + b) + [m] + a
  {
  }

  lemma {:induction false} RestRanksHere(side: Side, levels: seq<Level>, o: Order)
    requires GoodLadder(side, levels) && levels != []
    ensures var l := levels[0];
            var here, m, after := QueueMakers(l.price, l.orders), Maker(o.id, l.price, o.qty), Flatten(levels[1..]);
            && Flatten(Rest(side, levels, l.price, o)) == here + [m] + after
            && RanksBetween(side, here, m, after)
  {
    var l := levels[0];
    GoodTail(side, levels);
    QueueMakersSnoc(l.price, l.orders, o);
    FlattenCons(l.(orders := l.orders + [o]), levels[1..]);
    FlattenAfter(side, levels[1..], l.price);
  }

  lemma {:induction false} RestRanksFirst(side: Side, levels: seq<Level>, price: int, o: Order)
    requires GoodLadder(side, levels) && After(side, price, levels)
    ensures Flatten(Rest(side, levels, price, o)) == [Maker(o.id, price, o.qty)] + Flatten(levels)
    ensures RanksBetween(side, [], Maker(o.id, price, o.qty), Flatten(levels))
  {
    assert levels == [] ==> Rest(side, levels, price, o) == [Level(price, [o])] + levels;
    FlattenCons(Level(price, [o]), levels);
    FlattenAfter(side, levels, price);
    assert QueueMakers(price, [o]) == [Maker(o.id, price, o.qty)];
  }

  lemma {:induction false} RestRanksLater(side: Side, levels: seq<Level>, price: int, o: Order,
                                          b: seq<Maker>, after: seq<Maker>)
    requires levels != [] && Better(side, levels[0].price, price)
    requires Flatten(levels[1..]) == b + after
    requires Flatten(Rest(side, levels[1..], price, o)) == b + [Maker(o.id, price, o.qty)] + after
    requires RanksBetween(side, b, Maker(o.id, price, o.qty), after)
    ensures var m, before := Maker(o.id, price, o.qty), QueueMakers(levels[0].price, levels[0].orders) + b;
            && Flatten(levels) == before + after
            && Flatten(Rest(side, levels, price, o)) == before + [m] + after
            && RanksBetween(side, before, m, after)
  {
    FlattenCons(levels[0], Rest(side, levels[1..], price, o));
    RanksBehind(side, QueueMakers(levels[0].price, levels[0].orders), b, Maker(o.id, price, o.qty), after);
  }

  /** A resting order goes behind every order at its price or better and before every worse
      one; nothing else moves. */
  lemma {:induction false} RestRanks(side: Side, levels: seq<Level>, price: int, o: Order)
    returns (before: seq<Maker>, after: seq<Maker>)
    requires GoodLadder(side, levels)
    ensures Flatten(levels) == before + after
    ensures Flatten(Rest(side, levels, price, o)) == before + [Maker(o.id, price, o.qty)] + after
    ensures RanksBetween(side, before, Maker(o.id, price, o.qty), after)
  {
    if levels == [] || Better(side, price, levels[0].price) {
      before, after := [], Flatten(levels);
      RestRanksFirst(side, levels, price, o);
      assert before + [Maker(o.id, price, o.qty)] + after == [Maker(o.id, price, o.qty)] + after;
      return;
    }
    if levels[0].price == price {
      before, after := QueueMakers(price, levels[0].orders), Flatten(levels[1..]);
      RestRanksHere(side, levels, o);
      return;
    }
    var b;
    b, after := RestRanks(side, levels[1..], price, o);
    before := QueueMakers(levels[0].price, levels[0].orders) + b;
    RestRanksLater(side, levels, price, o, b, after);
  }

  /** Resting by position, at an existing level and at a new one. */
  lemma {:induction false} RestAtLevel(side: Side, levels: seq<Level>, i: nat, o: Order)
    requires Sorted(side, levels) && i < |levels|
    ensures Rest(side, levels, levels[i].price, o) == levels[i := levels[i].(orders := levels[i].orders + [o])]
  {
    var price := levels[i].price;
    var target := levels[i := levels[i].(orders := levels[i].orders + [o])];
    if i == 0 {
      assert target == [target[0]] + levels[1..];
    } else {
      assert Better(side, levels[0].price, price);
      RestAtLevel(side, levels[1..], i - 1, o);
      assert target == [levels[0]] + target[1..];
      assert target[1..] == levels[1..][i - 1 := levels[i].(orders := levels[i].orders + [o])];
    }
  }

  lemma {:induction false} RestAtGap(side: Side, levels: seq<Level>, i: nat, price: int, o: Order)
    requires Sorted(side, levels) && i <= |levels|
    requires forall j :: 0 <= j < i ==> Better(side, levels[j].price, price)
    requires i < |levels| ==> Better(side, price, levels[i].price)
    ensures Rest(side, levels, price, o) == levels[..i] + [Level(price, [o])] + levels[i..]
  {
    if i == 0 {
      assert levels[..0] + [Level(price, [o])] + levels[0..] == [Level(price, [o])] + levels;
      return;
    }
    assert Better(side, levels[0].price, price);
    RestBehind(side, levels, price, o);
    hide Rest;
    RestAtGap(side, levels[1..], i - 1, price, o);
    assert levels[..i] == [levels[0]] + levels[1..][..i - 1] && levels[i..] == levels[1..][i - 1..];
  }

  lemma {:induction false} RestBehind(side: Side, levels: seq<Level>, price: int, o: Order)
    requires levels != [] && Better(side, levels[0].price, price)
    ensures Rest(side, levels, price, o) == [levels[0]] + Rest(side, levels[1..], price, o)
  {
  }
}
