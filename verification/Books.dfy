/** The order book as values: two sorted ladders of price levels, each a FIFO of orders,
    and price-time matching against them. */
module Books {
  import opened Machine

  datatype Side = Bid | Ask

  function Opposite(side: Side): Side {
    if side.Bid? then Ask else Bid
  }

  datatype Order = Order(id: nat, qty: nat)

  datatype Level = Level(price: int, orders: seq<Order>)

  datatype Book = Book(bids: seq<Level>, asks: seq<Level>) {
    function Ladder(side: Side): seq<Level> {
      if side.Bid? then bids else asks
    }

    function WithLadder(side: Side, levels: seq<Level>): Book {
      if side.Bid? then Book(levels, asks) else Book(bids, levels)
    }
  }

  const EMPTY_BOOK := Book([], [])

  /** Price p ranks strictly before price q on the given side. */
  predicate Better(side: Side, p: int, q: int) {
    if side.Bid? then p > q else p < q
  }

  /** An incoming order's limit reaches a resting price on the other side. */
  predicate Crosses(taker: Side, limit: int, price: int) {
    if taker.Bid? then limit >= price else limit <= price
  }

  ghost predicate Sorted(side: Side, levels: seq<Level>) {
    forall i, j :: 0 <= i < j < |levels| ==> Better(side, levels[i].price, levels[j].price)
  }

  predicate GoodOrder(o: Order) {
    0 < o.qty < U32
  }

  ghost predicate GoodLevel(l: Level) {
    l.orders != [] && forall k :: 0 <= k < |l.orders| ==> GoodOrder(l.orders[k])
  }

  ghost predicate GoodLadder(side: Side, levels: seq<Level>) {
    Sorted(side, levels) && forall i :: 0 <= i < |levels| ==> GoodLevel(levels[i])
  }

  /** Ids resting in a queue, with multiplicity. */
  function QueueIds(os: seq<Order>): multiset<nat> {
    if os == [] then multiset{} else multiset{os[0].id} + QueueIds(os[1..])
  }

  function Ids(levels: seq<Level>): multiset<nat> {
    if levels == [] then multiset{} else QueueIds(levels[0].orders) + Ids(levels[1..])
  }

  function BookIds(b: Book): multiset<nat> {
    Ids(b.bids) + Ids(b.asks)
  }

  ghost predicate Unique(ids: multiset<nat>) {
    forall x :: ids[x] <= 1
  }

  /** Bids strictly descending, asks strictly ascending, no empty level, no zero quantity,
      no id twice. */
  ghost predicate WellFormed(b: Book) {
    GoodLadder(Bid, b.bids) && GoodLadder(Ask, b.asks) && Unique(BookIds(b))
  }

  ghost predicate Uncrossed(b: Book) {
    b.bids != [] && b.asks != [] ==> b.bids[0].price < b.asks[0].price
  }

  // ---------------------------------------------------------------------------
  // Price-time priority, the reference
  // ---------------------------------------------------------------------------

  datatype Maker = Maker(id: nat, price: int, qty: nat)

  datatype Fill = Fill(maker: nat, taker: nat, price: int, qty: nat)

  function QueueMakers(price: int, os: seq<Order>): seq<Maker> {
    seq(|os|, k requires 0 <= k < |os| => Maker(os[k].id, price, os[k].qty))
  }

  /** Best level first, first in first out within a level. */
  function Flatten(levels: seq<Level>): seq<Maker> {
    if levels == [] then [] else QueueMakers(levels[0].price, levels[0].orders) + Flatten(levels[1..])
  }

  datatype Outcome<T> = Outcome(fills: seq<Fill>, left: T, remaining: nat)

  /** Greedy matching of a taker down one priority list, at each maker's price. */
  function Greedy(makers: seq<Maker>, taker: nat, side: Side, limit: int, qty: nat, room: nat): Outcome<seq<Maker>>
    decreases |makers|
  {
    if qty == 0 || makers == [] || room == 0 || !Crosses(side, limit, makers[0].price) then
      Outcome([], makers, qty)
    else
      var m := makers[0];
      var f := Fill(m.id, taker, m.price, Min(qty, m.qty));
      if qty < m.qty then
        Outcome([f], [m.(qty := m.qty - qty)] + makers[1..], 0)
      else
        var rest := Greedy(makers[1..], taker, side, limit, qty - m.qty, room - 1);
        Outcome([f] + rest.fills, rest.left, rest.remaining)
  }

  function SumFills(fills: seq<Fill>): nat {
    if fills == [] then 0 else fills[0].qty + SumFills(fills[1..])
  }

  /** A trade of part or all of maker m, at its price. */
  predicate Trades(m: Maker, f: Fill, taker: nat, side: Side, limit: int) {
    f.maker == m.id && f.taker == taker && f.price == m.price && 0 < f.qty <= m.qty && Crosses(side, limit, m.price)
  }

  /** The fills walk a prefix of the priority list without skipping; every maker but the
      last is consumed whole. */
  ghost predicate WalksPrefix(makers: seq<Maker>, fills: seq<Fill>, taker: nat, side: Side, limit: int) {
    && |fills| <= |makers|
    && (forall i :: 0 <= i < |fills| ==> Trades(makers[i], fills[i], taker, side, limit))
    && (forall i :: 0 <= i < |fills| - 1 ==> fills[i].qty == makers[i].qty)
  }

  /** The list after those fills: the prefix gone, its last maker reduced in place if it was
      not consumed whole. */
  function LeftOver(makers: seq<Maker>, fills: seq<Fill>): seq<Maker>
    requires |fills| <= |makers|
    requires forall i :: 0 <= i < |fills| ==> fills[i].qty <= makers[i].qty
  {
    var n := |fills|;
    if n > 0 && fills[n - 1].qty < makers[n - 1].qty
    then [makers[n - 1].(qty := makers[n - 1].qty - fills[n - 1].qty)] + makers[n..]
    else makers[n..]
  }

  /** Price-time priority with room for a bounded number of fills: a walk down the list that
      loses no quantity and stops only when it must. */
  ghost predicate PriceTime(makers: seq<Maker>, taker: nat, side: Side, limit: int, qty: nat, room: nat,
                            o: Outcome<seq<Maker>>)
  {
    var n := |o.fills|;
    && WalksPrefix(makers, o.fills, taker, side, limit) && n <= room
    && o.left == LeftOver(makers, o.fills)
    && SumFills(o.fills) + o.remaining == qty
    && (o.remaining > 0 ==>
          o.left == makers[n..] && (n == room || n == |makers| || !Crosses(side, limit, makers[n].price)))
  }

  lemma {:induction false} WalkExtends(makers: seq<Maker>, f: Fill, fills: seq<Fill>, taker: nat, side: Side, limit: int)
    requires makers != [] && Trades(makers[0], f, taker, side, limit) && f.qty == makers[0].qty
    requires WalksPrefix(makers[1..], fills, taker, side, limit)
    ensures WalksPrefix(makers, [f] + fills, taker, side, limit)
    ensures LeftOver(makers, [f] + fills) == LeftOver(makers[1..], fills)
  {
    var all := [f] + fills;
    forall i | 0 <= i < |all|
      ensures Trades(makers[i], all[i], taker, side, limit)
      ensures i < |all| - 1 ==> all[i].qty == makers[i].qty
    {
      assert i > 0 ==> all[i] == fills[i - 1] && makers[i] == makers[1..][i - 1];
    }
    assert makers[1..][|fills|..] == makers[|all|..];
    assert fills != [] ==> all[|all| - 1] == fills[|fills| - 1] && makers[|all| - 1] == makers[1..][|fills| - 1];
  }

  lemma {:induction false} PriceTimeExtends(makers: seq<Maker>, taker: nat, side: Side, limit: int, qty: nat, room: nat,
                         f: Fill, rest: Outcome<seq<Maker>>)
    requires makers != [] && room > 0 && makers[0].qty <= qty
    requires Trades(makers[0], f, taker, side, limit) && f.qty == makers[0].qty
    requires PriceTime(makers[1..], taker, side, limit, qty - f.qty, room - 1, rest)
    ensures PriceTime(makers, taker, side, limit, qty, room, rest.(fills := [f] + rest.fills))
  {
    WalkExtends(makers, f, rest.fills, taker, side, limit);
    assert ([f] + rest.fills)[1..] == rest.fills;
    assert makers[1..][|rest.fills|..] == makers[|rest.fills| + 1..];
  }

  lemma {:induction false} PriceTimePartial(makers: seq<Maker>, taker: nat, side: Side, limit: int, qty: nat, room: nat)
    requires makers != [] && room > 0 && 0 < qty < makers[0].qty && Crosses(side, limit, makers[0].price)
    ensures var m := makers[0];
            PriceTime(makers, taker, side, limit, qty, room,
                      Outcome([Fill(m.id, taker, m.price, qty)], [m.(qty := m.qty - qty)] + makers[1..], 0))
  {
    assert SumFills([Fill(makers[0].id, taker, makers[0].price, qty)]) == qty;
  }

  lemma {:induction false} GreedyIsPriceTime(makers: seq<Maker>, taker: nat, side: Side, limit: int, qty: nat, room: nat)
    requires forall i :: 0 <= i < |makers| ==> makers[i].qty > 0
    ensures PriceTime(makers, taker, side, limit, qty, room, Greedy(makers, taker, side, limit, qty, room))
    decreases |makers|
  {
    assert makers[0..] == makers;
    if qty > 0 && makers != [] && room > 0 && Crosses(side, limit, makers[0].price) {
      var m := makers[0];
      var f := Fill(m.id, taker, m.price, Min(qty, m.qty));
      if qty < m.qty {
        PriceTimePartial(makers, taker, side, limit, qty, room);
      } else {
        GreedyIsPriceTime(makers[1..], taker, side, limit, qty - m.qty, room - 1);
        var rest := Greedy(makers[1..], taker, side, limit, qty - m.qty, room - 1);
        PriceTimeExtends(makers, taker, side, limit, qty, room, f, rest);
      }
    }
  }

  lemma {:induction false} WalkSplits(makers: seq<Maker>, fills: seq<Fill>, taker: nat, side: Side, limit: int)
    requires fills != [] && WalksPrefix(makers, fills, taker, side, limit) && fills[0].qty == makers[0].qty
    ensures WalksPrefix(makers[1..], fills[1..], taker, side, limit)
    ensures LeftOver(makers, fills) == LeftOver(makers[1..], fills[1..])
  {
    var rest := fills[1..];
    forall i | 0 <= i < |rest|
      ensures Trades(makers[1..][i], rest[i], taker, side, limit)
      ensures i < |rest| - 1 ==> rest[i].qty == makers[1..][i].qty
    {
      assert rest[i] == fills[i + 1] && makers[1..][i] == makers[i + 1];
    }
    assert makers[1..][|rest|..] == makers[|fills|..];
  }

  lemma {:induction false} PartialUnique(makers: seq<Maker>, taker: nat, side: Side, limit: int, qty: nat, room: nat,
                                         o: Outcome<seq<Maker>>)
    requires PriceTime(makers, taker, side, limit, qty, room, o)
    requires o.fills != [] && o.fills[0].qty < makers[0].qty
    ensures o == Greedy(makers, taker, side, limit, qty, room)
  {
    var m, f := makers[0], o.fills[0];
    assert Trades(m, f, taker, side, limit);
    assert o.fills == [f] && SumFills([f]) == f.qty;
    assert o.left == [m.(qty := m.qty - f.qty)] + makers[1..];
    assert |o.left| == |makers| && o.remaining == 0;
  }

  lemma {:induction false} PriceTimeSplits(makers: seq<Maker>, taker: nat, side: Side, limit: int, qty: nat, room: nat,
                                           o: Outcome<seq<Maker>>)
    requires PriceTime(makers, taker, side, limit, qty, room, o)
    requires o.fills != [] && o.fills[0].qty == makers[0].qty
    ensures room > 0 && makers[0].qty <= qty
    ensures PriceTime(makers[1..], taker, side, limit, qty - makers[0].qty, room - 1, o.(fills := o.fills[1..]))
  {
    WalkSplits(makers, o.fills, taker, side, limit);
    assert makers[1..][|o.fills| - 1..] == makers[|o.fills|..];
  }

  /** Price-time priority leaves only one possible result. */
  lemma {:induction false} PriceTimeUnique(makers: seq<Maker>, taker: nat, side: Side, limit: int, qty: nat, room: nat,
                                           o: Outcome<seq<Maker>>)
    requires PriceTime(makers, taker, side, limit, qty, room, o)
    ensures o == Greedy(makers, taker, side, limit, qty, room)
    decreases |makers|
  {
    if o.fills == [] {
      assert makers[0..] == makers;
      return;
    }
    var m, f := makers[0], o.fills[0];
    assert Trades(m, f, taker, side, limit);
    if f.qty < m.qty {
      PartialUnique(makers, taker, side, limit, qty, room, o);
      return;
    }
    PriceTimeSplits(makers, taker, side, limit, qty, room, o);
    PriceTimeUnique(makers[1..], taker, side, limit, qty - m.qty, room - 1, o.(fills := o.fills[1..]));
    assert o.fills == [f] + o.fills[1..];
  }
}
