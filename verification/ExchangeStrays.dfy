/** What a refused forward entry leads to, step by step on values: an order that outlives its session
    and a fill for whoever has the session id by then. */
module ExchangeStrays {
  import opened Machine
  import opened Books
  import opened Ladders
  import opened Matching
  import opened Quantities
  import opened Purging
  import opened Exchange
  import opened ExchangeRuns
  import opened ExchangeSessions

  /** The core trades one symbol, and nobody bids. */
  ghost predicate OnlyAsks(c: Core, asks: seq<Level>) {
    c.books == [Book([], asks)] && c.live == [true]
  }

  function AskFor(cid: nat, price: int, qty: nat): NewOrder {
    NewOrder(cid, 1, Ask, price, qty, 0)
  }

  function WithAsks(c: Core, asks: seq<Level>): Core {
    c.(books := [Book([], asks)])
  }

  lemma {:induction false} RestAlone(asks: seq<Level>, id: nat, price: int)
    requires id !in Ids(asks)
    ensures Submit(Book([], asks), id, Ask, price, 5, MAX_FILLS, true) ==
            (MatchResult([], 5, true), Book([], Rest(Ask, asks, price, Order(id, 5))))
  {
    hide Rest;
    assert Sweep([], id, Ask, price, 5, MAX_FILLS) == Outcome([], [], 5);
  }

  lemma {:induction false} NothingToReport(m: IdMaps, b: Book, t: Taker, qty: nat)
    ensures Report(m, b, t, [], qty) == (m, [])
  {
  }

  /** An ask of session 1 comes to rest without a trade. */
  lemma {:induction false} AskRests(c: Core, asks: seq<Level>, cid: nat, price: int, o: Oracle)
    requires OnlyAsks(c, asks) && cid < CLIENT_IDS && Key(1, cid) !in c.seen && c.nextId !in Ids(asks) && o.seen && o.rests
    ensures var q := AskFor(cid, price, 5);
            && Rests(c, 1, q, o) && Reported(c, 1, q, o) == c.ids
            && SubmitOrder(c, 1, q, o).0 ==
               WithAsks(c, Rest(Ask, asks, price, Order(c.nextId, 5)))
               .(nextId := c.nextId + 1, seen := c.seen + {Key(1, cid)},
                 ids := Enter(c.ids, c.nextId, Ask, Owner(1, cid, 1, 0), o))
  {
    var q := AskFor(cid, price, 5);
    RestAlone(asks, c.nextId, price);
    hide Submit, Key, Rest, Ids;
    var b := Book([], Rest(Ask, asks, price, Order(c.nextId, 5)));
    NothingToReport(c.ids, b, Taker(1, cid, c.nextId, 1, Ask, 0), 5);
    hide Report;
    assert c.books[0 := b] == [b];
  }

  /** An order for nothing uses up a client id and an exchange id. */
  lemma {:induction false} AskNothing(c: Core, asks: seq<Level>, cid: nat, o: Oracle)
    requires OnlyAsks(c, asks) && cid < CLIENT_IDS && Key(1, cid) !in c.seen && o.seen
    ensures var q := AskFor(cid, 10, 0);
            && !Rests(c, 1, q, o)
            && SubmitOrder(c, 1, q, o).0 == c.(nextId := c.nextId + 1, seen := c.seen + {Key(1, cid)})
  {
    hide Key, Report;
    assert Submit(c.books[0], c.nextId, Ask, 10, 0, MAX_FILLS, o.rests) == (MatchResult([], 0, false), c.books[0]);
    assert c.books[0 := c.books[0]] == c.books;
  }

  // ---------------------------------------------------------------------------
  // The cores of the run, as far as orders are concerned
  // ---------------------------------------------------------------------------

  const ONE := Level(10, [Order(1, 5)])
  const TWO := Level(11, [Order(2, 5)])
  const FIVE := Level(10, [Order(5, 5)])

  function Entry(xid: nat): IdEntry {
    IdEntry(xid, Ask, 1)
  }

  function Asker(cid: nat): Owner {
    Owner(1, cid, 1, 0)
  }

  lemma {:induction false} Resting()
    ensures Rest(Ask, [], 10, Order(1, 5)) == [ONE] && Rest(Ask, [ONE], 11, Order(2, 5)) == [ONE, TWO]
    ensures Rest(Ask, [TWO], 10, Order(5, 5)) == [FIVE, TWO]
    ensures 1 !in Ids([]) && 2 !in Ids([ONE]) && 5 !in Ids([TWO])
  {
    assert [ONE][1..] == [] && [TWO][1..] == [];
    assert Rest(Ask, [ONE], 11, Order(2, 5)) == [ONE] + [TWO];
    assert Rest(Ask, [TWO], 10, Order(5, 5)) == [FIVE] + [TWO];
  }

  lemma {:induction false} CancelFirst()
    ensures CancelBook(Book([], [ONE, TWO]), 1) == Book([], [TWO]) && 1 in BookIds(Book([], [ONE, TWO]))
  {
    assert [ONE, TWO][1..] == [TWO] && [TWO][1..] == [] && ONE.orders[1..] == [] && TWO.orders[1..] == [];
    assert DropId(ONE.orders, 1) == [] && DropId(TWO.orders, 1) == TWO.orders;
    assert Cancel([TWO], 1) == [TWO] + [];
    assert Ids([ONE, TWO])[1] >= 1;
  }

  lemma {:induction false} PurgeSecond()
    ensures PurgeBook(Book([], [FIVE, TWO]), {2}) == Book([], [FIVE])
  {
    assert [FIVE, TWO][1..] == [TWO] && [TWO][1..] == [] && FIVE.orders[1..] == [] && TWO.orders[1..] == [];
    assert DropIds(FIVE.orders, {2}) == FIVE.orders && DropIds(TWO.orders, {2}) == [];
    assert Purge([TWO], {2}) == [];
    assert Purge([FIVE, TWO], {2}) == [FIVE] + [];
  }

  /** The cancel of the first order. */
  lemma {:induction false} Cancelled(c: Core)
    requires OnlyAsks(c, [ONE, TWO])
    requires c.ids == IdMaps(map[Key(1, 1) := Entry(1), Key(1, 2) := Entry(2)], map[1 := Asker(1), 2 := Asker(2)])
    ensures CancelOrder(c, 1, 1, 1, 0).0 ==
            WithAsks(c, [TWO]).(ids := IdMaps(map[Key(1, 2) := Entry(2)], map[2 := Asker(2)]))
  {
    KeysDiffer();
    CancelFirst();
    hide Key, CancelBook, BookIds;
    assert map[Key(1, 1) := Entry(1), Key(1, 2) := Entry(2)] - {Key(1, 1)} == map[Key(1, 2) := Entry(2)];
    assert map[1 := Asker(1), 2 := Asker(2)] - {1} == map[2 := Asker(2)];
  }

  lemma {:induction false} KeysDiffer()
    ensures Key(1, 1) != Key(1, 2) && (forall i: nat, j: nat :: i < 7 && j < 7 && Key(1, i) == Key(1, j) ==> i == j)
    ensures forall i: nat :: i < 7 ==> SessionOf(Key(1, i)) == 1 && Key(1, i) % 4 == i % 4
  {
  }

  /** The end of session 1: the order only the reverse map knows stays in the book, and so does its
      owner. */
  lemma {:induction false} Left(c: Core)
    requires OnlyAsks(c, [FIVE, TWO]) && c.ids == IdMaps(map[Key(1, 2) := Entry(2)], map[2 := Asker(2), 5 := Asker(3)])
    requires c.seen == {Key(1, 1), Key(1, 2), Key(1, 3), Key(1, 5), Key(1, 6)}
    ensures Disconnect(c, 1) ==
            WithAsks(c, [FIVE]).(sessions := c.sessions - {1}, seen := {}, ids := IdMaps(map[], map[5 := Asker(3)]))
  {
    KeysDiffer();
    PurgeSecond();
    hide Key, PurgeBook, SessionOf;
    assert KeysOf(c.ids.fwd.Keys, 1) == {Key(1, 2)} && KeysOf(c.seen, 1) == c.seen;
    assert OrdersOf(c.ids, 1) == {2} by {
      assert Key(1, 2) in c.ids.fwd;
    }
    assert OrdersIn(c.ids, 1, 1) == {2} by {
      assert Key(1, 2) in c.ids.fwd;
    }
    assert map[2 := Asker(2), 5 := Asker(3)] - {2} == map[5 := Asker(3)];
    assert Disconnect(c, 1).books == [Book([], [FIVE])];
  }

  /** A session that comes and goes without an order only moves the counter. */
  lemma {:induction false} CameAndWent(c: Core, s: nat)
    requires OnlyAsks(c, [FIVE]) && c.seen == {} && c.ids.fwd == map[] && s != 0 && s !in c.sessions
    ensures Disconnect(Connect(c, s), s) == c.(nextSession := (s + 1) % U16)
  {
    var d := Connect(c, s);
    assert OrdersIn(d.ids, s, 1) == {} && OrdersOf(d.ids, s) == {} && KeysOf(d.ids.fwd.Keys, s) == {} && KeysOf(d.seen, s) == {};
    DropNone(FIVE.orders);
    assert [FIVE][1..] == [];
    assert Purge([FIVE], {}) == [FIVE] + [];
    assert PurgeBook(d.books[0], OrdersIn(d.ids, s, 1)) == d.books[0];
    assert Disconnect(d, s).books == [Book([], [FIVE])];
    assert c.sessions + {s} - {s} == c.sessions;
  }

  /** A buyer takes what the stray order offers: its fill is reported to session 1. */
  lemma {:induction false} Taken(c: Core, o: Oracle)
    requires OnlyAsks(c, [FIVE]) && c.nextId == 6 && c.seen == {} && c.ids == IdMaps(map[], map[5 := Asker(3)]) && o.seen
    ensures var es := SubmitOrder(c, 2, NewOrder(1, 1, Bid, 10, 5, 0), o).1;
            |es| == 3 && es[2] == Filled(1, 3, 5, 1, Ask, 10, 5, 0, 0)
  {
    TradeFive(o.rests);
    hide Submit, Key;
    var f, t := Fill(5, 6, 10, 5), Taker(2, 1, 6, 1, Bid, 0);
    assert BookQty(EMPTY_BOOK, 5) == 0 && 5 !in BookIds(EMPTY_BOOK);
    var (m1, made) := ReportMaker(c.ids, EMPTY_BOOK, f, Bid);
    assert made == [Filled(1, 3, 5, 1, Ask, 10, 5, 0, 0)];
    assert Bbos(1, EMPTY_BOOK) == [];
    assert [f][1..] == [];
    assert Report(c.ids, EMPTY_BOOK, t, [f], 5).1 == [TakerFill(t, f, 0)] + made + [] + [];
  }

  lemma {:induction false} TradeFive(accept: bool)
    ensures Submit(Book([], [FIVE]), 6, Bid, 10, 5, MAX_FILLS, accept) == (MatchResult([Fill(5, 6, 10, 5)], 0, false), EMPTY_BOOK)
  {
    var L := [FIVE];
    assert L[0].orders[1..] == [] && QueueIds(L[0].orders) == multiset{5} && Ids(L) == multiset{5};
    assert FillFront(L, 5) == [];
    assert Sweep([], 6, Bid, 10, 0, MAX_FILLS - 1) == Outcome([], [], 0);
    assert Sweep(L, 6, Bid, 10, 5, MAX_FILLS) == Outcome([Fill(5, 6, 10, 5)] + [], [], 0);
    assert [Fill(5, 6, 10, 5)] + [] == [Fill(5, 6, 10, 5)];
    assert BookIds(Book([], L)) == multiset{5};
    hide Sweep;
    assert Book([], L).WithLadder(Ask, []) == EMPTY_BOOK;
  }
}
