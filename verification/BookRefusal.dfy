/** How the level map comes to refuse a price although levels are free: by levels in use, and in an
    empty book by the tombstones of levels long gone. */
module BookRefusals {
  import opened Machine
  import opened Books
  import opened Ladders
  import opened HashTable
  import opened BookRep
  import opened Wiring
  import opened BookParts
  import opened OrderBooks

  /** A book of eight orders and four levels whose maps have seen n orders and n bid levels. */
  ghost predicate Seen(b: OrderBook, n: nat, levelCap: nat)
    reads b.Repr
  {
    && b.Assembled() && b.Valid() && b.chains.nO == 8 && b.chains.nL == 4
    && b.index.orderMap.capacity == 16 && b.index.orderMap.maxLoad == 11
    && b.index.bidMap.capacity == levelCap && b.index.bidMap.maxLoad == levelCap * 7 / 10
    && b.Wear().orders.load <= n && b.Wear().bids.load <= n && b.Wear().asks.load == 0
  }

  method NewBook(levelCap: nat, hashId: nat -> nat, hashPrice: int -> nat) returns (b: OrderBook)
    requires levelCap == 4 || levelCap == 8
    ensures fresh(b.Repr) && Seen(b, 0, levelCap) && b.Value() == EMPTY_BOOK && b.index.bidMap.Fresh(levelCap, hashPrice)
  {
    hide HashMap.Valid, OrderBook.Valid, OrderBook.Value;
    assert IsPow2(16);
    assert IsPow2(4);
    assert IsPow2(8);
    b := CreateBook(8, 4, 16, levelCap, hashId, hashPrice);
    b.Whole();
  }

  lemma {:induction false} Room(b: OrderBook, id: nat, price: int, n: nat, levelCap: nat)
    requires Seen(b, n, levelCap) && n < levelCap * 7 / 10 && n < 11 && (n < 4 || b.Value() == EMPTY_BOOK)
    ensures b.CanRest(id, Bid, price)
  {
    hide HashMap.Valid, HashMap.Refuses, OrderBook.Valid, OrderBook.Value, OrderBook.CanRest;
    if n < 4 {
      b.LightlyWorn(Bid);
    } else {
      b.EmptyMaps();
    }
    b.RoomRests(id, Bid, price);
  }

  /** Adding a bid to a book whose maps are little worn. */
  method AddBid(b: OrderBook, id: nat, price: int, ghost n: nat, ghost levelCap: nat)
    requires Seen(b, n, levelCap) && n < levelCap * 7 / 10 && n < 11 && id !in BookIds(b.Value())
    requires n < 4 || b.Value() == EMPTY_BOOK
    modifies b.Repr
    ensures Seen(b, n + 1, levelCap)
    ensures b.Value() == old(b.Value()).WithLadder(Bid, Rest(Bid, old(b.Value()).bids, price, Order(id, 1)))
    ensures price !in old(b.index.bidMap.contents) ==>
              TakesHome(old(b.Wear()).bids, b.Wear().bids, b.index.bidMap.Home(price))
  {
    hide HashMap.Valid, HashMap.Home, HashMap.Refuses, OrderBook.Valid, OrderBook.Value, TakesHome, BookIds, Rest;
    Room(b, id, price, n, levelCap);
    var _ := b.AddOrder(id, Bid, price, 1);
  }

  lemma {:induction false} TwoBids()
    ensures var one := EMPTY_BOOK.WithLadder(Bid, Rest(Bid, [], 10, Order(1, 1)));
            && 2 !in BookIds(one) && one.bids == [Level(10, [Order(1, 1)])]
            && Rest(Bid, one.bids, 11, Order(2, 1)) == [Level(11, [Order(2, 1)]), Level(10, [Order(1, 1)])]
  {
  }

  /** Under any hash: a book of four levels whose level map has four slots takes two prices, and
      refuses a third with two levels free. */
  method ThirdPrice(hashId: nat -> nat, hashPrice: int -> nat) returns (b: OrderBook, ok: bool)
    ensures b.Valid() && !ok && |b.Value().bids| == 2 && b.Value().asks == [] && b.chains.nL == 4
  {
    hide HashMap.Valid, HashMap.Home, HashMap.Refuses, OrderBook.Valid, OrderBook.Value, TakesHome, BookIds, Rest;
    b := NewBook(4, hashId, hashPrice);
    TwoBids();
    EmptyIds(1);
    AddBid(b, 1, 10, 0, 4);
    AddBid(b, 2, 11, 1, 4);
    b.LevelMapRefuses(Bid, 12);
    ok := b.AddOrder(3, Bid, 12, 1);
  }

  lemma {:induction false} EmptyIds(id: nat)
    ensures id !in BookIds(EMPTY_BOOK)
  {
  }

  lemma {:induction false} CameAndWent(id: nat, price: int)
    ensures CancelBook(EMPTY_BOOK.WithLadder(Bid, Rest(Bid, [], price, Order(id, 1))), id) == EMPTY_BOOK
  {
    assert Rest(Bid, [], price, Order(id, 1)) == [Level(price, [Order(id, 1)])];
    assert DropId([Order(id, 1)], id) == [];
    assert [Level(price, [Order(id, 1)])][1..] == [];
  }

  /** An empty book has seen n prices come and go: each has used up the slot of its own, and the
      slots after that are empty. */
  ghost predicate Stale(b: OrderBook, n: nat)
    reads b.Repr
  {
    && Seen(b, n, 8) && b.Value() == EMPTY_BOOK && (forall k: nat :: k < 8 ==> b.index.bidMap.Home(k) == k)
    && b.Wear().bids.load == n && (forall p: nat :: n < p < 8 ==> p in b.Wear().bids.vacant)
  }

  method ComeAndGo(b: OrderBook, n: nat)
    requires Stale(b, n) && n < 5
    modifies b.Repr
    ensures Stale(b, n + 1)
  {
    hide HashMap.Valid, HashMap.Home, HashMap.Refuses, HashMap.Wear, OrderBook.Valid, OrderBook.Value, BookIds, Rest, CancelBook;
    EmptyIds(n + 1);
    b.EmptyMaps();
    AddBid(b, n + 1, n + 1, n, 8);
    CameAndWent(n + 1, n + 1);
    var _ := b.CancelOrder(n + 1);
  }

  /** In a book of four levels whose level map has twice as many slots, five prices come and go one
      after the other. The book is empty, every level and every order slot is free, and the next
      price is refused. */
  method StaleLevels() returns (b: OrderBook, ok: bool)
    ensures b.Valid() && !ok && b.Value() == EMPTY_BOOK && b.chains.nL == 4 && b.index.bidMap.capacity == 8
  {
    hide HashMap.Valid, HashMap.Refuses, OrderBook.Valid, OrderBook.Value, BookIds, Rest;
    b := NewBook(8, k => k, (p: int) => if p < 0 then 0 else p);
    assert IsPow2(8);
    for n := 0 to 5
      invariant fresh(b.Repr) && Stale(b, n)
    {
      ComeAndGo(b, n);
    }
    b.EmptyMaps();
    b.TombstonesRefuse(Bid, 6);
    ok := b.AddOrder(6, Bid, 6, 1);
  }
}
