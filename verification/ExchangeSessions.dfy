/** Sessions: what a disconnect takes away and leaves alone, and whole runs of requests. */
module ExchangeSessions {
  import opened Machine
  import opened Books
  import opened Ladders
  import opened Matching
  import opened Purging
  import opened Exchange
  import opened ExchangeIds
  import opened ExchangeRuns

  /** The keys of a session in a set. */
  function KeysOf(keys: set<nat>, session: nat): set<nat> {
    set k | k in keys && SessionOf(k) == session
  }

  /** The exchange ids a session's entries name, in all books or in one. */
  function OrdersOf(m: IdMaps, session: nat): set<nat> {
    set k | k in m.fwd && SessionOf(k) == session :: m.fwd[k].xid
  }

  function OrdersIn(m: IdMaps, session: nat, symbol: nat): set<nat> {
    set k | k in m.fwd && SessionOf(k) == session && m.fwd[k].symbol == symbol :: m.fwd[k].xid
  }

  function Purged(books: seq<Book>, m: IdMaps, session: nat): seq<Book> {
    seq(|books|, i requires 0 <= i < |books| => PurgeBook(books[i], OrdersIn(m, session, i + 1)))
  }

  function Disconnect(c: Core, session: nat): Core {
    if session == 0 then c
    else
      c.(sessions := c.sessions - {session},
         books := Purged(c.books, c.ids, session),
         ids := IdMaps(c.ids.fwd - KeysOf(c.ids.fwd.Keys, session), c.ids.rev - OrdersOf(c.ids, session)),
         seen := c.seen - KeysOf(c.seen, session))
  }

  /** A new session under an id that was not in use. */
  function Connect(c: Core, session: nat): Core {
    c.(sessions := c.sessions + {session}, nextSession := (session + 1) % U16)
  }

  // ---------------------------------------------------------------------------
  // Disconnecting
  // ---------------------------------------------------------------------------

  lemma {:induction false} DropSessionIsClean(m: IdMaps, session: nat)
    requires Inverse(m)
    ensures IdMaps(m.fwd - KeysOf(m.fwd.Keys, session), m.rev - OrdersOf(m, session)) == Clean(m, OrdersOf(m, session))
  {
    var gone := OrdersOf(m, session);
    forall k | k in m.fwd
      ensures m.fwd[k].xid in gone <==> SessionOf(k) == session
    {
      if m.fwd[k].xid in gone {
        var k' :| k' in m.fwd && SessionOf(k') == session && m.fwd[k'].xid == m.fwd[k].xid;
        assert k == KeyOf(m.rev[m.fwd[k].xid]) == k';
      }
    }
  }

  /** Where a named order rests, the ids purged there are exactly the session's. */
  lemma {:induction false} PurgedHere(m: IdMaps, i: int, s: Side, x: nat, session: nat)
    requires Inverse(m) && Named(m, i, s, x) && i >= 0
    ensures x in OrdersIn(m, session, i + 1) <==> x in OrdersOf(m, session)
  {
    if x in OrdersOf(m, session) {
      var k :| k in m.fwd && SessionOf(k) == session && m.fwd[k].xid == x;
      assert k == KeyOf(m.rev[x]);
    }
  }

  lemma {:induction false} PurgedRests(m: IdMaps, books: seq<Book>, session: nat, i: int, s: Side, x: nat)
    requires Inverse(m) && Listing(m, books)
    ensures RestsAt(Purged(books, m, session), i, s, x) <==> RestsAt(books, i, s, x) && x !in OrdersOf(m, session)
  {
    if 0 <= i < |books| {
      PurgeIds(books[i].Ladder(s), OrdersIn(m, session, i + 1), x);
      assert Purged(books, m, session)[i].Ladder(s) == Purge(books[i].Ladder(s), OrdersIn(m, session, i + 1));
      if RestsAt(books, i, s, x) {
        PurgedHere(m, i, s, x, session);
      }
    }
  }

  lemma {:induction false} PurgedSound(m: IdMaps, books: seq<Book>, session: nat)
    requires SoundBooks(books)
    ensures SoundBooks(Purged(books, m, session))
  {
    hide WellFormed, Uncrossed, OrdersIn;
    forall i | 0 <= i < |books|
      ensures WellFormed(Purged(books, m, session)[i]) && Uncrossed(Purged(books, m, session)[i])
    {
      PurgeKeeps(books[i], OrdersIn(m, session, i + 1));
    }
  }

  lemma {:induction false} PurgedStanding(m: IdMaps, books: seq<Book>, session: nat)
    requires Inverse(m) && Standing(m, books) && Listing(m, books)
    ensures Standing(Clean(m, OrdersOf(m, session)), Purged(books, m, session))
  {
    hide OrdersOf, Purged, RestsAt, KeyOf, Named;
    var m' := Clean(m, OrdersOf(m, session));
    forall x | x in m'.rev
      ensures KeyOf(m'.rev[x]) in m'.fwd
      ensures RestsAt(Purged(books, m, session), m'.fwd[KeyOf(m'.rev[x])].symbol - 1, m'.fwd[KeyOf(m'.rev[x])].side, x)
    {
      var e := m.fwd[KeyOf(m.rev[x])];
      PurgedRests(m, books, session, e.symbol - 1, e.side, x);
    }
  }

  lemma {:induction false} PurgedListing(m: IdMaps, books: seq<Book>, session: nat)
    requires Inverse(m) && Listing(m, books)
    ensures Listing(Clean(m, OrdersOf(m, session)), Purged(books, m, session))
  {
    hide OrdersOf, Purged, RestsAt, KeyOf;
    forall i, s, x | RestsAt(Purged(books, m, session), i, s, x)
      ensures Named(Clean(m, OrdersOf(m, session)), i, s, x)
    {
      PurgedRests(m, books, session, i, s, x);
      assert Named(m, i, s, x);
    }
  }

  lemma {:induction false} PurgedCoherent(m: IdMaps, books: seq<Book>, session: nat)
    requires Coherent(m, books)
    ensures Coherent(Clean(m, OrdersOf(m, session)), Purged(books, m, session))
  {
    hide SoundBooks, Inverse, Standing, Listing, Clean, OrdersOf, Purged;
    CleanInverse(m, OrdersOf(m, session));
    PurgedSound(m, books, session);
    PurgedStanding(m, books, session);
    PurgedListing(m, books, session);
  }

  lemma {:induction false} DisconnectKeeps(c: Core, session: nat)
    requires Linked(c)
    ensures Linked(Disconnect(c, session))
  {
    if session != 0 {
      CoherentInverse(c.ids, c.books);
      DropSessionIsClean(c.ids, session);
      PurgedCoherent(c.ids, c.books, session);
    }
  }

  /** A reverse entry of the session that none of its forward entries names. */
  ghost predicate Stray(m: IdMaps, session: nat, x: nat) {
    x in m.rev && m.rev[x].session == session && x !in OrdersOf(m, session)
  }

  lemma {:induction false} PurgedBook(c: Core, session: nat, i: int, s: Side, x: nat)
    requires session != 0
    ensures RestsAt(Disconnect(c, session).books, i, s, x) <==>
            RestsAt(c.books, i, s, x) && x !in OrdersIn(c.ids, session, i + 1)
  {
    if 0 <= i < |c.books| {
      PurgeIds(c.books[i].Ladder(s), OrdersIn(c.ids, session, i + 1), x);
      assert Disconnect(c, session).books[i].Ladder(s) == Purge(c.books[i].Ladder(s), OrdersIn(c.ids, session, i + 1));
    }
  }

  /** Of every core, whatever its tables refused before: a disconnect leaves no key of the session
      in the seen set or the forward map, takes from each book exactly the orders its forward
      entries name there, and leaves of its reverse entries exactly the strays. */
  lemma {:induction false} DisconnectForgets(c: Core, session: nat)
    requires session != 0
    ensures var d := Disconnect(c, session);
            && session !in d.sessions
            && (forall k :: k in d.seen || k in d.ids.fwd ==> SessionOf(k) != session)
            && (forall x :: x in d.ids.rev && d.ids.rev[x].session == session <==> Stray(c.ids, session, x))
            && (forall i: int, s, x :: RestsAt(d.books, i, s, x) <==>
                  RestsAt(c.books, i, s, x) && x !in OrdersIn(c.ids, session, i + 1))
  {
    forall i: int, s, x
      ensures RestsAt(Disconnect(c, session).books, i, s, x) <==>
              RestsAt(c.books, i, s, x) && x !in OrdersIn(c.ids, session, i + 1)
    {
      PurgedBook(c, session, i, s, x);
    }
  }

  lemma {:induction false} InverseNoStrays(m: IdMaps, session: nat)
    requires Inverse(m)
    ensures forall x :: !Stray(m, session, x)
  {
    forall x | x in m.rev && m.rev[x].session == session
      ensures x in OrdersOf(m, session)
    {
      KeyParts(m.rev[x].session, m.rev[x].cid);
      assert KeyOf(m.rev[x]) in m.fwd && SessionOf(KeyOf(m.rev[x])) == session;
    }
  }

  /** With maps and books linked, a disconnect removes every trace of the session: its keys, its
      ids and its resting orders. */
  lemma {:induction false} LinkedForgets(c: Core, session: nat)
    requires Linked(c) && session != 0
    ensures var d := Disconnect(c, session);
            && session !in d.sessions
            && (forall k :: k in d.seen || k in d.ids.fwd ==> SessionOf(k) != session)
            && (forall x :: x in d.ids.rev ==> d.ids.rev[x].session != session)
            && (forall i, s, x :: RestsAt(d.books, i, s, x) ==> x in d.ids.rev && d.ids.rev[x].session != session)
  {
    var d := Disconnect(c, session);
    DisconnectForgets(c, session);
    DisconnectKeeps(c, session);
    CoherentInverse(c.ids, c.books);
    InverseNoStrays(c.ids, session);
    forall x | x in d.ids.rev
      ensures d.ids.rev[x].session != session
    {
      assert !Stray(c.ids, session, x);
    }
    forall i, s, x | RestsAt(d.books, i, s, x)
      ensures x in d.ids.rev
    {
      assert Named(d.ids, i, s, x);
    }
  }

  lemma {:induction false} EnterStrays(m: IdMaps, id: nat, side: Side, w: Owner, o: Oracle, session: nat, x: nat)
    requires Inverse(m) && id !in m.rev && KeyOf(w) !in m.fwd && w.session == session < U16 && w.cid < CLIENT_IDS
    ensures Stray(Enter(m, id, side, w, o), session, x) <==> x == id && !o.fwd && o.rev
  {
    InverseNoStrays(m, session);
    assert !Stray(m, session, x);
    KeyParts(session, w.cid);
    var m' := Enter(m, id, side, w, o);
    if x in OrdersOf(m, session) {
      var k :| k in m.fwd && SessionOf(k) == session && m.fwd[k].xid == x;
      assert k in m'.fwd && m'.fwd[k].xid == x;
    }
    if o.fwd {
      assert KeyOf(w) in m'.fwd && m'.fwd[KeyOf(w)].xid == id;
    }
    if x == id && !o.fwd {
      assert forall k :: k in m.fwd ==> m.fwd[k].xid in m.rev;
    }
  }

  /** A submission to a linked core leaves a stray if and only if it comes to rest, the forward map
      refuses it and the reverse map takes it; the stray is its own exchange id. */
  lemma {:induction false} SubmitStrays(c: Core, session: nat, q: NewOrder, o: Oracle, x: nat)
    requires Linked(c) && session < U16 && q.qty < U32
    ensures Stray(SubmitOrder(c, session, q, o).0.ids, session, x) <==>
            x == c.nextId && Rests(c, session, q, o) && !o.fwd && o.rev
  {
    hide SubmitOrder, Rests, Stray, Enter, Linked, Key, Inverse;
    if Rests(c, session, q, o) {
      var m := RestedIds(c, session, q, o);
      EnterStrays(m, c.nextId, q.side, Owner(session, q.cid, q.symbol, q.ts), o, session, x);
    } else {
      SubmitUnrested(c, session, q, o);
      InverseNoStrays(SubmitOrder(c, session, q, o).0.ids, session);
      assert !Stray(SubmitOrder(c, session, q, o).0.ids, session, x);
    }
  }

  /** The maps after an order came to rest: the maps m when its trades were reported, and its entry
      as far as they took it. */
  lemma {:induction false} RestedIds(c: Core, session: nat, q: NewOrder, o: Oracle) returns (m: IdMaps)
    requires Linked(c) && Rests(c, session, q, o)
    ensures Inverse(m) && q.cid < CLIENT_IDS && KeyOf(Owner(session, q.cid, q.symbol, q.ts)) !in m.fwd && c.nextId !in m.rev
    ensures SubmitOrder(c, session, q, o).0.ids == Enter(m, c.nextId, q.side, Owner(session, q.cid, q.symbol, q.ts), o)
  {
    hide Submit, Report, Key, Coherent;
    var (r, b) := Submit(c.books[q.symbol - 1], c.nextId, q.side, q.price, q.qty, MAX_FILLS, o.rests);
    CoherentInverse(c.ids, c.books);
    ReportCleans(c.ids, b, Taker(session, q.cid, c.nextId, q.symbol, q.side, q.ts), r.fills, q.qty);
    CleanInverse(c.ids, Gone(r.fills, b));
    m := Clean(c.ids, Gone(r.fills, b));
    NewKeys(c, session, q.cid);
  }

  lemma {:induction false} NewKeys(c: Core, session: nat, cid: nat)
    requires Linked(c) && Key(session, cid) !in c.seen
    ensures Key(session, cid) !in c.ids.fwd && c.nextId !in c.ids.rev
  {
  }

  lemma {:induction false} SubmitUnrested(c: Core, session: nat, q: NewOrder, o: Oracle)
    requires Linked(c) && session < U16 && q.qty < U32 && !Rests(c, session, q, o)
    ensures Inverse(SubmitOrder(c, session, q, o).0.ids)
  {
    hide SubmitOrder, Rests;
    SubmitKeepsExactly(c, session, q, o);
    CoherentInverse(SubmitOrder(c, session, q, o).0.ids, SubmitOrder(c, session, q, o).0.books);
  }

  /** Other sessions' orders keep their price, quantity and place in line. */
  lemma {:induction false} DisconnectSpares(c: Core, session: nat, i: nat, side: Side)
    requires Linked(c) && session != 0 && i < |c.books|
    ensures Flatten(Disconnect(c, session).books[i].Ladder(side)) ==
            Filter(Flatten(c.books[i].Ladder(side)), OrdersIn(c.ids, session, i + 1))
    ensures forall x :: x in OrdersIn(c.ids, session, i + 1) ==> x in c.ids.rev && c.ids.rev[x].session == session
  {
    PurgeFlatten(c.books[i].Ladder(side), OrdersIn(c.ids, session, i + 1));
    forall x | x in OrdersIn(c.ids, session, i + 1)
      ensures x in c.ids.rev && c.ids.rev[x].session == session
    {
      var k :| k in c.ids.fwd && SessionOf(k) == session && c.ids.fwd[k].xid == x;
      assert k == KeyOf(c.ids.rev[x]);
      KeyParts(c.ids.rev[x].session, c.ids.rev[x].cid);
    }
  }
}
