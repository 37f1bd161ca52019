/** What every run of the exchange core keeps. */
module ExchangeRuns {
  import opened Machine
  import opened Books
  import opened Ladders
  import opened Matching
  import opened Quantities
  import opened Accounting
  import opened Exchange
  import opened ExchangeIds

  /** Order x rests on side s of the book with index i. */
  ghost predicate RestsAt(books: seq<Book>, i: int, s: Side, x: nat) {
    0 <= i < |books| && x in Ids(books[i].Ladder(s))
  }

  /** The maps know x, with that symbol and side. */
  ghost predicate Named(m: IdMaps, i: int, s: Side, x: nat) {
    && x in m.rev && KeyOf(m.rev[x]) in m.fwd
    && m.fwd[KeyOf(m.rev[x])].xid == x && m.fwd[KeyOf(m.rev[x])].side == s && m.fwd[KeyOf(m.rev[x])].symbol == i + 1
  }

  /** Every order in the maps rests where its entry says. */
  ghost predicate Standing(m: IdMaps, books: seq<Book>) {
    forall x :: x in m.rev ==>
      KeyOf(m.rev[x]) in m.fwd && RestsAt(books, m.fwd[KeyOf(m.rev[x])].symbol - 1, m.fwd[KeyOf(m.rev[x])].side, x)
  }

  /** Every resting order is in the maps. */
  ghost predicate Listing(m: IdMaps, books: seq<Book>) {
    forall i, s, x :: RestsAt(books, i, s, x) ==> Named(m, i, s, x)
  }

  ghost predicate SoundBooks(books: seq<Book>) {
    forall i :: 0 <= i < |books| ==> WellFormed(books[i]) && Uncrossed(books[i])
  }

  /** Sound books whose resting orders are exactly those the two inverse maps name. */
  ghost predicate Coherent(m: IdMaps, books: seq<Book>) {
    SoundBooks(books) && Inverse(m) && Standing(m, books) && Listing(m, books)
  }

  /** Maps, books and the seen set agree, whichever sessions the keys are of. */
  ghost predicate Linked(c: Core) {
    && |c.books| == |c.live| && Coherent(c.ids, c.books)
    && (forall x :: x in c.ids.rev ==> x < c.nextId)
    && c.ids.fwd.Keys <= c.seen
  }

  /** Every seen key is of a session in use. */
  ghost predicate Manned(c: Core) {
    && (forall k :: k in c.seen ==> SessionOf(k) in c.sessions)
    && (forall s :: s in c.sessions ==> 0 < s < U16)
  }

  ghost predicate Consistent(c: Core) {
    Linked(c) && Manned(c)
  }

  lemma {:induction false} NotInBooks(m: IdMaps, books: seq<Book>, i: nat, x: nat)
    requires Listing(m, books) && x !in m.rev && i < |books|
    ensures x !in BookIds(books[i])
  {
    if x in BookIds(books[i]) {
      var s := if x in Ids(books[i].bids) then Bid else Ask;
      assert RestsAt(books, i, s, x);
    }
  }

  // ---------------------------------------------------------------------------
  // One book changes
  // ---------------------------------------------------------------------------

  /** From b to b' the ids in gone leave, nothing else moves, and only id may be new. */
  ghost predicate Moves(b: Book, b': Book, gone: set<nat>, id: nat) {
    && (forall s, x :: x in Ids(b'.Ladder(s)) && x != id ==> x in Ids(b.Ladder(s)))
    && (forall s, x :: x in Ids(b.Ladder(s)) && x !in gone ==> x in Ids(b'.Ladder(s)))
    && (forall x :: x in gone ==> x in BookIds(b) && x !in BookIds(b'))
  }

  /** Every resting order but one is in the maps. */
  ghost predicate ListingBut(m: IdMaps, books: seq<Book>, id: nat) {
    forall i, s, x :: RestsAt(books, i, s, x) && x != id ==> Named(m, i, s, x)
  }

  lemma {:induction false} CleanStanding(m: IdMaps, books: seq<Book>, i: nat, b: Book, gone: set<nat>, id: nat)
    requires Inverse(m) && Standing(m, books) && i < |books| && Moves(books[i], b, gone, id)
    ensures Standing(Clean(m, gone), books[i := b])
  {
    hide Ids, BookIds;
    var m', books' := Clean(m, gone), books[i := b];
    forall x | x in m'.rev
      ensures KeyOf(m'.rev[x]) in m'.fwd
      ensures RestsAt(books', m'.fwd[KeyOf(m'.rev[x])].symbol - 1, m'.fwd[KeyOf(m'.rev[x])].side, x)
    {
      var e := m.fwd[KeyOf(m.rev[x])];
      assert RestsAt(books, e.symbol - 1, e.side, x);
    }
  }

  lemma {:induction false} CleanListing(m: IdMaps, books: seq<Book>, i: nat, b: Book, gone: set<nat>, id: nat)
    requires Inverse(m) && Listing(m, books) && i < |books| && Moves(books[i], b, gone, id)
    ensures ListingBut(Clean(m, gone), books[i := b], id)
  {
    var m', books' := Clean(m, gone), books[i := b];
    forall j, s, x | RestsAt(books', j, s, x) && x != id
      ensures Named(m', j, s, x)
    {
      assert RestsAt(books, j, s, x);
      StaysPut(m, books, i, b, gone, id, j, s, x);
    }
  }

  /** An order that still rests after the change is not among those gone. */
  lemma {:induction false} StaysPut(m: IdMaps, books: seq<Book>, i: nat, b: Book, gone: set<nat>, id: nat, j: int, s: Side, x: nat)
    requires Listing(m, books) && i < |books| && Moves(books[i], b, gone, id)
    requires RestsAt(books, j, s, x) && RestsAt(books[i := b], j, s, x)
    ensures x !in gone
  {
    assert RestsAt(books, i, Bid, x) ==> Named(m, i, Bid, x);
    assert RestsAt(books, i, Ask, x) ==> Named(m, i, Ask, x);
    assert Named(m, j, s, x);
  }

  lemma {:induction false} EnterStanding(m: IdMaps, books: seq<Book>, i: nat, id: nat, side: Side, w: Owner, o: Oracle)
    requires Standing(m, books) && RestsAt(books, i, side, id) && KeyOf(w) !in m.fwd && w.symbol == i + 1 && o.fwd && o.rev
    ensures Standing(Enter(m, id, side, w, o), books)
  {
    hide RestsAt, KeyOf;
    var m' := Enter(m, id, side, w, o);
    forall x | x in m'.rev
      ensures KeyOf(m'.rev[x]) in m'.fwd
      ensures RestsAt(books, m'.fwd[KeyOf(m'.rev[x])].symbol - 1, m'.fwd[KeyOf(m'.rev[x])].side, x)
    {
      assert x != id ==> KeyOf(m.rev[x]) in m.fwd;
    }
  }

  lemma {:induction false} EnterListing(m: IdMaps, books: seq<Book>, i: nat, id: nat, side: Side, w: Owner, o: Oracle)
    requires ListingBut(m, books, id) && KeyOf(w) !in m.fwd && w.symbol == i + 1 && o.fwd && o.rev
    requires forall j, s :: RestsAt(books, j, s, id) ==> j == i && s == side
    ensures Listing(Enter(m, id, side, w, o), books)
  {
    var m' := Enter(m, id, side, w, o);
    forall j, s, x | RestsAt(books, j, s, x)
      ensures Named(m', j, s, x)
    {
      if x != id {
        assert Named(m, j, s, x);
      }
    }
  }

  /** A submission moves ids so. */
  lemma {:induction false} SubmitMoves(b: Book, id: nat, side: Side, price: int, qty: nat, accept: bool)
    requires WellFormed(b) && qty < U32 && id !in BookIds(b)
    ensures var (r, b') := Submit(b, id, side, price, qty, MAX_FILLS, accept);
            && Moves(b, b', Gone(r.fills, b'), id)
            && (forall s :: id in Ids(b'.Ladder(s)) <==> r.rested && s == side)
  {
    hide Submit, Gone, WellFormed, Ids;
    var (r, b') := Submit(b, id, side, price, qty, MAX_FILLS, accept);
    var gone := Gone(r.fills, b');
    forall s, x | x in Ids(b'.Ladder(s)) && x != id
      ensures x in Ids(b.Ladder(s))
    {
      IdsAfter(b, id, side, price, qty, accept, x, s);
    }
    forall s, x | x in Ids(b.Ladder(s)) && x !in gone
      ensures x in Ids(b'.Ladder(s))
    {
      IdsAfter(b, id, side, price, qty, accept, x, s);
    }
    forall s
      ensures id in Ids(b'.Ladder(s)) <==> r.rested && s == side
    {
      IdsAfter(b, id, side, price, qty, accept, id, s);
      assert id !in Ids(b.Ladder(s));
    }
    forall x | x in gone
      ensures x in BookIds(b) && x !in BookIds(b')
    {
      GoneWas(b, id, side, price, qty, accept, x);
    }
  }

  lemma {:induction false} GoneWas(b: Book, id: nat, side: Side, price: int, qty: nat, accept: bool, x: nat)
    requires WellFormed(b) && qty < U32 && id !in BookIds(b)
    requires var (r, b') := Submit(b, id, side, price, qty, MAX_FILLS, accept); x in Gone(r.fills, b')
    ensures x in BookIds(b) && x !in BookIds(Submit(b, id, side, price, qty, MAX_FILLS, accept).1)
  {
    var (r, b') := Submit(b, id, side, price, qty, MAX_FILLS, accept);
    GoneIs(r.fills, b', x);
    var k :| 0 <= k < |r.fills| && r.fills[k].maker == x;
    SubmitMakers(b, id, side, price, qty, MAX_FILLS, accept, k);
  }

  lemma {:induction false} CancelMoves(b: Book, x: nat, id: nat)
    requires x in BookIds(b)
    ensures Moves(b, CancelBook(b, x), {x}, id)
  {
    var b' := CancelBook(b, x);
    forall s, y
      ensures y in Ids(b'.Ladder(s)) <==> y in Ids(b.Ladder(s)) && y != x
    {
      assert b'.Ladder(s) == Cancel(b.Ladder(s), x);
      CancelIds(b.Ladder(s), x);
    }
    hide Ids, CancelBook, Cancel;
    assert x !in Ids(b'.Ladder(Bid)) && x !in Ids(b'.Ladder(Ask));
  }
  lemma {:induction false} SoundBooksUpdate(books: seq<Book>, i: nat, b: Book)
    requires SoundBooks(books) && i < |books| && WellFormed(b) && Uncrossed(b)
    ensures SoundBooks(books[i := b])
  {
  }

  /** The maps after a submission: without the makers that are gone, with the taker if it
      rests. */
  function Matched(m: IdMaps, r: MatchResult, b: Book, xid: nat, side: Side, w: Owner, o: Oracle): IdMaps {
    if r.rested then Enter(Clean(m, Gone(r.fills, b)), xid, side, w, o) else Clean(m, Gone(r.fills, b))
  }

  lemma {:induction false} MatchedCoherent(m: IdMaps, books: seq<Book>, i: nat, id: nat, side: Side, price: int, qty: nat,
                                           accept: bool, w: Owner, o: Oracle)
    requires Coherent(m, books) && i < |books| && id !in m.rev && qty < U32 && o.fwd && o.rev
    requires KeyOf(w) !in m.fwd && w.session < U16 && w.cid < CLIENT_IDS && w.symbol == i + 1
    ensures var (r, b) := Submit(books[i], id, side, price, qty, MAX_FILLS, accept);
            Coherent(Matched(m, r, b, id, side, w, o), books[i := b])
  {
    hide Submit, Gone, WellFormed, Uncrossed, Ids, BookIds, Moves, KeyOf;
    NotInBooks(m, books, i, id);
    var (r, b) := Submit(books[i], id, side, price, qty, MAX_FILLS, accept);
    SubmitWellFormed(books[i], id, side, price, qty, MAX_FILLS, accept);
    SubmitUncrossed(books[i], id, side, price, qty, MAX_FILLS, accept);
    SoundBooksUpdate(books, i, b);
    var gone, books' := Gone(r.fills, b), books[i := b];
    SubmitMoves(books[i], id, side, price, qty, accept);
    CleanInverse(m, gone);
    CleanStanding(m, books, i, b, gone, id);
    CleanListing(m, books, i, b, gone, id);
    OnlyHere(m, books, i, b, books', id);
    hide Inverse, Standing, Clean;
    if r.rested {
      assert RestsAt(books', i, side, id);
      EnterInverse(Clean(m, gone), id, side, w, o);
      EnterStanding(Clean(m, gone), books', i, id, side, w, o);
      EnterListing(Clean(m, gone), books', i, id, side, w, o);
    }
  }

  /** An id the maps do not know can only rest in the book that has just changed. */
  lemma {:induction false} OnlyHere(m: IdMaps, books: seq<Book>, i: nat, b: Book, books': seq<Book>, id: nat)
    requires Listing(m, books) && id !in m.rev && i < |books| && books' == books[i := b]
    ensures forall j, s :: RestsAt(books', j, s, id) ==> j == i && id in Ids(b.Ladder(s))
  {
    forall j, s | RestsAt(books', j, s, id)
      ensures j == i && id in Ids(b.Ladder(s))
    {
      assert RestsAt(books, j, s, id) ==> Named(m, j, s, id);
    }
  }

  lemma {:induction false} CancelCoherent(m: IdMaps, books: seq<Book>, i: nat, x: nat)
    requires Coherent(m, books) && i < |books| && x in BookIds(books[i])
    ensures Coherent(Clean(m, {x}), books[i := CancelBook(books[i], x)])
  {
    hide WellFormed, Uncrossed, Ids, BookIds, CancelBook;
    var b := CancelBook(books[i], x);
    var books' := books[i := b];
    CancelWellFormed(books[i], x);
    CancelUncrossed(books[i], x);
    SoundBooksUpdate(books, i, b);
    CancelMoves(books[i], x, x);
    CleanInverse(m, {x});
    CleanStanding(m, books, i, b, {x}, x);
    CleanListing(m, books, i, b, {x}, x);
    CancelledNowhere(m, books, i, books', x);
  }

  lemma {:induction false} CancelledNowhere(m: IdMaps, books: seq<Book>, i: nat, books': seq<Book>, x: nat)
    requires Listing(m, books) && i < |books| && x in BookIds(books[i]) && books' == books[i := CancelBook(books[i], x)]
    ensures forall j, s :: !RestsAt(books', j, s, x)
  {
    CancelIds(books[i].bids, x);
    CancelIds(books[i].asks, x);
    hide Ids, CancelBook;
    assert RestsAt(books, i, Bid, x) ==> Named(m, i, Bid, x);
    assert RestsAt(books, i, Ask, x) ==> Named(m, i, Ask, x);
    forall j, s | j != i
      ensures !RestsAt(books', j, s, x)
    {
      assert RestsAt(books, j, s, x) ==> Named(m, j, s, x);
    }
  }

  lemma {:induction false} CleanEnter(m: IdMaps, gone: set<nat>, xid: nat, side: Side, w: Owner, o: Oracle)
    requires xid !in gone && KeyOf(w) !in m.fwd
    ensures Clean(Enter(m, xid, side, w, o), gone) == Enter(Clean(m, gone), xid, side, w, o)
  {
  }

  // ---------------------------------------------------------------------------
  // Requests
  // ---------------------------------------------------------------------------

  /** A submission keeps maps and books linked when the id maps take what they are given. */
  lemma {:induction false} SubmitKeeps(c: Core, session: nat, q: NewOrder, o: Oracle)
    requires Linked(c) && session < U16 && q.qty < U32 && o.fwd && o.rev
    ensures Linked(SubmitOrder(c, session, q, o).0)
  {
    hide Submit, Report, Coherent, Key;
    if q.cid >= CLIENT_IDS || !Listed(c, q.symbol) || Key(session, q.cid) in c.seen || !o.seen {
      return;
    }
    var xid, i := c.nextId, q.symbol - 1;
    var (r, b) := Submit(c.books[i], xid, q.side, q.price, q.qty, MAX_FILLS, o.rests);
    var w := Owner(session, q.cid, q.symbol, q.ts);
    MatchedCoherent(c.ids, c.books, i, xid, q.side, q.price, q.qty, o.rests, w, o);
    CoherentInverse(c.ids, c.books);
    ReportCleans(c.ids, b, Taker(session, q.cid, xid, q.symbol, q.side, q.ts), r.fills, q.qty);
    NoFills(c.ids, b);
    MatchedKeys(c.ids, r, b, xid, q.side, w, o);
  }

  /** The order passes every check and part of it comes to rest. */
  ghost predicate Rests(c: Core, session: nat, q: NewOrder, o: Oracle) {
    && q.cid < CLIENT_IDS && Listed(c, q.symbol) && Key(session, q.cid) !in c.seen && o.seen
    && Submit(c.books[q.symbol - 1], c.nextId, q.side, q.price, q.qty, MAX_FILLS, o.rests).0.rested
  }

  /** The id maps once the trades of an admitted order have been reported. */
  ghost function Reported(c: Core, session: nat, q: NewOrder, o: Oracle): IdMaps
    requires Listed(c, q.symbol)
  {
    var (r, b) := Submit(c.books[q.symbol - 1], c.nextId, q.side, q.price, q.qty, MAX_FILLS, o.rests);
    Report(c.ids, b, Taker(session, q.cid, c.nextId, q.symbol, q.side, q.ts), r.fills, q.qty).0
  }

  /** Where nothing comes to rest the id maps are not asked. */
  lemma {:induction false} UnaskedSubmit(c: Core, session: nat, q: NewOrder, o: Oracle)
    requires !Rests(c, session, q, o)
    ensures SubmitOrder(c, session, q, o) == SubmitOrder(c, session, q, o.(fwd := true, rev := true))
  {
    hide Submit, Report, Key;
  }

  /** An accepted order that rests is in the books but, if either map refuses it, not in both. */
  lemma {:induction false} RefusedUnlisted(c: Core, session: nat, q: NewOrder, o: Oracle)
    requires Linked(c) && q.qty < U32 && Rests(c, session, q, o) && !(o.fwd && o.rev)
    ensures var d := SubmitOrder(c, session, q, o).0;
            RestsAt(d.books, q.symbol - 1, q.side, c.nextId) && !Named(d.ids, q.symbol - 1, q.side, c.nextId) && !Linked(d)
  {
    hide Submit, Report, Coherent, Key, BookIds, Ids;
    var xid, i := c.nextId, q.symbol - 1;
    var (r, b) := Submit(c.books[i], xid, q.side, q.price, q.qty, MAX_FILLS, o.rests);
    CoherentParts(c.ids, c.books, i, xid);
    IdsAfter(c.books[i], xid, q.side, q.price, q.qty, o.rests, xid, q.side);
    ReportShrinks(c.ids, b, Taker(session, q.cid, xid, q.symbol, q.side, q.ts), r.fills, q.qty);
    NotLinked(SubmitOrder(c, session, q, o).0, i, q.side, xid);
  }

  lemma {:induction false} NotLinked(c: Core, i: int, s: Side, x: nat)
    requires RestsAt(c.books, i, s, x) && !Named(c.ids, i, s, x)
    ensures !Linked(c)
  {
  }

  /** Refused entries are what breaks the maps: a submission, of whatever session, leaves maps and
      books linked if and only if both maps take the order that comes to rest. */
  lemma {:induction false} SubmitKeepsExactly(c: Core, session: nat, q: NewOrder, o: Oracle)
    requires Linked(c) && session < U16 && q.qty < U32
    ensures Linked(SubmitOrder(c, session, q, o).0) <==> (Rests(c, session, q, o) ==> o.fwd && o.rev)
  {
    hide SubmitOrder, Rests, RestsAt, Named, Linked;
    if !Rests(c, session, q, o) {
      UnaskedSubmit(c, session, q, o);
      SubmitKeeps(c, session, q, o.(fwd := true, rev := true));
    } else if o.fwd && o.rev {
      SubmitKeeps(c, session, q, o);
    } else {
      RefusedUnlisted(c, session, q, o);
    }
  }

  lemma {:induction false} CoherentInverse(m: IdMaps, books: seq<Book>)
    requires Coherent(m, books)
    ensures Inverse(m)
  {
  }

  lemma {:induction false} NoFills(m: IdMaps, b: Book)
    ensures Clean(m, Gone([], b)) == m
  {
  }

  /** Matching adds no exchange id but the taker's and no key but its owner's. */
  lemma {:induction false} MatchedKeys(m: IdMaps, r: MatchResult, b: Book, xid: nat, side: Side, w: Owner, o: Oracle)
    ensures forall x :: x in Matched(m, r, b, xid, side, w, o).rev ==> x in m.rev || x == xid
    ensures Matched(m, r, b, xid, side, w, o).fwd.Keys <= m.fwd.Keys + {KeyOf(w)}
  {
  }
  /** The order a client names is in the book of the symbol it names only if the entry says so. */
  lemma {:induction false} EntryPlace(c: Core, k: nat, i: nat)
    requires Coherent(c.ids, c.books) && k in c.ids.fwd && i < |c.books| && c.ids.fwd[k].xid in BookIds(c.books[i])
    ensures c.ids.fwd[k].symbol == i + 1
    ensures var x := c.ids.fwd[k].xid;
            x in c.ids.rev && IdMaps(c.ids.fwd - {k}, c.ids.rev - {x}) == Clean(c.ids, {x})
  {
    var x := c.ids.fwd[k].xid;
    var s := if x in Ids(c.books[i].bids) then Bid else Ask;
    assert RestsAt(c.books, i, s, x);
    EraseIsClean(c.ids, x);
  }

  lemma {:induction false} CancelKeeps(c: Core, session: nat, cid: nat, symbol: nat, ts: int)
    requires Linked(c)
    ensures Linked(CancelOrder(c, session, cid, symbol, ts).0)
  {
    hide Coherent, Key, BookIds, CancelBook, SessionOf;
    if cid >= CLIENT_IDS || !Listed(c, symbol) || Key(session, cid) !in c.ids.fwd {
      return;
    }
    var x := c.ids.fwd[Key(session, cid)].xid;
    if x in BookIds(c.books[symbol - 1]) {
      EntryPlace(c, Key(session, cid), symbol - 1);
      CancelCoherent(c.ids, c.books, symbol - 1, x);
    }
  }

  /** Modify enters the new order before it reports the trades; the maps end up as if it had
      been the other way round. */
  lemma {:induction false} ModifiedIds(m: IdMaps, r: MatchResult, b: Book, t: Taker, qty: nat, side: Side, w: Owner, o: Oracle)
    requires Inverse(m) && t.xid !in m.rev && KeyOf(w) !in m.fwd && w.session < U16 && w.cid < CLIENT_IDS && o.fwd && o.rev
    requires t.xid !in Gone(r.fills, b)
    ensures var m1 := if r.rested then Enter(m, t.xid, side, w, o) else m;
            Report(m1, b, t, r.fills, qty).0 == Matched(m, r, b, t.xid, side, w, o)
  {
    hide Report, Gone, KeyOf;
    if r.rested {
      EnterInverse(m, t.xid, side, w, o);
      ReportCleans(Enter(m, t.xid, side, w, o), b, t, r.fills, qty);
      CleanEnter(m, Gone(r.fills, b), t.xid, side, w, o);
    } else {
      ReportCleans(m, b, t, r.fills, qty);
    }
  }

  lemma {:induction false} TakerNotGone(b: Book, id: nat, side: Side, price: int, qty: nat, accept: bool)
    requires WellFormed(b) && qty < U32 && id !in BookIds(b)
    ensures var (r, b') := Submit(b, id, side, price, qty, MAX_FILLS, accept); id !in Gone(r.fills, b')
  {
    var (r, b') := Submit(b, id, side, price, qty, MAX_FILLS, accept);
    hide Submit;
    if id in Gone(r.fills, b') {
      GoneWas(b, id, side, price, qty, accept, id);
    }
  }

  lemma {:induction false} ModifyKeeps(c: Core, session: nat, q: ModifyRequest, o: Oracle)
    requires Linked(c) && session < U16 && q.qty < U32 && o.fwd && o.rev
    ensures Linked(ModifyOrder(c, session, q, o).0)
  {
    hide Submit, Report, Coherent, Key, BookIds, CancelBook, SessionOf, Gone, WellFormed;
    if q.cid >= CLIENT_IDS || !Listed(c, q.symbol) || Key(session, q.cid) !in c.ids.fwd {
      return;
    }
    var k, xid, i := Key(session, q.cid), c.nextId, q.symbol - 1;
    var e := c.ids.fwd[k];
    if e.xid !in BookIds(c.books[i]) {
      return;
    }
    EntryPlace(c, k, i);
    CancelCoherent(c.ids, c.books, i, e.xid);
    var m, books1 := Clean(c.ids, {e.xid}), c.books[i := CancelBook(c.books[i], e.xid)];
    var w, t := Owner(session, q.cid, e.symbol, q.ts), Taker(session, q.cid, xid, q.symbol, e.side, q.ts);
    var (r, b) := Submit(books1[i], xid, e.side, q.price, q.qty, MAX_FILLS, o.rests);
    assert k !in m.fwd && xid !in m.rev;
    MatchedCoherent(m, books1, i, xid, e.side, q.price, q.qty, o.rests, w, o);
    CoherentParts(m, books1, i, xid);
    TakerNotGone(books1[i], xid, e.side, q.price, q.qty, o.rests);
    ModifiedIds(m, r, b, t, q.qty, e.side, w, o);
    MatchedKeys(m, r, b, xid, e.side, w, o);
    assert books1[i := b] == c.books[i := b];
  }

  /** A modify is acknowledged when its order is known and rests in the book. */
  ghost predicate Modifiable(c: Core, session: nat, q: ModifyRequest) {
    && q.cid < CLIENT_IDS && Listed(c, q.symbol) && Key(session, q.cid) in c.ids.fwd
    && c.ids.fwd[Key(session, q.cid)].xid in BookIds(c.books[q.symbol - 1])
  }

  /** And part of its replacement comes to rest. */
  ghost predicate Resettles(c: Core, session: nat, q: ModifyRequest, o: Oracle) {
    Modifiable(c, session, q) &&
    var e := c.ids.fwd[Key(session, q.cid)];
    Submit(CancelBook(c.books[q.symbol - 1], e.xid), c.nextId, e.side, q.price, q.qty, MAX_FILLS, o.rests).0.rested
  }

  lemma {:induction false} UnaskedModify(c: Core, session: nat, q: ModifyRequest, o: Oracle)
    requires !Resettles(c, session, q, o)
    ensures ModifyOrder(c, session, q, o) == ModifyOrder(c, session, q, o.(fwd := true, rev := true))
  {
    hide Submit, Report, Key, BookIds, CancelBook;
  }

  lemma {:induction false} RefusedReplacement(c: Core, session: nat, q: ModifyRequest, o: Oracle)
    requires Linked(c) && q.qty < U32 && Resettles(c, session, q, o) && !(o.fwd && o.rev)
    ensures var d, side := ModifyOrder(c, session, q, o).0, c.ids.fwd[Key(session, q.cid)].side;
            RestsAt(d.books, q.symbol - 1, side, c.nextId) && !Named(d.ids, q.symbol - 1, side, c.nextId) && !Linked(d)
  {
    hide Submit, Report, Coherent, Key, BookIds, Ids, CancelBook;
    var k, xid, i := Key(session, q.cid), c.nextId, q.symbol - 1;
    var e := c.ids.fwd[k];
    EntryPlace(c, k, i);
    CancelCoherent(c.ids, c.books, i, e.xid);
    var m, books1 := Clean(c.ids, {e.xid}), c.books[i := CancelBook(c.books[i], e.xid)];
    CoherentParts(m, books1, i, xid);
    var (r, b) := Submit(books1[i], xid, e.side, q.price, q.qty, MAX_FILLS, o.rests);
    IdsAfter(books1[i], xid, e.side, q.price, q.qty, o.rests, xid, e.side);
    ReportShrinks(Enter(m, xid, e.side, Owner(session, q.cid, e.symbol, q.ts), o), b,
                  Taker(session, q.cid, xid, q.symbol, e.side, q.ts), r.fills, q.qty);
    NotLinked(ModifyOrder(c, session, q, o).0, i, e.side, xid);
  }

  /** The same for a modify and its replacement. */
  lemma {:induction false} ModifyKeepsExactly(c: Core, session: nat, q: ModifyRequest, o: Oracle)
    requires Linked(c) && session < U16 && q.qty < U32
    ensures Linked(ModifyOrder(c, session, q, o).0) <==> (Resettles(c, session, q, o) ==> o.fwd && o.rev)
  {
    hide ModifyOrder, Resettles, RestsAt, Named, Linked;
    if !Resettles(c, session, q, o) {
      UnaskedModify(c, session, q, o);
      ModifyKeeps(c, session, q, o.(fwd := true, rev := true));
    } else if o.fwd && o.rev {
      ModifyKeeps(c, session, q, o);
    } else {
      RefusedReplacement(c, session, q, o);
    }
  }

  lemma {:induction false} CoherentParts(m: IdMaps, books: seq<Book>, i: nat, id: nat)
    requires Coherent(m, books) && i < |books| && id !in m.rev
    ensures Inverse(m) && WellFormed(books[i]) && id !in BookIds(books[i])
  {
    NotInBooks(m, books, i, id);
  }
}
