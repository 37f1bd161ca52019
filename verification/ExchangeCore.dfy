/** The exchange core: sessions, client order ids, books and events, updated in place. */
module ExchangeCores {
  import opened Machine
  import opened Books
  import opened Ladders
  import opened Matching
  import opened Quantities
  import opened Purging
  import opened HashTable
  import opened BookParts
  import OrderBooks
  import Engines
  import opened Venues
  import opened Exchange
  import opened ExchangeIds
  import opened ExchangeRuns
  import opened ExchangeSessions
  import opened ExchangeTables

  const MAX_EVENTS := 512

  /** Counting up from the counter, past 65535 on to 1, session id s comes before t. */
  ghost predicate Before(counter: nat, s: nat, t: nat) {
    var first := if counter == 0 then 1 else counter;
    if s >= first then t > s || t < first else s < t < first
  }

  /** Session id s is the first from the counter on that is not in use. */
  ghost predicate FirstUnused(c: Core, s: nat) {
    && 0 < s < U16 && s !in c.sessions
    && (forall u: nat :: 0 < u < U16 && Before(c.nextSession, u, s) ==> u in c.sessions)
  }

  /** The session ids in use. */
  ghost function ActiveSet(a: seq<bool>): set<nat> {
    set s | 0 <= s < |a| && a[s]
  }

  /** Holds whatever the tables refuse: entries name listed symbols, and no key or exchange id
      in the maps is one still to be given out. */
  ghost predicate Bounded(c: Core) {
    && |c.books| == |c.live|
    && (forall k :: k in c.ids.fwd ==> 0 < c.ids.fwd[k].symbol <= |c.books|)
    && c.ids.fwd.Keys <= c.seen
    && (forall x :: x in c.ids.rev ==> x < c.nextId)
  }

  /** Of the books only one may be more worn than before, by an order on one side. */
  ghost predicate BooksWorn(before: seq<BookWear>, after: seq<BookWear>, i: int, side: Side) {
    |after| == |before| &&
    if 0 <= i < |before| then Adds(before[i], after[i], side) && after == before[i := after[i]] else after == before
  }

  lemma {:induction false} BooksUnworn(wear: seq<BookWear>, i: int, side: Side)
    ensures BooksWorn(wear, wear, i, side)
  {
    if 0 <= i < |wear| {
      AddsNone(wear[i], side);
    }
  }

  /** The slots of the id maps, and how worn tables and books are. */
  datatype Condition = Shape(image: IdImage, wear: TableWear, books: seq<BookWear>)

  /** Nothing but erasures happened to the tables, and no book is more worn. */
  ghost predicate Unworn(a: Condition, b: Condition) {
    b.wear == a.wear && b.books == a.books && Erased(a.image, b.image)
  }

  lemma {:induction false} UnwornMore(a: Condition, b: Condition, c: Condition)
    requires Unworn(a, b) && Unworn(b, c)
    ensures Unworn(a, c)
  {
    hide Erased;
    ErasedMore(a.image, b.image, c.image);
  }

  /** What is still to come of a report of which `done` has been emitted. */
  ghost predicate Reporting(m: IdMaps, b: Book, t: Taker, fills: seq<Fill>, qty: nat,
                            done: seq<Event>, now: IdMaps, rest: seq<Fill>, left: nat)
  {
    var (end, es) := Report(now, b, t, rest, left);
    Report(m, b, t, fills, qty) == (end, done + es)
  }

  lemma {:induction false} ReportingStart(m: IdMaps, b: Book, t: Taker, fills: seq<Fill>, qty: nat)
    ensures Reporting(m, b, t, fills, qty, [], m, fills, qty)
  {
    assert [] + Report(m, b, t, fills, qty).1 == Report(m, b, t, fills, qty).1;
  }

  lemma {:induction false} ReportingStep(m: IdMaps, b: Book, t: Taker, fills: seq<Fill>, qty: nat,
                                         done: seq<Event>, now: IdMaps, rest: seq<Fill>, left: nat)
    requires Reporting(m, b, t, fills, qty, done, now, rest, left) && rest != []
    ensures var left' := Sub32(left, rest[0].qty);
            var (now', made) := ReportMaker(now, b, rest[0], t.side);
            Reporting(m, b, t, fills, qty, done + [TakerFill(t, rest[0], left')] + made + Bbos(t.symbol, b), now', rest[1..], left')
  {
    var left' := Sub32(left, rest[0].qty);
    var (now', made) := ReportMaker(now, b, rest[0], t.side);
    var a, z, es := [TakerFill(t, rest[0], left')], Bbos(t.symbol, b), Report(now', b, t, rest[1..], left').1;
    assert done + (a + made + z + es) == (done + a + made + z) + es;
  }

  lemma {:induction false} ReportingEnd(m: IdMaps, b: Book, t: Taker, fills: seq<Fill>, qty: nat,
                                        done: seq<Event>, now: IdMaps, rest: seq<Fill>, left: nat)
    requires Reporting(m, b, t, fills, qty, done, now, rest, left) && rest == []
    ensures Report(m, b, t, fills, qty) == (now, done)
  {
    assert done + [] == done;
  }

  lemma {:induction false} SubmitBounded(c: Core, session: nat, q: NewOrder, o: Oracle)
    requires Bounded(c)
    ensures Bounded(SubmitOrder(c, session, q, o).0)
  {
    hide Submit, Report, Key;
    if q.cid >= CLIENT_IDS || !Listed(c, q.symbol) || Key(session, q.cid) in c.seen || !o.seen {
      return;
    }
    var (r, b) := Submit(c.books[q.symbol - 1], c.nextId, q.side, q.price, q.qty, MAX_FILLS, o.rests);
    ReportShrinks(c.ids, b, Taker(session, q.cid, c.nextId, q.symbol, q.side, q.ts), r.fills, q.qty);
  }

  lemma {:induction false} ModifyBounded(c: Core, session: nat, q: ModifyRequest, o: Oracle)
    requires Bounded(c)
    ensures Bounded(ModifyOrder(c, session, q, o).0)
  {
    hide Submit, Report, Key, BookIds, Modify;
    if q.cid >= CLIENT_IDS || !Listed(c, q.symbol) || Key(session, q.cid) !in c.ids.fwd {
      return;
    }
    var e, xid := c.ids.fwd[Key(session, q.cid)], c.nextId;
    var (r, b) := Modify(c.books[q.symbol - 1], e.xid, e.side, q.price, q.qty, xid, MAX_FILLS, o.rests);
    var m := IdMaps(c.ids.fwd - {Key(session, q.cid)}, c.ids.rev - {e.xid});
    var m1 := if r.rested then Enter(m, xid, e.side, Owner(session, q.cid, e.symbol, q.ts), o) else m;
    ReportShrinks(m1, b, Taker(session, q.cid, xid, q.symbol, e.side, q.ts), r.fills, q.qty);
  }

  lemma {:induction false} CancelBounded(c: Core, session: nat, cid: nat, symbol: nat, ts: int)
    requires Bounded(c)
    ensures Bounded(CancelOrder(c, session, cid, symbol, ts).0)
  {
  }

  lemma {:induction false} ModifyFills(b: Book, oldId: nat, side: Side, price: int, qty: nat, newId: nat, accept: bool)
    requires WellFormed(b)
    ensures |Modify(b, oldId, side, price, qty, newId, MAX_FILLS, accept).0.fills| <= MAX_FILLS
  {
    CancelWellFormed(b, oldId);
    FillsBounded(CancelBook(b, oldId), newId, side, price, qty, accept);
  }

  lemma {:induction false} UnadmittedRests(c: Core, session: nat, q: NewOrder, o: Oracle)
    requires q.cid >= CLIENT_IDS || !Listed(c, q.symbol) || Key(session, q.cid) in c.seen || !o.seen
    ensures !Rests(c, session, q, o)
  {
  }

  /** A taker whose key was not seen is new to both maps when its trades have been reported. */
  lemma {:induction false} FreshTaker(c: Core, b: Book, t: Taker, fills: seq<Fill>, qty: nat)
    requires Bounded(c) && Key(t.session, t.cid) !in c.seen && t.xid == c.nextId
    ensures var m := Report(c.ids, b, t, fills, qty).0;
            KeyOf(Owner(t.session, t.cid, t.symbol, t.ts)) !in m.fwd && t.xid !in m.rev
  {
    ReportShrinks(c.ids, b, t, fills, qty);
  }

  /** The core starts with empty books and tables. */
  lemma {:induction false} EmptyConsistent(live: seq<bool>)
    ensures Consistent(Core(seq(|live|, _ => EMPTY_BOOK), live, 1, {}, 1, {}, IdMaps(map[], map[])))
  {
  }

  lemma {:induction false} NewId(c: Core)
    requires Bounded(c)
    ensures c.nextId !in c.ids.rev
  {
  }

  // ---------------------------------------------------------------------------
  // Visiting the entries of one session
  // ---------------------------------------------------------------------------

  /** The keys a visit has picked out for a session. */
  function Picked<V>(es: seq<(nat, V)>, session: nat): seq<nat> {
    if es == [] then []
    else
      var n := |es| - 1;
      if SessionOf(es[n].0) == session then Picked(es[..n], session) + [es[n].0] else Picked(es[..n], session)
  }

  lemma {:induction false} PickedIs<V>(es: seq<(nat, V)>, session: nat)
    requires DistinctKeys(es)
    ensures forall k :: k in Picked(es, session) <==> SessionOf(k) == session && exists i :: 0 <= i < |es| && es[i].0 == k
    ensures forall i, j :: 0 <= i < j < |Picked(es, session)| ==> Picked(es, session)[i] != Picked(es, session)[j]
  {
    if es != [] {
      var n := |es| - 1;
      PickedIs(es[..n], session);
      forall k
        ensures k in Picked(es, session) <==> SessionOf(k) == session && exists i :: 0 <= i < |es| && es[i].0 == k
      {
        if i :| 0 <= i < |es| && es[i].0 == k {
          assert i < n ==> es[..n][i].0 == k;
        }
      }
    }
  }

  /** The orders a visit has cancelled in one book. */
  function CancelledIn(es: seq<(nat, IdEntry)>, session: nat, symbol: int): set<nat> {
    if es == [] then {}
    else
      var n := |es| - 1;
      var e := es[n];
      CancelledIn(es[..n], session, symbol) + (if SessionOf(e.0) == session && e.1.symbol == symbol then {e.1.xid} else {})
  }

  lemma {:induction false} CancelledIs(es: seq<(nat, IdEntry)>, session: nat, symbol: int, x: nat)
    ensures x in CancelledIn(es, session, symbol) <==>
            exists i :: 0 <= i < |es| && SessionOf(es[i].0) == session && es[i].1.symbol == symbol && es[i].1.xid == x
  {
    if es != [] {
      var n := |es| - 1;
      CancelledIs(es[..n], session, symbol, x);
      if i :| 0 <= i < |es[..n]| && SessionOf(es[..n][i].0) == session && es[..n][i].1.symbol == symbol && es[..n][i].1.xid == x {
        assert es[i] == es[..n][i];
      }
      if i :| 0 <= i < |es| && SessionOf(es[i].0) == session && es[i].1.symbol == symbol && es[i].1.xid == x {
        assert i < n ==> es[..n][i] == es[i];
      }
    }
  }

  ghost predicate PurgedBy(books: seq<Book>, before: seq<Book>, es: seq<(nat, IdEntry)>, session: nat) {
    |books| == |before| &&
    forall i :: 0 <= i < |books| ==> books[i] == PurgeBook(before[i], CancelledIn(es, session, i + 1))
  }

  lemma {:induction false} PurgedByNone(books: seq<Book>, session: nat)
    requires forall i :: 0 <= i < |books| ==> WellFormed(books[i])
    ensures PurgedBy(books, books, [], session)
  {
    forall i | 0 <= i < |books|
      ensures books[i] == PurgeBook(books[i], CancelledIn([], session, i + 1))
    {
      PurgeBookNone(books[i]);
    }
  }

  /** Visiting one more entry: its order is cancelled if it is the session's. */
  lemma {:induction false} PurgedByStep(books: seq<Book>, before: seq<Book>, es: seq<(nat, IdEntry)>, p: nat, session: nat)
    requires p < |es| && PurgedBy(books, before, es[..p], session) && 0 < es[p].1.symbol <= |books|
    ensures var i := es[p].1.symbol - 1;
            PurgedBy(if SessionOf(es[p].0) == session then books[i := CancelBook(books[i], es[p].1.xid)] else books,
                     before, es[..p + 1], session)
  {
    assert es[..p + 1][..p] == es[..p] && es[..p + 1][p] == es[p];
    var i := es[p].1.symbol - 1;
    var books' := if SessionOf(es[p].0) == session then books[i := CancelBook(books[i], es[p].1.xid)] else books;
    forall j | 0 <= j < |books|
      ensures books'[j] == PurgeBook(before[j], CancelledIn(es[..p + 1], session, j + 1))
    {
      PurgeStep(before[j], CancelledIn(es[..p], session, j + 1), es[p].1.xid);
      assert CancelledIn(es[..p], session, j + 1) + {} == CancelledIn(es[..p], session, j + 1);
    }
  }

  /** After visiting every entry of the forward map the books are purged of the session. */
  lemma {:induction false} PurgedByAll(books: seq<Book>, before: seq<Book>, es: seq<(nat, IdEntry)>, m: IdMaps, session: nat)
    requires PurgedBy(books, before, es, session)
    requires forall k, v :: (k, v) in es <==> k in m.fwd && m.fwd[k] == v
    ensures books == Purged(before, m, session)
  {
    forall i | 0 <= i < |books|
      ensures books[i] == PurgeBook(before[i], OrdersIn(m, session, i + 1))
    {
      var done, want := CancelledIn(es, session, i + 1), OrdersIn(m, session, i + 1);
      forall x
        ensures x in done <==> x in want
      {
        CancelledIs(es, session, i + 1, x);
        if x in OrdersIn(m, session, i + 1) {
          var k :| k in m.fwd && SessionOf(k) == session && m.fwd[k].symbol == i + 1 && m.fwd[k].xid == x;
          assert (k, m.fwd[k]) in es;
        }
      }
      assert done == want;
    }
  }

  /** The exchange ids that some keys name. */
  function XidsOf(m: IdMaps, keys: set<nat>): set<nat> {
    set k | k in keys && k in m.fwd :: m.fwd[k].xid
  }

  lemma {:induction false} OneMoreKey(m: IdMaps, ks: seq<nat>, q: nat)
    requires q < |ks| && ks[q] in m.fwd
    ensures Elements(ks[..q + 1]) == Elements(ks[..q]) + {ks[q]}
    ensures XidsOf(m, Elements(ks[..q + 1])) == XidsOf(m, Elements(ks[..q])) + {m.fwd[ks[q]].xid}
  {
    assert ks[..q + 1] == ks[..q] + [ks[q]];
    assert Elements(ks[..q + 1]) == Elements(ks[..q]) + {ks[q]};
    var a, b := XidsOf(m, Elements(ks[..q + 1])), XidsOf(m, Elements(ks[..q])) + {m.fwd[ks[q]].xid};
    forall x | x in a
      ensures x in b
    {
      var k :| k in Elements(ks[..q + 1]) && k in m.fwd && m.fwd[k].xid == x;
    }
    assert ks[q] in Elements(ks[..q + 1]);
    forall x | x in b
      ensures x in a
    {
      if x != m.fwd[ks[q]].xid {
        var k :| k in Elements(ks[..q]) && k in m.fwd && m.fwd[k].xid == x;
        assert k in Elements(ks[..q + 1]);
      }
    }
  }

  /** The keys picked when every entry of a map has been visited are the session's. */
  lemma {:induction false} PickedAll<V>(es: seq<(nat, V)>, m: map<nat, V>, session: nat)
    requires DistinctKeys(es) && forall k, v :: (k, v) in es <==> k in m && m[k] == v
    ensures Elements(Picked(es, session)) == KeysOf(m.Keys, session)
  {
    PickedIs(es, session);
    forall k
      ensures k in Elements(Picked(es, session)) <==> k in KeysOf(m.Keys, session)
    {
      if k in m {
        assert (k, m[k]) in es;
      }
      if i :| 0 <= i < |es| && es[i].0 == k {
        assert (es[i].0, es[i].1) in es;
      }
    }
  }

  lemma {:induction false} NamedAll(m: IdMaps, session: nat)
    ensures XidsOf(m, KeysOf(m.fwd.Keys, session)) == OrdersOf(m, session)
  {
  }

  lemma {:induction false} NamedNone(m: IdMaps)
    ensures XidsOf(m, Elements([])) == {}
  {
  }

  lemma {:induction false} KeysWithin(keys: set<nat>, session: nat)
    ensures KeysOf(keys, session) <= keys
  {
  }

  lemma {:induction false} DisconnectBounded(c: Core, session: nat)
    requires Bounded(c)
    ensures Bounded(Disconnect(c, session))
  {
  }

  class ExchangeCore {
    const venue: Venue
    const live: seq<bool>
    const tables: Tables
    const buffer: EventBuffer
    const active: array<bool>
    var nextId: nat
    var nextSession: nat
    ghost const Repr: set<object>

    ghost predicate Owns() {
      && Repr == {this, buffer, buffer.slots, active} + venue.Repr + tables.Repr
      && venue.Repr !! tables.Repr && this !in venue.Repr + tables.Repr
      && buffer !in venue.Repr + tables.Repr && buffer.slots !in venue.Repr + tables.Repr
      && active !in venue.Repr + tables.Repr
      && tables.Owns() && venue.Apart()
      && |venue.engines| == |live| && venue.maxFills == MAX_FILLS
      && buffer.slots.Length == MAX_EVENTS && active.Length == U16
    }

    ghost function State(): Core
      requires Owns()
      reads Repr
    {
      Core(venue.books, live, nextId, ActiveSet(active[..]), nextSession, tables.Seen(), tables.Ids())
    }

    /** Every part is sound on its own. */
    ghost predicate Parts()
      reads Repr
    {
      Owns() && venue.Valid() && |venue.books| == |live| && tables.Valid() && buffer.Valid()
    }

    ghost predicate Valid()
      reads Repr
    {
      Owns() && Parts() && nextSession < U16 && Bounded(State())
    }

    constructor (v: Venue, t: Tables, l: seq<bool>)
      requires v.Apart() && v.Valid() && t.Owns() && t.Valid() && v.Repr !! t.Repr && |v.engines| == |l| && v.maxFills == MAX_FILLS
      requires v.books == seq(|l|, _ => EMPTY_BOOK) && t.Seen() == {} && t.Ids() == IdMaps(map[], map[])
      ensures Valid() && Consistent(State()) && buffer.count == 0 && venue == v && tables == t && live == l
      ensures State() == Core(v.books, l, 1, {}, 1, {}, IdMaps(map[], map[])) && fresh(Repr - v.Repr - t.Repr)
    {
      hide Venue.Valid, Tables.Valid;
      venue, tables, live := v, t, l;
      var b := new EventBuffer(MAX_EVENTS);
      buffer := b;
      active := new bool[U16](_ => false);
      nextId, nextSession := 1, 1;
      Repr := {this, b, b.slots, active} + v.Repr + t.Repr;
      new;
      assert |buffer.Events()| == 0;
      EmptyConsistent(l);
    }

    // -------------------------------------------------------------------------
    // Reporting trades
    // -------------------------------------------------------------------------

    method EmitBest(i: nat, symbol: nat, side: Side)
      requires Parts() && i < |live| && buffer.count < MAX_EVENTS
      modifies buffer, buffer.slots
      ensures Parts() && buffer.count <= old(buffer.count) + 1
      ensures buffer.Events() == old(buffer.Events()) + BestOf(symbol, side, venue.books[i].Ladder(side))
    {
      hide Venue.Valid, Tables.Valid, HashMap.Valid;
      var q := venue.BestQuote(i, side);
      if q.Some? {
        buffer.Emit(Bbo(symbol, side, q.value.0, q.value.1));
      }
    }

    method EmitBbo(i: nat, symbol: nat)
      requires Parts() && i < |live| && buffer.count + 2 <= MAX_EVENTS
      modifies buffer, buffer.slots
      ensures Parts() && buffer.count <= old(buffer.count) + 2
      ensures buffer.Events() == old(buffer.Events()) + Bbos(symbol, venue.books[i])
    {
      hide Venue.Valid, Tables.Valid, BestOf;
      ghost var before := buffer.Events();
      EmitBest(i, symbol, Bid);
      EmitBest(i, symbol, Ask);
      ghost var a, b := BestOf(symbol, Bid, venue.books[i].bids), BestOf(symbol, Ask, venue.books[i].asks);
      assert (before + a) + b == before + (a + b);
    }

    /** Takes an order that no longer rests out of both maps. */
    method ForgetGone(i: nat, w: Owner, x: nat)
      requires Parts() && i < |live|
      modifies tables.Repr
      ensures Parts() && tables.Seen() == old(tables.Seen()) && tables.Roomy() == old(tables.Roomy())
      ensures var m := old(tables.Ids());
              tables.Ids() == if x in BookIds(venue.books[i]) then m else IdMaps(m.fwd - {KeyOf(w)}, m.rev - {x})
      ensures Erased(old(tables.Image()), tables.Image()) && tables.Wear() == old(tables.Wear())
    {
      hide Venue.Valid, Tables.Valid, BookIds, KeyOf, Tables.Roomy, Tables.Image, Tables.Wear, Erased;
      tables.NothingErased();
      var rests := venue.HasOrder(i, x);
      if !rests {
        tables.Forget(KeyOf(w), x);
      }
    }

    /** Tells the maker of a trade; a maker with nothing left is taken out of both maps. */
    method EmitMakerFill(i: nat, f: Fill, takerSide: Side)
      requires Parts() && i < |live| && buffer.count < MAX_EVENTS
      modifies buffer, buffer.slots, tables.Repr
      ensures Parts() && buffer.count <= old(buffer.count) + 1
      ensures tables.Ids() == ReportMaker(old(tables.Ids()), venue.books[i], f, takerSide).0
      ensures buffer.Events() == old(buffer.Events()) + ReportMaker(old(tables.Ids()), venue.books[i], f, takerSide).1
      ensures tables.Seen() == old(tables.Seen()) && tables.Roomy() == old(tables.Roomy())
      ensures Erased(old(tables.Image()), tables.Image()) && tables.Wear() == old(tables.Wear())
    {
      hide Venue.Valid, Tables.Valid, BookIds, KeyOf, Tables.Roomy, Tables.Image, Tables.Wear, Erased;
      tables.NothingErased();
      var maker := tables.FindOwner(f.maker);
      if maker.None? {
        return;
      }
      var w := maker.value;
      var left := venue.OrderQty(i, f.maker);
      buffer.Emit(MakerFill(w, f, Opposite(takerSide), left));
      ForgetGone(i, w, f.maker);
    }

    /** The events of one trade. */
    method EmitTrade(i: nat, t: Taker, f: Fill, left: nat)
      requires Parts() && i < |live| && buffer.count + 4 <= MAX_EVENTS
      modifies buffer, buffer.slots, tables.Repr
      ensures Parts() && buffer.count <= old(buffer.count) + 4
      ensures tables.Ids() == ReportMaker(old(tables.Ids()), venue.books[i], f, t.side).0
      ensures buffer.Events() == old(buffer.Events()) + [TakerFill(t, f, left)] +
                                 ReportMaker(old(tables.Ids()), venue.books[i], f, t.side).1 + Bbos(t.symbol, venue.books[i])
      ensures tables.Seen() == old(tables.Seen()) && tables.Roomy() == old(tables.Roomy())
      ensures Erased(old(tables.Image()), tables.Image()) && tables.Wear() == old(tables.Wear())
    {
      hide Venue.Valid, HashMap.Valid, ReportMaker, Bbos, Tables.Roomy, Tables.Valid, Tables.Image, Tables.Wear, Erased;
      buffer.Emit(TakerFill(t, f, left));
      EmitMakerFill(i, f, t.side);
      EmitBbo(i, t.symbol);
    }

    /** The events of all trades of a request, in order. */
    method EmitTrades(i: nat, t: Taker, fills: seq<Fill>, qty: nat)
      requires Parts() && i < |live| && buffer.count + 4 * |fills| <= MAX_EVENTS
      modifies buffer, buffer.slots, tables.Repr
      ensures Parts()
      ensures tables.Ids() == Report(old(tables.Ids()), venue.books[i], t, fills, qty).0
      ensures buffer.Events() == old(buffer.Events()) + Report(old(tables.Ids()), venue.books[i], t, fills, qty).1
      ensures tables.Seen() == old(tables.Seen()) && tables.Roomy() == old(tables.Roomy())
      ensures Erased(old(tables.Image()), tables.Image()) && tables.Wear() == old(tables.Wear())
    {
      hide Venue.Valid, ReportMaker, Bbos, Tables.Roomy, Tables.Valid, Tables.Image, Tables.Wear, Erased, Reporting;
      tables.NothingErased();
      ghost var m, b, before := tables.Ids(), venue.books[i], buffer.Events();
      ghost var done: seq<Event> := [];
      ReportingStart(m, b, t, fills, qty);
      var remaining := qty;
      assert fills[0..] == fills;
      for k := 0 to |fills|
        invariant Parts() && buffer.count + 4 * (|fills| - k) <= MAX_EVENTS
        invariant buffer.Events() == before + done
        invariant Reporting(m, b, t, fills, qty, done, tables.Ids(), fills[k..], remaining)
        invariant tables.Seen() == old(tables.Seen()) && tables.Roomy() == old(tables.Roomy())
        invariant Erased(old(tables.Image()), tables.Image()) && tables.Wear() == old(tables.Wear())
      {
        ghost var image := tables.Image();
        ReportingStep(m, b, t, fills, qty, done, tables.Ids(), fills[k..], remaining);
        assert fills[k..][1..] == fills[k + 1..];
        ghost var made := ReportMaker(tables.Ids(), b, fills[k], t.side).1;
        remaining := Sub32(remaining, fills[k].qty);
        EmitTrade(i, t, fills[k], remaining);
        ErasedMore(old(tables.Image()), image, tables.Image());
        ghost var a := [TakerFill(t, fills[k], remaining)];
        assert before + done + a + made + Bbos(t.symbol, b) == before + (done + a + made + Bbos(t.symbol, b));
        done := done + a + made + Bbos(t.symbol, b);
      }
      ReportingEnd(m, b, t, fills, qty, done, tables.Ids(), fills[|fills|..], remaining);
    }

    // -------------------------------------------------------------------------
    // Requests
    // -------------------------------------------------------------------------

    predicate Listing(symbol: nat) {
      0 < symbol <= |live| && live[symbol - 1]
    }

    /** Answers a request with a single event. */
    method Answer(e: Event)
      requires Parts() && buffer.count == 0
      modifies buffer, buffer.slots
      ensures Parts() && buffer.Events() == [e] && State() == old(State())
    {
      hide Venue.Valid, Tables.Valid;
      buffer.Emit(e);
    }

    /** Rejects what can be rejected without matching and marks the client id as seen. */
    method Admit(session: nat, q: NewOrder) returns (ok: bool, ghost o: Oracle)
      requires Valid() && buffer.count == 0 && session < U16
      modifies buffer, buffer.slots, tables.seen, tables.seen.slots
      ensures Parts() && tables.Ids() == old(tables.Ids()) && tables.Roomy() == old(tables.Roomy())
      ensures Spends(old(tables.Wear()).seen, tables.Wear().seen)
      ensures o == Oracle(!old(tables.seen.Refuses(Key(session, q.cid))), true, true, true)
      ensures !ok ==> (State(), buffer.Events()) == Exchange.SubmitOrder(old(State()), session, q, o)
      ensures !ok ==> q.cid >= CLIENT_IDS || !Listing(q.symbol) || Key(session, q.cid) in old(tables.Seen()) || !o.seen
      ensures ok ==> && q.cid < CLIENT_IDS && Listing(q.symbol) && o.seen && Key(session, q.cid) !in old(tables.Seen())
                     && buffer.count == 0 && State() == old(State()).(seen := old(State()).seen + {Key(session, q.cid)})
    {
      hide Venue.Valid, HashMap.Valid, HashMap.Refuses, Submit, Report, Key, Bounded, ActiveSet;
      o := Oracle(!tables.seen.Refuses(Key(session, q.cid)), true, true, true);
      ok := false;
      if q.cid >= CLIENT_IDS {
        Answer(Rejected(session, q.cid, 0, q.ts, InvalidOrderId));
        return;
      }
      if !Listing(q.symbol) {
        Answer(Rejected(session, q.cid, q.symbol, q.ts, UnknownSymbol));
        return;
      }
      var key := Key(session, q.cid);
      var known := tables.IsSeen(key);
      if known {
        Answer(Rejected(session, q.cid, q.symbol, q.ts, DuplicateOrderId));
        return;
      }
      ok := tables.MarkSeen(key);
      if !ok {
        Answer(Rejected(session, q.cid, q.symbol, q.ts, BookFull));
      }
    }

    /** Reports the trades of a submission and enters its remainder, if it rests. */
    method Conclude(i: nat, t: Taker, r: MatchResult, qty: nat) returns (fwdOk: bool, revOk: bool)
      requires Parts() && i < |live| && buffer.count == 0 && |r.fills| <= MAX_FILLS
      modifies buffer, buffer.slots, tables.Repr
      ensures Parts() && tables.Seen() == old(tables.Seen())
      ensures var (m, trades) := Report(old(tables.Ids()), venue.books[i], t, r.fills, qty);
              var w := Owner(t.session, t.cid, t.symbol, t.ts);
              && buffer.Events() == [Accepted(t.session, t.cid, t.xid, t.symbol, t.ts)] + trades
              && (forall o: Oracle :: o.fwd == fwdOk && o.rev == revOk ==>
                    tables.Ids() == if r.rested then Enter(m, t.xid, t.side, w, o) else m)
              && (old(tables.Roomy()) && KeyOf(w) !in m.fwd && t.xid !in m.rev ==> fwdOk && revOk)
              && (r.rested && KeyOf(w) !in m.fwd ==> fwdOk == !old(tables.fwd.RefusesBeside(m.fwd.Keys, KeyOf(w))))
              && (r.rested && t.xid !in m.rev ==> revOk == !old(tables.rev.RefusesBeside(m.rev.Keys, t.xid)))
              && (r.rested ==> Enters(old(tables.Wear()).fwd, tables.Wear().fwd, fwdOk, tables.fwd.Home(KeyOf(w))))
              && (r.rested ==> Enters(old(tables.Wear()).rev, tables.Wear().rev, revOk, tables.rev.Home(t.xid)))
      ensures !r.rested ==> fwdOk && revOk && Erased(old(tables.Image()), tables.Image()) && tables.Wear() == old(tables.Wear())
      ensures tables.Wear().seen == old(tables.Wear()).seen
    {
      hide Venue.Valid, Report, KeyOf, HashMap.Refuses, HashMap.RefusesBeside, HashMap.Valid, HashMap.Home;
      hide Tables.Image, Tables.Wear, Erased, Enters, Tables.Roomy;
      buffer.Emit(Accepted(t.session, t.cid, t.xid, t.symbol, t.ts));
      EmitTrades(i, t, r.fills, qty);
      tables.ErasedThins();
      fwdOk, revOk := true, true;
      if r.rested {
        fwdOk, revOk := tables.Enter(t.xid, t.side, Owner(t.session, t.cid, t.symbol, t.ts));
      }
    }

    /** Gives an order the next exchange id and submits it to its book. */
    method Match(i: nat, side: Side, price: int, qty: nat) returns (xid: nat, r: MatchResult)
      requires Parts() && i < |live| && qty < U32
      modifies this, venue.Repr
      ensures Parts() && xid == old(nextId) && |r.fills| <= MAX_FILLS
      ensures var c := old(State());
              var (r', b) := Submit(c.books[i], xid, side, price, qty, MAX_FILLS, r.rested);
              r == r' && State() == c.(nextId := xid + 1, books := c.books[i := b])
      ensures venue.Justified(i, r, xid, side, price) && BooksWorn(old(venue.wear), venue.wear, i, side)
    {
      hide Venue.Valid, Venue.Justified, Tables.Valid, Submit, ActiveSet, Adds;
      xid := nextId;
      nextId := nextId + 1;
      venue.BooksSound();
      venue.WearSized();
      ghost var b := venue.books[i];
      r := venue.Submit(i, xid, side, price, qty);
      venue.WearSized();
      FillsBounded(b, xid, side, price, qty, r.rested);
    }

    /** Where the model says an order did not rest, its book had no room for it. */
    ghost predicate RestsFairly(c: Core, q: NewOrder, o: Oracle)
      requires Owns() && |c.books| == |live| && Listing(q.symbol)
      reads venue.Repr
    {
      var i := q.symbol - 1;
      venue.Justified(i, Submit(c.books[i], c.nextId, q.side, q.price, q.qty, MAX_FILLS, o.rests).0, c.nextId, q.side, q.price)
    }

    /** Where the book of the order has room, it rests what is left of it. c is the core before the
        order. */
    lemma {:induction false} Unhindered(c: Core, q: NewOrder, o: Oracle)
      requires Owns() && Parts() && |c.books| == |live| && Listing(q.symbol) && WellFormed(c.books[q.symbol - 1])
      requires venue.engines[q.symbol - 1].book.Assembled() && venue.engines[q.symbol - 1].book.Ample(q.side)
      requires RestsFairly(c, q, o)
      requires venue.books[q.symbol - 1] ==
               Submit(c.books[q.symbol - 1], c.nextId, q.side, q.price, q.qty, MAX_FILLS, o.rests).1
      ensures Submit(c.books[q.symbol - 1], c.nextId, q.side, q.price, q.qty, MAX_FILLS, o.rests) ==
              Submit(c.books[q.symbol - 1], c.nextId, q.side, q.price, q.qty, MAX_FILLS, true)
    {
      hide Venue.Valid, Tables.Valid, Venue.Justified, WellFormed, Sweep, BookIds, OrderBooks.OrderBook.Ample;
      hide OrderBooks.OrderBook.Assembled;
      var i, id := q.symbol - 1, c.nextId;
      var (r, b) := Submit(c.books[i], id, q.side, q.price, q.qty, MAX_FILLS, false);
      if q.qty > 0 && id !in BookIds(c.books[i]) && !o.rests {
        Engines.SweptIds(c.books[i], id, q.side, q.price, q.qty, MAX_FILLS);
        if r.remaining > 0 && !StillCrosses(q.side, q.price, b.Ladder(Opposite(q.side))) {
          venue.Rested(i, r, id, q.side, q.price);
        }
      }
    }

    /** How the id maps answered an order of core c. They are asked only for an order that comes to
        rest, and refuse it exactly when they are at their load cap and its path meets no tombstone,
        those of the makers gone included. An entry taken wears its map; nothing else does. */
    twostate predicate IdGrounds(c: Core, session: nat, q: NewOrder, o: Oracle)
      requires Owns() && old(tables.Valid()) && tables.Valid()
      reads tables.Repr
    {
      if Rests(c, session, q, o) then
        var m, key := Reported(c, session, q, o), Key(session, q.cid);
        && o.fwd == !old(tables.fwd.RefusesBeside(m.fwd.Keys, key))
        && o.rev == !old(tables.rev.RefusesBeside(m.rev.Keys, c.nextId))
        && Enters(old(tables.Wear()).fwd, tables.Wear().fwd, o.fwd, tables.fwd.Home(key))
        && Enters(old(tables.Wear()).rev, tables.Wear().rev, o.rev, tables.rev.Home(c.nextId))
      else o.fwd && o.rev && Erased(old(tables.Image()), tables.Image())
    }

    /** Matches an admitted order. c is the state before it was admitted. */
    method Execute(session: nat, q: NewOrder, ghost c: Core) returns (ghost o: Oracle)
      requires Parts() && buffer.count == 0 && q.qty < U32 && q.cid < CLIENT_IDS && Listing(q.symbol)
      requires Bounded(c) && Key(session, q.cid) !in c.seen && State() == c.(seen := c.seen + {Key(session, q.cid)})
      modifies Repr
      ensures Parts() && o.seen && nextSession == old(nextSession)
      ensures (State(), buffer.Events()) == Exchange.SubmitOrder(c, session, q, o)
      ensures old(tables.Roomy()) ==> o.fwd && o.rev
      ensures IdGrounds(c, session, q, o) && tables.Wear().seen == old(tables.Wear()).seen
      ensures BooksWorn(old(venue.wear), venue.wear, q.symbol - 1, q.side)
      ensures RestsFairly(c, q, o)
    {
      hide Venue.Valid, Venue.Justified, HashMap.Valid, HashMap.Refuses, HashMap.RefusesBeside, HashMap.Home, BooksWorn;
      hide Submit, Report, Key, Bounded, ActiveSet, Enter, Enters, Tables.Roomy, Tables.Image, Tables.Wear, Erased;
      tables.NothingErased();
      var i := q.symbol - 1;
      var xid, r := Match(i, q.side, q.price, q.qty);
      o := Oracle(true, r.rested, true, true);
      if !r.rested && r.fills == [] {
        Answer(Rejected(session, q.cid, q.symbol, q.ts, BookFull));
        return;
      }
      var t := Taker(session, q.cid, xid, q.symbol, q.side, q.ts);
      FreshTaker(c, venue.books[i], t, r.fills, q.qty);
      var fwdOk, revOk := Conclude(i, t, r, q.qty);
      o := Oracle(true, r.rested, fwdOk, revOk);
    }

    /** Why the tables and the books answered a new order as o says. The seen set refused it exactly
        when it had no room; the id maps have their grounds; an order left unrested had no room in
        its book. At most one slot of the seen set and an order and a level of its book are used up. */
    twostate predicate SubmitGrounds(session: nat, q: NewOrder, o: Oracle)
      requires old(Valid()) && tables.Valid()
      reads tables.Repr, venue.Repr
    {
      var c := old(State());
      && o.seen == !old(tables.seen.Refuses(Key(session, q.cid)))
      && IdGrounds(c, session, q, o) && (old(tables.Roomy()) ==> o.fwd && o.rev)
      && Spends(old(tables.Wear()).seen, tables.Wear().seen)
      && BooksWorn(old(venue.wear), venue.wear, q.symbol - 1, q.side)
      && (q.cid < CLIENT_IDS && Listing(q.symbol) && Key(session, q.cid) !in c.seen && o.seen ==> RestsFairly(c, q, o))
    }

    /** Admits, matches and reports a new order. */
    method Serve(session: nat, q: NewOrder) returns (ghost o: Oracle)
      requires Valid() && buffer.count == 0 && session < U16 && q.qty < U32
      modifies Repr
      ensures Parts() && tables.Valid() && nextSession == old(nextSession)
      ensures (State(), buffer.Events()) == Exchange.SubmitOrder(old(State()), session, q, o)
      ensures SubmitGrounds(session, q, o)
    {
      hide RestsFairly, Parts, Key, Bounded, ActiveSet, Exchange.SubmitOrder, HashMap.Refuses, HashMap.RefusesBeside;
      hide HashMap.Home, Tables.Roomy, Tables.Image, HashMap.Wear, Erased, Enters, BooksWorn, Rests, Reported, Tables.Valid;
      ghost var c := State();
      SoundTables();
      tables.NothingErased();
      BooksUnworn(venue.wear, q.symbol - 1, q.side);
      var ok;
      ok, o := Admit(session, q);
      SoundTables();
      if ok {
        o := Execute(session, q, c);
      } else {
        UnadmittedRests(c, session, q, o);
      }
      SoundTables();
    }

    /** A new order. State and events are what the model of the request says. */
    method SubmitOrder(session: nat, q: NewOrder) returns (ghost o: Oracle)
      requires Valid() && buffer.count == 0 && session < U16 && q.qty < U32
      modifies Repr
      ensures Valid()
      ensures (State(), buffer.Events()) == Exchange.SubmitOrder(old(State()), session, q, o)
      ensures SubmitGrounds(session, q, o)
    {
      hide Parts, Bounded, Exchange.SubmitOrder, SubmitGrounds;
      ghost var c := State();
      o := Serve(session, q);
      SubmitBounded(c, session, q, o);
    }

    lemma {:induction false} Sound()
      requires Valid()
      ensures Parts() && venue.Valid() && tables.Valid() && tables.seen.Valid() && tables.fwd.Valid() && tables.rev.Valid()
      ensures forall i :: 0 <= i < |State().books| ==> WellFormed(State().books[i])
    {
      hide Venue.Valid, HashMap.Valid, WellFormed;
      venue.BooksSound();
    }

    lemma {:induction false} SoundTables()
      requires Owns() && Parts()
      ensures tables.Valid()
    {
    }

    ghost function Condition(): Condition
      requires Owns()
      reads tables.Repr, venue
    {
      Shape(tables.Image(), tables.Wear(), venue.wear)
    }

    method CancelOrder(session: nat, cid: nat, symbol: nat, ts: int)
      requires Valid() && buffer.count == 0 && session < U16
      modifies Repr
      ensures Valid() && Unworn(old(Condition()), Condition())
      ensures (State(), buffer.Events()) == Exchange.CancelOrder(old(State()), session, cid, symbol, ts)
    {
      hide Parts, Key, Bounded, ActiveSet, BookIds, CancelBook, Tables.Image, Tables.Wear, Erased;
      ghost var c := State();
      SoundTables();
      tables.NothingErased();
      CancelBounded(c, session, cid, symbol, ts);
      if cid >= CLIENT_IDS {
        Answer(CancelRejected(session, cid, ts, InvalidOrderId));
        return;
      }
      if !Listing(symbol) {
        Answer(CancelRejected(session, cid, ts, UnknownSymbol));
        return;
      }
      CancelListed(session, cid, symbol, ts);
    }

    /** A cancel for a listed symbol: the order goes from its book and from both id maps. */
    method CancelListed(session: nat, cid: nat, symbol: nat, ts: int)
      requires Parts() && buffer.count == 0 && session < U16 && cid < CLIENT_IDS && Listed(State(), symbol)
      modifies Repr
      ensures Parts() && (State(), buffer.Events()) == Exchange.CancelOrder(old(State()), session, cid, symbol, ts)
      ensures Unworn(old(Condition()), Condition())
    {
      hide Venue.Valid, Tables.Valid, Key, ActiveSet, BookIds, CancelBook, Tables.Image, Tables.Wear, Erased;
      tables.NothingErased();
      var entry := tables.FindEntry(Key(session, cid));
      if entry.None? {
        Answer(CancelRejected(session, cid, ts, OrderNotFound));
        return;
      }
      var cancelled := Withdraw(symbol - 1, entry.value.xid);
      if !cancelled {
        Answer(CancelRejected(session, cid, ts, OrderNotFound));
        return;
      }
      tables.Forget(Key(session, cid), entry.value.xid);
      Answer(CancelAck(session, cid, ts));
    }

    /** Takes an order out of a book; nothing changes when it does not rest there. */
    method Withdraw(i: nat, xid: nat) returns (ok: bool)
      requires Parts() && i < |live|
      modifies venue.Repr
      ensures Parts() && ok == (xid in BookIds(old(venue.books)[i])) && venue.wear == old(venue.wear)
      ensures var c := old(State());
              State() == if ok then c.(books := c.books[i := CancelBook(c.books[i], xid)]) else c
    {
      hide Venue.Valid, Tables.Valid, ActiveSet, BookIds, CancelBook;
      venue.BooksSound();
      ghost var b := venue.books[i];
      ok := venue.Cancel(i, xid);
      if !ok {
        CancelAbsentBook(b, xid);
      }
    }

    /** Replaces an order in its book by one under the next exchange id. */
    method Rematch(i: nat, e: IdEntry, price: int, qty: nat) returns (ok: bool, xid: nat, r: MatchResult)
      requires Parts() && i < |live| && qty < U32
      modifies this, venue.Repr
      ensures Parts() && xid == old(nextId) && |r.fills| <= MAX_FILLS
      ensures ok == (e.xid in BookIds(old(venue.books)[i]))
      ensures var c := old(State());
              if ok then
                var (r', b) := Modify(c.books[i], e.xid, e.side, price, qty, xid, MAX_FILLS, r.rested);
                r == r' && State() == c.(nextId := xid + 1, books := c.books[i := b])
              else State() == c.(nextId := xid + 1)
      ensures ok ==> venue.Justified(i, r, xid, e.side, price)
    {
      hide Venue.Valid, Venue.Justified, Tables.Valid, ActiveSet, BookIds, CancelBook, Submit;
      xid := nextId;
      nextId := nextId + 1;
      venue.BooksSound();
      ghost var b := venue.books[i];
      ok, r := venue.Modify(i, e.xid, e.side, price, qty, xid);
      ModifyFills(b, e.xid, e.side, price, qty, xid, r.rested);
    }

    /** Replaces the old order by the new one in the id maps and reports the trades. */
    method Settle(i: nat, key: nat, e: IdEntry, t: Taker, r: MatchResult, qty: nat) returns (fwdOk: bool, revOk: bool)
      requires Parts() && i < |live| && buffer.count == 0 && |r.fills| <= MAX_FILLS && key in tables.Ids().fwd
      requires key == Key(t.session, t.cid)
      modifies buffer, buffer.slots, tables.Repr
      ensures Parts() && tables.Seen() == old(tables.Seen())
      ensures var m := IdMaps(old(tables.Ids()).fwd - {key}, old(tables.Ids()).rev - {e.xid});
              var w := Owner(t.session, t.cid, e.symbol, t.ts);
              && (forall o: Oracle :: o.fwd == fwdOk && o.rev == revOk ==>
                    var m1 := if r.rested then Enter(m, t.xid, t.side, w, o) else m;
                    var (m2, trades) := Report(m1, venue.books[i], t, r.fills, qty);
                    tables.Ids() == m2 && buffer.Events() == [ModifyAck(t.session, t.cid, t.xid, t.symbol, t.ts)] + trades)
              && fwdOk && (old(tables.Roomy()) && t.xid !in old(tables.Ids()).rev ==> revOk)
              && (r.rested && t.xid !in old(tables.Ids()).rev ==>
                    revOk == !old(tables.rev.RefusesBeside(tables.Ids().rev.Keys - {e.xid}, t.xid)))
    {
      hide Venue.Valid, Report, Key, HashMap.Refuses, HashMap.RefusesBeside, HashMap.Valid, Tables.Roomy;
      hide Tables.Image, Tables.Wear, Erased, Enters, HashMap.Home;
      tables.Forget(key, e.xid);
      tables.ErasedThins();
      fwdOk, revOk := true, true;
      if r.rested {
        fwdOk, revOk := tables.Enter(t.xid, t.side, Owner(t.session, t.cid, e.symbol, t.ts));
      }
      buffer.Emit(ModifyAck(t.session, t.cid, t.xid, t.symbol, t.ts));
      EmitTrades(i, t, r.fills, qty);
    }

    /** Where the model says a replacement did not rest, its book had no room for it. */
    ghost predicate RevisesFairly(c: Core, q: ModifyRequest, e: IdEntry, o: Oracle)
      requires Owns() && |c.books| == |live| && Listing(q.symbol)
      reads venue.Repr
    {
      var i := q.symbol - 1;
      venue.Justified(i, Modify(c.books[i], e.xid, e.side, q.price, q.qty, c.nextId, MAX_FILLS, o.rests).0, c.nextId, e.side, q.price)
    }

    /** Replaces the order a known client id names. */
    method Revise(session: nat, q: ModifyRequest, key: nat, e: IdEntry) returns (ghost o: Oracle)
      requires Parts() && buffer.count == 0 && q.qty < U32 && q.cid < CLIENT_IDS && Listing(q.symbol) && Bounded(State())
      requires key == Key(session, q.cid) && key in tables.Ids().fwd && tables.Ids().fwd[key] == e
      modifies Repr
      ensures Parts() && nextSession == old(nextSession)
      ensures (State(), buffer.Events()) == Exchange.ModifyOrder(old(State()), session, q, o)
      ensures o.fwd && (old(tables.Roomy()) ==> o.rev)
      ensures Resettles(old(State()), session, q, o) ==> o.rev == !old(tables.rev.RefusesBeside(tables.Ids().rev.Keys - {e.xid}, nextId))
      ensures e.xid in BookIds(old(venue.books)[q.symbol - 1]) ==> RevisesFairly(old(State()), q, e, o)
    {
      hide Venue.Valid, Venue.Justified, HashMap.Valid, HashMap.Refuses, HashMap.RefusesBeside;
      hide Key, Bounded, ActiveSet, BookIds, Submit, Report, Tables.Roomy, Enter;
      NewId(State());
      o := Oracle(true, true, true, true);
      var i := q.symbol - 1;
      var ok, xid, r := Rematch(i, e, q.price, q.qty);
      if !ok {
        Answer(ModifyRejected(session, q.cid, q.ts, OrderNotFound));
        return;
      }
      var t := Taker(session, q.cid, xid, q.symbol, e.side, q.ts);
      var fwdOk, revOk := Settle(i, key, e, t, r, q.qty);
      o := Oracle(true, r.rested, fwdOk, revOk);
    }

    /** Why the tables and the book answered a change as o says. The forward map never refuses the
        new entry: it takes the slot the old one left. The reverse map refuses it exactly when it is
        at its load cap and the new id's path meets no tombstone, the one the old id leaves
        included. */
    twostate predicate ModifyGrounds(session: nat, q: ModifyRequest, o: Oracle)
      requires old(Valid())
      reads venue.Repr
    {
      var c, key := old(State()), Key(session, q.cid);
      && o.fwd && (old(tables.Roomy()) ==> o.rev)
      && (Resettles(c, session, q, o) ==> o.rev == !old(tables.rev.RefusesBeside(c.ids.rev.Keys - {c.ids.fwd[key].xid}, nextId)))
      && (Modifiable(c, session, q) ==> RevisesFairly(c, q, c.ids.fwd[key], o))
    }

    /** Cancels and resubmits under a new exchange id. */
    method ModifyOrder(session: nat, q: ModifyRequest) returns (ghost o: Oracle)
      requires Valid() && buffer.count == 0 && session < U16 && q.qty < U32
      modifies Repr
      ensures Valid()
      ensures (State(), buffer.Events()) == Exchange.ModifyOrder(old(State()), session, q, o)
      ensures ModifyGrounds(session, q, o)
    {
      hide RevisesFairly, Venue.Valid, Tables.Valid, Key, Bounded, ActiveSet, BookIds, Modify, Report, Tables.Roomy;
      ghost var c := State();
      o := Oracle(true, true, true, true);
      if q.cid >= CLIENT_IDS {
        Answer(ModifyRejected(session, q.cid, q.ts, InvalidOrderId));
      } else if !Listing(q.symbol) {
        Answer(ModifyRejected(session, q.cid, q.ts, UnknownSymbol));
      } else {
        var key := Key(session, q.cid);
        var entry := tables.FindEntry(key);
        if entry.None? {
          Answer(ModifyRejected(session, q.cid, q.ts, OrderNotFound));
        } else {
          o := Revise(session, q, key, entry.value);
        }
      }
      ModifyBounded(c, session, q, o);
    }

    // -------------------------------------------------------------------------
    // Sessions
    // -------------------------------------------------------------------------

    /** Finds an unused session id, skipping 0. None stands for the abort, which happens exactly
        when all 65535 ids are in use. */
    method Connect() returns (r: Option<nat>)
      requires Valid()
      modifies this, active
      ensures Parts() && nextSession < U16
      ensures r.None? <==> forall s :: 0 < s < U16 ==> s in old(State()).sessions
      ensures r.Some? ==> 0 < r.value < U16 && r.value !in old(State()).sessions
      ensures r.Some? ==> Valid() && State() == ExchangeSessions.Connect(old(State()), r.value) && Unworn(old(Condition()), Condition())
      ensures r.Some? ==> FirstUnused(old(State()), r.value)
    {
      hide Venue.Valid, Tables.Valid, Tables.Image, Tables.Wear, Erased;
      tables.NothingErased();
      assert forall s :: 0 < s < U16 ==> (s in State().sessions <==> active[s]);
      var id := NextUnused();
      if id == 0 {
        return None;
      }
      active[id] := true;
      r := Some(id);
    }

    /** The search for an unused session id; 0 when there is none. */
    method NextUnused() returns (id: nat)
      requires nextSession < U16 && active.Length == U16
      modifies this`nextSession
      ensures id < U16 && nextSession < U16
      ensures id == 0 <==> forall s :: 0 < s < U16 ==> active[s]
      ensures id != 0 ==> !active[id] && nextSession == (id + 1) % U16
      ensures forall s :: 0 < s < U16 && Before(old(nextSession), s, id) ==> active[s]
    {
      ghost var first := if nextSession == 0 then 1 else nextSession;
      var attempts := 0;
      while true
        invariant attempts < 65535 && nextSession < U16
        invariant (if nextSession == 0 then 1 else nextSession) ==
                  if first + attempts < U16 then first + attempts else first + attempts - 65535
        invariant forall s :: first <= s < U16 && s < first + attempts ==> active[s]
        invariant forall s :: 0 < s < first + attempts - 65535 ==> active[s]
        decreases 65535 - attempts
      {
        if nextSession == 0 {
          nextSession := 1;
        }
        id := nextSession;
        nextSession := (nextSession + 1) % U16;
        if !active[id] {
          return;
        }
        attempts := attempts + 1;
        if attempts >= 65535 {
          return 0;
        }
      }
    }

    /** Cancels every order a session's entries name and lists their keys. */
    method CancelSession(session: nat) returns (keys: seq<nat>)
      requires Parts() && Bounded(State())
      modifies venue.Repr
      ensures Parts() && venue.books == Purged(old(venue.books), tables.Ids(), session) && venue.wear == old(venue.wear)
      ensures Elements(keys) == KeysOf(tables.Ids().fwd.Keys, session)
      ensures forall i, j :: 0 <= i < j < |keys| ==> keys[i] != keys[j]
    {
      hide Venue.Valid, HashMap.Valid, HashMap.Refuses, BookIds, CancelBook, PurgedBy, SessionOf;
      var es := tables.fwd.Entries();
      venue.BooksSound();
      ghost var before := venue.books;
      PurgedByNone(before, session);
      keys := [];
      assert es[..0] == [];
      for p := 0 to |es|
        invariant Parts() && PurgedBy(venue.books, before, es[..p], session) && keys == Picked(es[..p], session)
        invariant venue.wear == old(venue.wear)
      {
        assert (es[p].0, es[p].1) in es;
        PurgedByStep(venue.books, before, es, p, session);
        assert es[..p + 1][..p] == es[..p];
        if SessionOf(es[p].0) == session {
          var _ := venue.Cancel(es[p].1.symbol - 1, es[p].1.xid);
          keys := keys + [es[p].0];
        }
      }
      assert es[..|es|] == es;
      PurgedByAll(venue.books, before, es, tables.Ids(), session);
      PickedIs(es, session);
      PickedAll(es, tables.fwd.contents, session);
    }

    /** Takes keys and the orders they name out of both maps. */
    method ForgetKeys(keys: seq<nat>)
      requires Parts() && Elements(keys) <= tables.Ids().fwd.Keys
      requires forall i, j :: 0 <= i < j < |keys| ==> keys[i] != keys[j]
      modifies tables.Repr
      ensures Parts() && tables.Seen() == old(tables.Seen())
      ensures var m := old(tables.Ids()); tables.Ids() == IdMaps(m.fwd - Elements(keys), m.rev - XidsOf(m, Elements(keys)))
      ensures Erased(old(tables.Image()), tables.Image()) && tables.Wear() == old(tables.Wear())
    {
      hide Venue.Valid, Tables.Valid, XidsOf, Tables.Image, Tables.Wear, Erased;
      ghost var m := tables.Ids();
      tables.NothingErased();
      assert keys[..0] == [];
      NamedNone(m);
      for q := 0 to |keys|
        invariant Parts() && tables.Seen() == old(tables.Seen())
        invariant Erased(old(tables.Image()), tables.Image()) && tables.Wear() == old(tables.Wear())
        invariant tables.Ids() == IdMaps(m.fwd - Elements(keys[..q]), m.rev - XidsOf(m, Elements(keys[..q])))
      {
        assert keys[q] in Elements(keys);
        OneMoreKey(m, keys, q);
        var entry := tables.FindEntry(keys[q]);
        ghost var image := tables.Image();
        tables.Forget(keys[q], entry.value.xid);
        ErasedMore(old(tables.Image()), image, tables.Image());
      }
      assert keys[..|keys|] == keys;
    }

    method ForgetSeen(session: nat)
      requires Parts()
      modifies tables.Repr
      ensures Parts() && tables.Ids() == old(tables.Ids())
      ensures tables.Seen() == old(tables.Seen()) - KeysOf(old(tables.Seen()), session)
      ensures tables.Image() == old(tables.Image()) && tables.Wear() == old(tables.Wear())
    {
      hide Venue.Valid, HashMap.Valid, HashMap.Refuses, SessionOf, Tables.Image, Tables.Wear;
      var es := tables.seen.Entries();
      PickedAll(es, tables.seen.contents, session);
      var keys: seq<nat> := [];
      assert es[..0] == [];
      for p := 0 to |es|
        invariant keys == Picked(es[..p], session)
      {
        assert es[..p + 1][..p] == es[..p];
        if SessionOf(es[p].0) == session {
          keys := keys + [es[p].0];
        }
      }
      assert es[..|es|] == es;
      for q := 0 to |keys|
        invariant Parts() && tables.Ids() == old(tables.Ids())
        invariant tables.Image() == old(tables.Image()) && tables.Wear() == old(tables.Wear())
        invariant tables.Seen() == old(tables.Seen()) - Elements(keys[..q])
      {
        assert keys[..q + 1] == keys[..q] + [keys[q]];
        tables.Unsee(keys[q]);
      }
      assert keys[..|keys|] == keys;
    }

    /** Ends a session: its orders, its id mappings and its seen client ids go. */
    method Disconnect(session: nat)
      requires Valid() && session < U16
      modifies Repr
      ensures Valid() && State() == ExchangeSessions.Disconnect(old(State()), session) && Unworn(old(Condition()), Condition())
      ensures buffer.Events() == old(buffer.Events()) && buffer.count == old(buffer.count)
    {
      hide Venue.Valid, Tables.Valid, Purged, KeysOf, OrdersOf, SessionOf, Tables.Image, Tables.Wear, Erased;
      tables.NothingErased();
      if session == 0 {
        return;
      }
      ghost var c := State();
      active[session] := false;
      var keys := CancelSession(session);
      KeysWithin(c.ids.fwd.Keys, session);
      ForgetKeys(keys);
      NamedAll(c.ids, session);
      ForgetSeen(session);
      DisconnectBounded(c, session);
    }

    method Drain() returns (es: seq<Event>)
      requires Parts()
      modifies buffer
      ensures Parts() && State() == old(State()) && es == old(buffer.Events()) && buffer.count == 0
    {
      hide Venue.Valid, Tables.Valid;
      es := buffer.Drain();
      assert |buffer.Events()| == 0;
    }
  }
}
