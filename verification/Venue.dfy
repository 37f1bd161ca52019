/** One matching engine per symbol, as the exchange core holds them. */
module Venues {
  import opened Machine
  import opened Books
  import opened Ladders
  import opened Matching
  import opened Quantities
  import opened BookRep
  import opened BookParts
  import opened OrderBooks
  import opened Engines

  /** Everything some engines own. */
  ghost function Footprint(es: seq<MatchingEngine>): (r: set<object>)
    ensures forall i :: 0 <= i < |es| ==> es[i].Repr <= r
    ensures forall o :: o in r ==> exists i :: 0 <= i < |es| && o in es[i].Repr
  {
    if es == [] then {} else es[0].Repr + Footprint(es[1..])
  }

  class Venue {
    const engines: seq<MatchingEngine>
    const maxFills: nat
    /** The books by symbol, and how worn their maps are. */
    ghost var books: seq<Book>
    ghost var wear: seq<BookWear>
    ghost const Repr: set<object>

    /** The engines share no memory. */
    ghost predicate Apart() {
      && this in Repr
      && (forall i :: 0 <= i < |engines| ==> engines[i].Repr <= Repr && this !in engines[i].Repr)
      && (forall i, j :: 0 <= i < |engines| && 0 <= j < |engines| && i != j ==> engines[i].Repr !! engines[j].Repr)
    }

    ghost predicate Holds(i: nat)
      requires i < |engines| && Apart()
      reads Repr
    {
      && engines[i].Valid() && engines[i].fills.Length == maxFills
      && i < |books| == |wear| && engines[i].Value() == books[i] && engines[i].Wear() == wear[i]
    }

    ghost predicate Valid()
      reads Repr
    {
      Apart() && |books| == |wear| == |engines| && forall i :: 0 <= i < |engines| ==> Holds(i)
    }

    constructor (es: seq<MatchingEngine>, n: nat, ghost w: seq<BookWear>)
      requires forall i :: 0 <= i < |es| ==> es[i].Valid() && es[i].fills.Length == n && es[i].Value() == EMPTY_BOOK
      requires forall i, j :: 0 <= i < |es| && 0 <= j < |es| && i != j ==> es[i].Repr !! es[j].Repr
      requires |w| == |es| && forall i :: 0 <= i < |es| ==> w[i] == es[i].Wear()
      ensures Valid() && engines == es && maxFills == n && books == seq(|es|, _ => EMPTY_BOOK)
      ensures wear == w && Repr == {this} + Footprint(es) && fresh(this)
    {
      hide MatchingEngine.Valid, MatchingEngine.Value, MatchingEngine.Wear;
      engines, maxFills := es, n;
      books := seq(|es|, _ => EMPTY_BOOK);
      wear := w;
      Repr := {this} + Footprint(es);
      new;
      assert forall i, o :: 0 <= i < |es| && o in es[i].Repr ==> o != this;
      assert Apart();
      assert forall i :: 0 <= i < |es| ==> Holds(i);
    }

    /** As each engine answers for what it did not rest. */
    ghost predicate Justified(i: nat, r: MatchResult, id: nat, side: Side, price: int)
      requires Apart() && i < |engines|
      reads Repr
    {
      Holds(i) && engines[i].Justified(r, id, side, price)
    }

    method Submit(i: nat, id: nat, side: Side, price: int, qty: nat) returns (r: MatchResult)
      requires Valid() && i < |engines| && qty < U32
      modifies Repr
      ensures Valid()
      ensures var (r', b) := Matching.Submit(old(books)[i], id, side, price, qty, maxFills, r.rested);
              r == r' && books == old(books)[i := b]
      ensures Justified(i, r, id, side, price)
      ensures Adds(old(wear)[i], wear[i], side) && wear == old(wear)[i := wear[i]]
    {
      hide MatchingEngine.Wear, Adds, MatchingEngine.Valid, MatchingEngine.Value, MatchingEngine.Justified, Matching.Submit;
      assert Holds(i);
      r := engines[i].Submit(id, side, price, qty);
      books, wear := books[i := engines[i].Value()], wear[i := engines[i].Wear()];
      forall j | 0 <= j < |engines|
        ensures Holds(j)
      {
        assert old(Holds(j));
      }
    }

    method Cancel(i: nat, id: nat) returns (ok: bool)
      requires Valid() && i < |engines|
      modifies Repr
      ensures Valid() && ok == (id in BookIds(old(books)[i]))
      ensures books == old(books)[i := CancelBook(old(books)[i], id)] && wear == old(wear)
    {
      hide MatchingEngine.Wear, MatchingEngine.Valid, MatchingEngine.Value, BookIds, CancelBook;
      assert Holds(i);
      ok := engines[i].CancelOrder(id);
      books, wear := books[i := engines[i].Value()], wear[i := engines[i].Wear()];
      forall j | 0 <= j < |engines|
        ensures Holds(j)
      {
        assert old(Holds(j));
      }
    }

    method Modify(i: nat, oldId: nat, side: Side, price: int, qty: nat, newId: nat) returns (ok: bool, r: MatchResult)
      requires Valid() && i < |engines| && qty < U32
      modifies Repr
      ensures Valid() && ok == (oldId in BookIds(old(books)[i]))
      ensures var (r', b) := Matching.Modify(old(books)[i], oldId, side, price, qty, newId, maxFills, r.rested);
              r == r' && books == old(books)[i := b]
      ensures ok ==> Justified(i, r, newId, side, price)
      ensures Adds(old(wear)[i], wear[i], side) && wear == old(wear)[i := wear[i]]
    {
      hide MatchingEngine.Wear, Adds, MatchingEngine.Valid, MatchingEngine.Value, MatchingEngine.Justified, BookIds;
      hide Matching.Modify;
      assert Holds(i);
      ok, r := engines[i].ModifyOrder(oldId, side, price, qty, newId);
      books, wear := books[i := engines[i].Value()], wear[i := engines[i].Wear()];
      forall j | 0 <= j < |engines|
        ensures Holds(j)
      {
        assert old(Holds(j));
      }
    }

    method OrderQty(i: nat, id: nat) returns (q: nat)
      requires Valid() && i < |engines|
      ensures q == BookQty(books[i], id)
    {
      hide MatchingEngine.Valid, MatchingEngine.Value;
      assert Holds(i);
      q := engines[i].OrderQty(id);
    }

    method HasOrder(i: nat, id: nat) returns (r: bool)
      requires Valid() && i < |engines|
      ensures r == (id in BookIds(books[i]))
    {
      hide MatchingEngine.Valid, MatchingEngine.Value, BookIds;
      assert Holds(i);
      r := engines[i].HasOrder(id);
    }

    method BestQuote(i: nat, side: Side) returns (r: Option<(int, nat)>)
      requires Valid() && i < |engines|
      ensures var L := books[i].Ladder(side);
              r == if L == [] then None else Some((L[0].price, SumQty(L[0].orders) % U32))
    {
      hide MatchingEngine.Valid, MatchingEngine.Value;
      assert Holds(i);
      r := engines[i].BestQuote(side);
    }

    /** Capacities of one engine's book that n orders and n levels on a side cannot exhaust. */
    ghost predicate Holding(i: nat, side: Side, n: nat)
      requires i < |engines|
    {
      var b := engines[i].book;
      && b.index.orderMap.capacity != 0 && b.index.LevelMap(side).capacity != 0
      && n < b.index.orderMap.maxLoad && n < b.chains.nO && n < b.index.LevelMap(side).maxLoad && 2 * n < b.chains.nL
    }

    lemma {:induction false} Lightly(i: nat, side: Side, n: nat)
      requires Valid() && i < |engines| && Holding(i, side, n)
      requires wear[i].orders.load <= n && wear[i].bids.load <= n && wear[i].asks.load <= n
      ensures engines[i].book.Assembled() && engines[i].book.Ample(side)
    {
      hide OrderBook.Plumbing, OrderBook.Assembled, View.Inv, WellFormed, View.Abs, OrderBook.Ample;
      assert Holds(i);
      engines[i].book.LightlyWorn(side);
    }

    /** What an engine with little worn maps is left with rests, if it has a new id and crosses
        nothing. */
    lemma {:induction false} Rested(i: nat, r: MatchResult, id: nat, side: Side, price: int)
      requires Apart() && i < |engines| && Justified(i, r, id, side, price)
      requires engines[i].book.Assembled() && engines[i].book.Ample(side)
      requires r.remaining > 0 && id !in BookIds(books[i]) && !StillCrosses(side, price, books[i].Ladder(Opposite(side)))
      ensures r.rested
    {
      hide MatchingEngine.Valid, MatchingEngine.Value, MatchingEngine.Justified, OrderBook.Ample, OrderBook.Assembled;
      engines[i].Rested(r, id, side, price);
    }

    lemma {:induction false} WearSized()
      requires Valid()
      ensures |wear| == |engines|
    {
    }

    lemma {:induction false} BooksSound()
      requires Valid()
      ensures forall i :: 0 <= i < |books| ==> WellFormed(books[i]) && Uncrossed(books[i])
    {
      forall i | 0 <= i < |books|
        ensures WellFormed(books[i]) && Uncrossed(books[i])
      {
        assert Holds(i);
        engines[i].BookSound();
      }
    }
  }
}
