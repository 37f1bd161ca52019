/** What a submission does to each maker: who trades, for how much, and what each has left. */
module Accounting {
  import opened Machine
  import opened Books
  import opened Ladders
  import opened Matching
  import opened Quantities

  /** Quantity under an id in a priority list. */
  function MakerQty(ms: seq<Maker>, id: nat): nat {
    if ms == [] then 0 else (if ms[0].id == id then ms[0].qty else 0) + MakerQty(ms[1..], id)
  }

  lemma {:induction false} MakerQtyConcat(a: seq<Maker>, b: seq<Maker>, id: nat)
    ensures MakerQty(a + b, id) == MakerQty(a, id) + MakerQty(b, id)
  {
    if a == [] {
      assert a + b == b;
    } else {
      MakerQtyConcat(a[1..], b, id);
      assert (a + b)[1..] == a[1..] + b;
    }
  }

  lemma {:induction false} QueueMakerQty(price: int, os: seq<Order>, id: nat)
    ensures MakerQty(QueueMakers(price, os), id) == QueueQty(os, id)
  {
    if os != [] {
      QueueMakerQty(price, os[1..], id);
      assert QueueMakers(price, os)[1..] == QueueMakers(price, os[1..]);
    }
  }

  lemma {:induction false} FlattenQty(levels: seq<Level>, id: nat)
    ensures MakerQty(Flatten(levels), id) == LadderQty(levels, id)
  {
    if levels != [] {
      FlattenQty(levels[1..], id);
      QueueMakerQty(levels[0].price, levels[0].orders, id);
      MakerQtyConcat(QueueMakers(levels[0].price, levels[0].orders), Flatten(levels[1..]), id);
    }
  }

  ghost predicate DistinctIds(ms: seq<Maker>) {
    forall i, j :: 0 <= i < j < |ms| ==> ms[i].id != ms[j].id
  }

  lemma {:induction false} UniqueIsDistinct(ms: seq<Maker>)
    requires Unique(MakerIds(ms))
    ensures DistinctIds(ms)
  {
    forall i, j | 0 <= i < j < |ms|
      ensures ms[i].id != ms[j].id
    {
      var s := IdSeq(ms);
      assert s == s[..j] + s[j..];
      assert s[i] in s[..j] && s[j] in s[j..];
      assert multiset(s)[s[i]] == multiset(s[..j])[s[i]] + multiset(s[j..])[s[i]];
    }
  }

  lemma {:induction false} MakerQtyAbsent(ms: seq<Maker>, id: nat)
    requires forall i :: 0 <= i < |ms| ==> ms[i].id != id
    ensures MakerQty(ms, id) == 0
  {
    if ms != [] {
      MakerQtyAbsent(ms[1..], id);
    }
  }

  lemma {:induction false} MakerQtyAt(ms: seq<Maker>, i: nat)
    requires DistinctIds(ms) && i < |ms|
    ensures MakerQty(ms, ms[i].id) == ms[i].qty
  {
    if i == 0 {
      MakerQtyAbsent(ms[1..], ms[0].id);
    } else {
      MakerQtyAt(ms[1..], i - 1);
    }
  }

  /** The part of a list behind its first n makers has nothing under their ids. */
  lemma {:induction false} TailQty(ms: seq<Maker>, n: nat, id: nat)
    requires DistinctIds(ms) && n <= |ms|
    ensures MakerQty(ms[n..], id) ==
            if exists i :: 0 <= i < n && ms[i].id == id then 0 else MakerQty(ms, id)
  {
    assert ms == ms[..n] + ms[n..];
    MakerQtyConcat(ms[..n], ms[n..], id);
    if exists i :: 0 <= i < n && ms[i].id == id {
      MakerQtyAbsent(ms[n..], id);
    } else {
      MakerQtyAbsent(ms[..n], id);
    }
  }

  /** Quantity an id trades in a list of fills. */
  function FilledQty(fills: seq<Fill>, id: nat): nat {
    if fills == [] then 0 else (if fills[0].maker == id then fills[0].qty else 0) + FilledQty(fills[1..], id)
  }

  lemma {:induction false} FilledQtyAbsent(fills: seq<Fill>, id: nat)
    requires forall i :: 0 <= i < |fills| ==> fills[i].maker != id
    ensures FilledQty(fills, id) == 0
  {
    if fills != [] {
      FilledQtyAbsent(fills[1..], id);
    }
  }

  ghost predicate DistinctMakers(fills: seq<Fill>) {
    forall i, j :: 0 <= i < j < |fills| ==> fills[i].maker != fills[j].maker
  }

  lemma {:induction false} FilledQtyAt(fills: seq<Fill>, i: nat)
    requires DistinctMakers(fills) && i < |fills|
    ensures FilledQty(fills, fills[i].maker) == fills[i].qty
  {
    if i == 0 {
      FilledQtyAbsent(fills[1..], fills[0].maker);
    } else {
      FilledQtyAt(fills[1..], i - 1);
    }
  }

  /** What is left under each id is what was there minus what it traded. */
  lemma {:induction false} LeftOverQty(ms: seq<Maker>, fills: seq<Fill>, taker: nat, side: Side, limit: int, id: nat)
    requires DistinctIds(ms) && WalksPrefix(ms, fills, taker, side, limit)
    ensures DistinctMakers(fills)
    ensures MakerQty(LeftOver(ms, fills), id) + FilledQty(fills, id) == MakerQty(ms, id)
  {
    var n := |fills|;
    forall i | 0 <= i < n
      ensures fills[i].maker == ms[i].id
    {
      assert Trades(ms[i], fills[i], taker, side, limit);
    }
    TailQty(ms, n, id);
    if i :| 0 <= i < n && ms[i].id == id {
      FilledQtyAt(fills, i);
      MakerQtyAt(ms, i);
      LastFill(ms, fills, i);
    } else {
      FilledQtyAbsent(fills, id);
      LastFillOther(ms, fills, id);
    }
  }

  lemma {:induction false} LastFill(ms: seq<Maker>, fills: seq<Fill>, i: nat)
    requires DistinctIds(ms) && i < |fills| <= |ms| && forall k :: 0 <= k < |fills| ==> fills[k].qty <= ms[k].qty
    requires forall k :: 0 <= k < |fills| - 1 ==> fills[k].qty == ms[k].qty
    requires MakerQty(ms[|fills|..], ms[i].id) == 0
    ensures MakerQty(LeftOver(ms, fills), ms[i].id) == ms[i].qty - fills[i].qty
  {
    var n := |fills|;
    if fills[n - 1].qty < ms[n - 1].qty {
      var l := [ms[n - 1].(qty := ms[n - 1].qty - fills[n - 1].qty)] + ms[n..];
      assert LeftOver(ms, fills) == l && l[1..] == ms[n..];
    }
  }

  lemma {:induction false} LastFillOther(ms: seq<Maker>, fills: seq<Fill>, id: nat)
    requires |fills| <= |ms| && forall k :: 0 <= k < |fills| ==> fills[k].qty <= ms[k].qty && ms[k].id != id
    ensures MakerQty(LeftOver(ms, fills), id) == MakerQty(ms[|fills|..], id)
  {
    var n := |fills|;
    if n > 0 && fills[n - 1].qty < ms[n - 1].qty {
      var l := [ms[n - 1].(qty := ms[n - 1].qty - fills[n - 1].qty)] + ms[n..];
      assert LeftOver(ms, fills) == l && l[1..] == ms[n..];
    }
  }

  /** The same of a whole submission: no maker trades twice, every maker rested on the other
      side, and each id there keeps exactly what it did not trade. */
  lemma {:induction false} SubmitAccounts(b: Book, id: nat, side: Side, price: int, qty: nat, room: nat, accept: bool, x: nat)
    requires WellFormed(b) && qty > 0 && id !in BookIds(b)
    ensures var (r, b') := Submit(b, id, side, price, qty, room, accept);
            && DistinctMakers(r.fills) && |r.fills| <= room && SumFills(r.fills) + r.remaining == qty
            && LadderQty(b'.Ladder(Opposite(side)), x) + FilledQty(r.fills, x) == LadderQty(b.Ladder(Opposite(side)), x)
  {
    var (r, b') := Submit(b, id, side, price, qty, room, accept);
    var L, L' := b.Ladder(Opposite(side)), b'.Ladder(Opposite(side));
    SubmitIsPriceTime(b, id, side, price, qty, room, accept);
    FlattenIds(L);
    assert Ids(L) <= BookIds(b);
    UniqueSmaller(Ids(L), BookIds(b));
    UniqueIsDistinct(Flatten(L));
    LeftOverQty(Flatten(L), r.fills, id, side, price, x);
    FlattenQty(L, x);
    FlattenQty(L', x);
  }

  /** Who trades: each fill is with an order resting on the other side. */
  lemma {:induction false} SubmitMakers(b: Book, id: nat, side: Side, price: int, qty: nat, room: nat, accept: bool, i: nat)
    requires WellFormed(b) && qty > 0 && id !in BookIds(b)
    requires i < |Submit(b, id, side, price, qty, room, accept).0.fills|
    ensures var f := Submit(b, id, side, price, qty, room, accept).0.fills[i];
            f.maker in Ids(b.Ladder(Opposite(side))) && f.taker == id && f.qty > 0
  {
    var r := Submit(b, id, side, price, qty, room, accept).0;
    var L := b.Ladder(Opposite(side));
    SubmitIsPriceTime(b, id, side, price, qty, room, accept);
    assert Trades(Flatten(L)[i], r.fills[i], id, side, price);
    FlattenIds(L);
    assert IdSeq(Flatten(L))[i] == r.fills[i].maker;
  }
}
