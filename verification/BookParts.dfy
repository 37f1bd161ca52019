/** The remaining parts of a book: the slot pools with their free stacks, and the three
    lookup maps. */
module BookParts {
  import opened Machine
  import opened Books
  import opened FreeStack
  import opened HashTable
  import opened IntrusiveLists
  import opened BookRep

  /** Order and level slots, field by field, and the stacks of free slot indices. */
  class Pools {
    const orderKeys: array<OrderKey>
    const qtys: array<nat>
    const owners: array<int>
    const levelKeys: array<LevelKey>
    const totals: array<nat>
    const orderFree: IndexFreeStack
    const levelFree: IndexFreeStack

    ghost const Repr: set<object>

    ghost predicate Owns() {
      Repr == {orderKeys, qtys, owners, levelKeys, totals, orderFree, orderFree.indices, levelFree, levelFree.indices}
    }

    ghost predicate Separate() {
      && orderFree != levelFree && orderFree.indices != levelFree.indices && qtys != totals
      && orderFree.indices != qtys && orderFree.indices != totals
      && levelFree.indices != qtys && levelFree.indices != totals
      && owners as object != qtys && owners as object != totals
      && owners as object != orderFree.indices && owners as object != levelFree.indices
    }

    ghost predicate Valid()
      reads Repr
    {
      && Owns() && Separate()
      && orderKeys.Length == qtys.Length == owners.Length == orderFree.capacity
      && levelKeys.Length == totals.Length == levelFree.capacity
      && orderFree.Valid() && levelFree.Valid()
    }

    constructor (orders: nat, levels: nat)
      requires orders > 0 && levels > 0
      ensures Valid() && fresh(Repr)
      ensures orderFree.capacity == orders && levelFree.capacity == levels
      ensures orderFree.free == Below(orders) && levelFree.free == Below(levels)
    {
      hide IndexFreeStack.Valid;
      orderKeys := new OrderKey[orders](_ => OrderKey(0, 0, Bid));
      qtys := new nat[orders](_ => 0);
      owners := new int[orders](_ => NULL);
      levelKeys := new LevelKey[levels](_ => LevelKey(0, Bid));
      totals := new nat[levels](_ => 0);
      var forOrders := new IndexFreeStack(orders);
      var forLevels := new IndexFreeStack(levels);
      orderFree, levelFree := forOrders, forLevels;
      Repr := {orderKeys, qtys, owners, levelKeys, totals, forOrders, forOrders.indices, forLevels, forLevels.indices};
    }

    /** A free order slot filled in, or nothing when the pool is exhausted. */
    method AllocOrder(key: OrderKey, q: nat) returns (ok: bool, o: nat)
      requires Valid()
      modifies orderFree, orderKeys, qtys
      ensures Valid()
      ensures ok == (old(orderFree.free) != {})
      ensures ok ==> o in old(orderFree.free) && o < orderKeys.Length && orderFree.free == old(orderFree.free) - {o}
      ensures ok ==> orderKeys[..] == old(orderKeys[..])[o := key] && qtys[..] == old(qtys[..])[o := q]
      ensures !ok ==> orderFree.free == old(orderFree.free) && orderKeys[..] == old(orderKeys[..]) && qtys[..] == old(qtys[..])
    {
      ok, o := orderFree.Pop();
      if ok {
        orderKeys[o] := key;
        qtys[o] := q;
      }
    }

    /** Returns an order slot, clearing its back-pointer. */
    method FreeOrder(o: nat)
      requires Valid() && o < orderKeys.Length && o !in orderFree.free
      modifies orderFree, orderFree.indices, owners
      ensures Valid()
      ensures orderFree.free == old(orderFree.free) + {o}
      ensures owners[..] == old(owners[..])[o := NULL]
    {
      owners[o] := NULL;
      orderFree.Push(o);
    }

    method AllocLevel(key: LevelKey) returns (ok: bool, j: nat)
      requires Valid()
      modifies levelFree, levelKeys, totals
      ensures Valid()
      ensures ok == (old(levelFree.free) != {})
      ensures ok ==> j in old(levelFree.free) && j < levelKeys.Length && levelFree.free == old(levelFree.free) - {j}
      ensures ok ==> levelKeys[..] == old(levelKeys[..])[j := key] && totals[..] == old(totals[..])[j := 0]
      ensures !ok ==> levelFree.free == old(levelFree.free) && levelKeys[..] == old(levelKeys[..]) && totals[..] == old(totals[..])
    {
      ok, j := levelFree.Pop();
      if ok {
        levelKeys[j] := key;
        totals[j] := 0;
      }
    }

    method FreeLevel(j: nat)
      requires Valid() && j < levelKeys.Length && j !in levelFree.free
      modifies levelFree, levelFree.indices
      ensures Valid() && levelFree.free == old(levelFree.free) + {j}
    {
      levelFree.Push(j);
    }
  }

  /** How worn the maps of a book are. */
  datatype BookWear = BookWear(orders: Wear, bids: Wear, asks: Wear) {
    function Levels(side: Side): Wear {
      if side.Bid? then bids else asks
    }
  }

  /** At most one new order and one new level on a side wore the maps. */
  ghost predicate Adds(before: BookWear, after: BookWear, side: Side) {
    && Spends(before.orders, after.orders) && Spends(before.Levels(side), after.Levels(side))
    && after.Levels(Opposite(side)) == before.Levels(Opposite(side))
  }

  lemma {:induction false} AddsNone(w: BookWear, side: Side)
    ensures Adds(w, w, side)
  {
  }

  /** Order id to order slot, and price to level slot for each side. */
  class Index {
    const orderMap: HashMap<nat, nat>
    const bidMap: HashMap<int, nat>
    const askMap: HashMap<int, nat>

    ghost const Repr: set<object>

    ghost predicate Owns() {
      Repr == {orderMap, orderMap.slots, bidMap, bidMap.slots, askMap, askMap.slots}
    }

    ghost predicate Separate() {
      && bidMap != askMap && orderMap as object != bidMap && orderMap as object != askMap
      && bidMap.slots != askMap.slots && orderMap.slots as object != bidMap.slots && orderMap.slots as object != askMap.slots
    }

    ghost predicate Valid()
      reads Repr
    {
      Owns() && Separate() && orderMap.Valid() && bidMap.Valid() && askMap.Valid()
    }

    function LevelMap(side: Side): HashMap<int, nat> {
      if side.Bid? then bidMap else askMap
    }

    ghost function Wear(): BookWear
      requires Owns()
      reads Repr
    {
      BookWear(orderMap.Wear(), bidMap.Wear(), askMap.Wear())
    }

    constructor (orderCap: nat, levelCap: nat, hashId: nat -> nat, hashPrice: int -> nat)
      requires ValidCapacity(orderCap) && ValidCapacity(levelCap)
      ensures Valid() && fresh(Repr)
      ensures orderMap.contents == map[] && bidMap.contents == askMap.contents == map[]
      ensures orderMap.Fresh(orderCap, hashId) && bidMap.Fresh(levelCap, hashPrice) && askMap.Fresh(levelCap, hashPrice)
    {
      hide HashMap.Valid, HashMap.Fresh;
      var ids := new HashMap<nat, nat>(orderCap, hashId);
      var bids := new HashMap<int, nat>(levelCap, hashPrice);
      var asks := new HashMap<int, nat>(levelCap, hashPrice);
      orderMap, bidMap, askMap := ids, bids, asks;
      Repr := {ids, ids.slots, bids, bids.slots, asks, asks.slots};
    }

    method FindLevel(side: Side, price: int) returns (r: Option<nat>)
      requires Valid()
      ensures r == if price in LevelMap(side).contents then Some(LevelMap(side).contents[price]) else None
    {
      r := LevelMap(side).Find(price);
    }

    method InsertOrder(id: nat, o: nat) returns (ok: bool)
      requires Valid()
      modifies orderMap, orderMap.slots
      ensures Valid()
      ensures ok <==> id !in old(orderMap.contents) && !old(orderMap.Refuses(id))
      ensures orderMap.contents == if ok then old(orderMap.contents)[id := o] else old(orderMap.contents)
      ensures !ok && id !in orderMap.contents ==> orderMap.Refuses(id)
      ensures Spends(old(Wear()).orders, Wear().orders) && Wear() == old(Wear()).(orders := Wear().orders)
    {
      hide HashMap.Wear, HashMap.Refuses, HashMap.Home, HashMap.Valid, TakesHome, Spends;
      ok := orderMap.Insert(id, o);
    }

    method EraseOrder(id: nat) returns (ok: bool)
      requires Valid()
      modifies orderMap, orderMap.slots
      ensures Valid() && ok == (id in old(orderMap.contents))
      ensures orderMap.contents == old(orderMap.contents) - {id}
      ensures bidMap.contents == old(bidMap.contents) && askMap.contents == old(askMap.contents)
      ensures Wear() == old(Wear())
    {
      hide HashMap.Wear, HashMap.Refuses, Kept;
      ok := orderMap.Erase(id);
    }

    method InsertLevel(side: Side, price: int, j: nat) returns (ok: bool)
      requires Valid()
      modifies Repr
      ensures Valid()
      ensures ok <==> price !in old(LevelMap(side).contents) && !old(LevelMap(side).Refuses(price))
      ensures LevelMap(side).contents ==
              if ok then old(LevelMap(side).contents)[price := j] else old(LevelMap(side).contents)
      ensures !ok && price !in LevelMap(side).contents ==> LevelMap(side).Refuses(price)
      ensures orderMap.contents == old(orderMap.contents)
      ensures LevelMap(Opposite(side)).contents == old(LevelMap(Opposite(side)).contents)
      ensures Adds(old(Wear()), Wear(), side) && Wear().orders == old(Wear()).orders
      ensures if ok then TakesHome(old(Wear()).Levels(side), Wear().Levels(side), LevelMap(side).Home(price)) else Wear() == old(Wear())
    {
      hide HashMap.Wear, HashMap.Refuses, HashMap.Home, HashMap.Valid, TakesHome;
      if side.Bid? {
        ok := bidMap.Insert(price, j);
      } else {
        ok := askMap.Insert(price, j);
      }
    }

    method EraseLevel(side: Side, price: int) returns (ok: bool)
      requires Valid()
      modifies Repr
      ensures Valid() && ok == (price in old(LevelMap(side).contents))
      ensures LevelMap(side).contents == old(LevelMap(side).contents) - {price}
      ensures orderMap.contents == old(orderMap.contents)
      ensures LevelMap(Opposite(side)).contents == old(LevelMap(Opposite(side)).contents)
      ensures Wear() == old(Wear())
    {
      hide HashMap.Wear, HashMap.Refuses, HashMap.Valid, Kept;
      if side.Bid? {
        ok := bidMap.Erase(price);
      } else {
        ok := askMap.Erase(price);
      }
    }

    method Clear()
      requires Valid()
      modifies Repr
      ensures Valid() && orderMap.contents == map[] && bidMap.contents == map[] && askMap.contents == map[]
    {
      hide HashMap.Valid;
      bidMap.Clear();
      askMap.Clear();
      orderMap.Clear();
    }
  }
}
