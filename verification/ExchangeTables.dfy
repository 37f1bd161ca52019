/** The exchange core's tables: seen client ids, the two id maps, and the event buffer. */
module ExchangeTables {
  import opened Machine
  import opened Books
  import opened HashTable
  import opened Exchange

  /** How worn the tables are. */
  datatype TableWear = TableWear(seen: Wear, fwd: Wear, rev: Wear)

  /** The id maps slot by slot, and the keys in them. */
  datatype IdImage = IdImage(fwd: seq<Slot<nat, IdEntry>>, rev: seq<Slot<nat, Owner>>, fwdKeys: set<nat>, revKeys: set<nat>,
                             fwdWear: Wear, revWear: Wear)

  /** Nothing but erasures led from one image to the other. */
  ghost predicate Erased(a: IdImage, b: IdImage) {
    && b.fwdKeys <= a.fwdKeys && b.fwd == Kept(a.fwd, b.fwdKeys)
    && b.revKeys <= a.revKeys && b.rev == Kept(a.rev, b.revKeys)
    && b.fwdWear == a.fwdWear && b.revWear == a.revWear
  }

  lemma {:induction false} ErasedMore(a: IdImage, b: IdImage, c: IdImage)
    requires Erased(a, b) && Erased(b, c)
    ensures Erased(a, c)
  {
    hide Kept;
    KeptKept(a.fwd, b.fwdKeys, c.fwdKeys);
    KeptKept(a.rev, b.revKeys, c.revKeys);
  }

  /** How entering an order wears a map: not at all when it is refused. */
  ghost predicate Enters(before: Wear, after: Wear, ok: bool, home: nat) {
    if ok then Spends(before, after) && TakesHome(before, after, home) else after == before
  }

  class Tables {
    const seen: HashMap<nat, bool>
    const fwd: HashMap<nat, IdEntry>
    const rev: HashMap<nat, Owner>
    ghost const Repr: set<object>

    ghost predicate Owns() {
      && Repr == {this, seen, seen.slots, fwd, fwd.slots, rev, rev.slots}
      && seen as object != fwd && seen as object != rev && fwd as object != rev
      && seen.slots as object != fwd.slots && seen.slots as object != rev.slots && fwd.slots as object != rev.slots
    }

    ghost predicate Valid()
      reads Repr
    {
      Owns() && seen.Valid() && fwd.Valid() && rev.Valid()
    }

    ghost function Seen(): set<nat>
      requires Owns()
      reads Repr
    {
      seen.contents.Keys
    }

    ghost function Ids(): IdMaps
      requires Owns()
      reads Repr
    {
      IdMaps(fwd.contents, rev.contents)
    }

    ghost function Wear(): TableWear
      requires Owns()
      reads Repr
    {
      TableWear(seen.Wear(), fwd.Wear(), rev.Wear())
    }

    ghost function Image(): IdImage
      reads fwd, fwd.slots, rev, rev.slots
    {
      IdImage(fwd.slots[..], rev.slots[..], fwd.contents.Keys, rev.contents.Keys, fwd.Wear(), rev.Wear())
    }

    lemma {:induction false} ImageWear()
      requires Owns()
      ensures Image().fwdWear == Wear().fwd && Image().revWear == Wear().rev
    {
    }

    lemma {:induction false} NothingErased()
      requires Valid()
      ensures Erased(Image(), Image())
    {
      hide HashMap.Valid, HashMap.Refuses, HashMap.RefusesBeside, Kept;
      fwd.KeepAll(0);
      rev.KeepAll(0);
    }

    /** What the id maps refuse now is what they would have refused with only the keys that are
        left. */
    twostate predicate Thinned()
      requires old(Valid()) && Valid()
      reads Repr
    {
      var m := Ids();
      && (forall k :: fwd.Refuses(k) == old(fwd.RefusesBeside(m.fwd.Keys, k)))
      && (forall x :: rev.Refuses(x) == old(rev.RefusesBeside(m.rev.Keys, x)))
    }

    twostate lemma ErasedThins()
      requires old(Valid()) && Valid() && Erased(old(Image()), Image())
      ensures Thinned()
    {
      hide HashMap.Valid, ReusesTombstone, Kept, BucketFor;
    }

    lemma {:induction false} WearTells()
      requires Owns()
      ensures Wear().seen.load == seen.Load() && Wear().fwd.load == fwd.Load() && Wear().rev.load == rev.Load()
    {
    }

    /** Neither id map has reached its load cap. */
    ghost predicate Roomy()
      requires Owns()
      reads Repr
    {
      fwd.capacity != 0 && rev.capacity != 0 && fwd.Load() < fwd.maxLoad && rev.Load() < rev.maxLoad
    }

    constructor (seenCap: nat, idCap: nat, hash: nat -> nat)
      requires ValidCapacity(seenCap) && ValidCapacity(idCap)
      ensures Valid() && fresh(Repr) && Seen() == {} && Ids() == IdMaps(map[], map[])
      ensures seen.Fresh(seenCap, hash) && fwd.Fresh(idCap, hash) && rev.Fresh(idCap, hash)
    {
      hide HashMap.Valid, HashMap.Fresh;
      var s := new HashMap<nat, bool>(seenCap, hash);
      var f := new HashMap<nat, IdEntry>(idCap, hash);
      var r := new HashMap<nat, Owner>(idCap, hash);
      seen, fwd, rev := s, f, r;
      Repr := {this, s, s.slots, f, f.slots, r, r.slots};
    }

    method IsSeen(k: nat) returns (r: bool)
      requires Valid()
      ensures Valid() && r == (k in Seen())
    {
      var found := seen.Find(k);
      r := found.Some?;
    }

    method FindEntry(k: nat) returns (r: Option<IdEntry>)
      requires Valid()
      ensures Valid() && r == if k in Ids().fwd then Some(Ids().fwd[k]) else None
    {
      r := fwd.Find(k);
    }

    method FindOwner(x: nat) returns (r: Option<Owner>)
      requires Valid()
      ensures Valid() && r == if x in Ids().rev then Some(Ids().rev[x]) else None
    {
      r := rev.Find(x);
    }

    method MarkSeen(k: nat) returns (ok: bool)
      requires Valid()
      modifies seen, seen.slots
      ensures Valid() && ok == (k !in old(Seen()) && !old(seen.Refuses(k)))
      ensures Seen() == if ok then old(Seen()) + {k} else old(Seen())
      ensures Ids() == old(Ids()) && Roomy() == old(Roomy())
      ensures Spends(old(Wear()).seen, Wear().seen) && Wear() == old(Wear()).(seen := Wear().seen)
    {
      hide HashMap.Valid, HashMap.Refuses, HashMap.Wear, HashMap.Home, TakesHome, Spends;
      ok := seen.Insert(k, true);
    }

    /** Enters a resting order in both maps, as far as they take it: they refuse only when they
        know the key already or are full. */
    method Enter(xid: nat, side: Side, w: Owner) returns (fwdOk: bool, revOk: bool)
      requires Valid()
      modifies Repr
      ensures Valid() && Seen() == old(Seen())
      ensures forall o: Oracle :: o.fwd == fwdOk && o.rev == revOk ==> Ids() == Exchange.Enter(old(Ids()), xid, side, w, o)
      ensures fwdOk == (KeyOf(w) !in old(Ids()).fwd && !old(fwd.Refuses(KeyOf(w))))
      ensures revOk == (xid !in old(Ids()).rev && !old(rev.Refuses(xid)))
      ensures old(Roomy()) ==> !old(fwd.Refuses(KeyOf(w))) && !old(rev.Refuses(xid))
      ensures Wear().seen == old(Wear()).seen && Enters(old(Wear()).fwd, Wear().fwd, fwdOk, fwd.Home(KeyOf(w)))
      ensures Enters(old(Wear()).rev, Wear().rev, revOk, rev.Home(xid))
    {
      hide HashMap.Valid, HashMap.Wear, HashMap.Home, TakesHome, Spends;
      fwdOk := fwd.Insert(KeyOf(w), IdEntry(xid, side, w.symbol));
      revOk := rev.Insert(xid, w);
    }

    method Forget(k: nat, xid: nat)
      requires Valid()
      modifies Repr
      ensures Valid() && Seen() == old(Seen()) && Roomy() == old(Roomy())
      ensures Ids() == IdMaps(old(Ids()).fwd - {k}, old(Ids()).rev - {xid})
      ensures k in old(Ids()).fwd ==> !fwd.Refuses(k)
      ensures Erased(old(Image()), Image()) && Wear() == old(Wear())
    {
      hide HashMap.Valid, HashMap.Refuses, HashMap.Wear, Kept;
      WearTells();
      var _ := rev.Erase(xid);
      var _ := fwd.Erase(k);
      WearTells();
    }

    method Unsee(k: nat)
      requires Valid()
      modifies Repr
      ensures Valid() && Seen() == old(Seen()) - {k} && Ids() == old(Ids())
      ensures Wear() == old(Wear()) && Image() == old(Image())
    {
      hide HashMap.Valid, HashMap.Refuses, HashMap.Wear, Kept;
      var _ := seen.Erase(k);
    }
  }

  /** Events of the request under way; emitting into a full buffer would abort. */
  class EventBuffer {
    const slots: array<Event>
    var count: nat

    ghost predicate Valid()
      reads this
    {
      count <= slots.Length
    }

    ghost function Events(): seq<Event>
      requires Valid()
      reads this, slots
    {
      slots[..count]
    }

    constructor (cap: nat)
      ensures Valid() && fresh(slots) && slots.Length == cap && Events() == []
    {
      slots := new Event[cap](_ => Bbo(0, Bid, 0, 0));
      count := 0;
    }

    method Emit(e: Event)
      requires Valid() && count < slots.Length
      modifies this, slots
      ensures Valid() && Events() == old(Events()) + [e]
    {
      slots[count] := e;
      count := count + 1;
    }

    method Drain() returns (es: seq<Event>)
      requires Valid()
      modifies this
      ensures Valid() && es == old(Events()) && Events() == []
    {
      es := slots[..count];
      count := 0;
    }
  }
}
