/** Open-addressing hash map: linear probing, tombstone deletion and a 70% load
    cap counting live slots and tombstones together. */
module HashTable {
  import opened Machine

  datatype Slot<+K, +V> = Empty | Tombstone | Full(key: K, value: V)

  datatype UpsertResult = Inserted | Updated | CapacityFull

  /** Slot reached after i probe steps from start. */
  function At(start: nat, i: nat, cap: nat): (p: nat)
    requires start < cap && i < cap
    ensures p < cap
  {
    if start + i < cap then start + i else start + i - cap
  }

  /** Masked increment of a slot index. */
  method NextSlot(idx: nat, cap: nat) returns (next: nat)
    requires ValidCapacity(cap) && idx < cap
    ensures next == if idx + 1 == cap then 0 else idx + 1
  {
    MaskStep(idx, cap);
    next := Mask(idx + 1, cap);
  }

  /** Number of probe steps from start to slot p. */
  function Off(start: nat, p: nat, cap: nat): (i: nat)
    requires start < cap && p < cap
    ensures i < cap && At(start, i, cap) == p
  {
    if p >= start then p - start else p + cap - start
  }

  function Live<K, V>(s: seq<Slot<K, V>>): nat {
    if s == [] then 0 else Live(s[..|s| - 1]) + (if s[|s| - 1].Full? then 1 else 0)
  }

  function Dead<K, V>(s: seq<Slot<K, V>>): nat {
    if s == [] then 0 else Dead(s[..|s| - 1]) + (if s[|s| - 1].Tombstone? then 1 else 0)
  }

  lemma {:induction false} CountsUpdate<K, V>(s: seq<Slot<K, V>>, p: nat, x: Slot<K, V>)
    requires p < |s|
    ensures Live(s[p := x]) == Live(s) - (if s[p].Full? then 1 else 0) + (if x.Full? then 1 else 0)
    ensures Dead(s[p := x]) == Dead(s) - (if s[p].Tombstone? then 1 else 0) + (if x.Tombstone? then 1 else 0)
  {
    var t := s[p := x];
    if p == |s| - 1 {
      assert t[..|s| - 1] == s[..|s| - 1];
    } else {
      CountsUpdate(s[..|s| - 1], p, x);
      assert t[..|s| - 1] == s[..|s| - 1][p := x];
    }
  }

  /** The empty slots. */
  ghost function Vacancies<K, V>(s: seq<Slot<K, V>>): set<nat> {
    set p: nat | p < |s| && s[p].Empty?
  }

  /** What wears out: the empty slots, and the number of the others. */
  datatype Wear = Used(vacant: set<nat>, load: nat)

  /** At most one more slot is in use, and none has become empty. */
  ghost predicate Spends(before: Wear, after: Wear) {
    after.vacant <= before.vacant && after.load <= before.load + 1
  }

  /** A new key takes the slot its path begins with when that was empty. */
  ghost predicate TakesHome(before: Wear, after: Wear, home: nat) {
    home in before.vacant ==> after == Used(before.vacant - {home}, before.load + 1)
  }

  /** What is left of a table that keeps only the given keys. */
  ghost function Kept<K, V>(s: seq<Slot<K, V>>, keys: set<K>): (t: seq<Slot<K, V>>)
    ensures |t| == |s|
  {
    seq(|s|, p requires 0 <= p < |s| => if s[p].Full? && s[p].key !in keys then Tombstone else s[p])
  }

  lemma {:induction false} KeptKept<K, V>(s: seq<Slot<K, V>>, some: set<K>, fewer: set<K>)
    requires fewer <= some
    ensures Kept(Kept(s, some), fewer) == Kept(s, fewer)
  {
  }

  /** Fewer live and dead slots than capacity leaves an empty slot. */
  lemma {:induction false} EmptySlotExists<K, V>(s: seq<Slot<K, V>>) returns (p: nat)
    requires Live(s) + Dead(s) < |s|
    ensures p < |s| && s[p].Empty?
  {
    if s[|s| - 1].Empty? {
      p := |s| - 1;
    } else {
      p := EmptySlotExists(s[..|s| - 1]);
    }
  }

  lemma {:induction false} NoneDead<K, V>(s: seq<Slot<K, V>>)
    requires Dead(s) == 0
    ensures forall p :: 0 <= p < |s| ==> !s[p].Tombstone?
  {
    if s != [] {
      NoneDead(s[..|s| - 1]);
      forall p | 0 <= p < |s|
        ensures !s[p].Tombstone?
      {
        assert p < |s| - 1 ==> s[p] == s[..|s| - 1][p];
      }
    }
  }

  lemma {:induction false} AllEmptyCounts<K, V>(s: seq<Slot<K, V>>)
    requires forall p :: 0 <= p < |s| ==> s[p].Empty?
    ensures Live(s) == 0 && Dead(s) == 0
  {
    if s != [] {
      AllEmptyCounts(s[..|s| - 1]);
    }
  }

  /** The first i slots on the path from start are not empty. */
  predicate Occupied<K, V>(s: seq<Slot<K, V>>, start: nat, i: nat)
    requires start < |s| && i <= |s|
  {
    forall j :: 0 <= j < i ==> !s[At(start, j, |s|)].Empty?
  }

  /** None of the first i slots on the path from start holds k. */
  ghost predicate Misses<K, V>(s: seq<Slot<K, V>>, start: nat, i: nat, k: K)
    requires start < |s| && i <= |s|
  {
    forall j :: 0 <= j < i ==> s[At(start, j, |s|)].Full? ==> s[At(start, j, |s|)].key != k
  }

  /** The first i slots on the path from start are all live. */
  predicate AllFull<K, V>(s: seq<Slot<K, V>>, start: nat, i: nat)
    requires start < |s| && i <= |s|
  {
    forall j :: 0 <= j < i ==> s[At(start, j, |s|)].Full?
  }

  /** A tombstone lies before the first empty slot on the path from start. */
  ghost predicate ReusesTombstone<K, V>(s: seq<Slot<K, V>>, start: nat)
    requires start < |s|
  {
    exists i :: 0 <= i < |s| && s[At(start, i, |s|)].Tombstone? && Occupied(s, start, i)
  }

  /** Probe loop of a lookup. Some slot e is empty, so the full-scan abort is unreachable. */
  method ScanForKey<K(==), V>(slots: array<Slot<K, V>>, start: nat, k: K, ghost e: nat)
    returns (idx: nat, ghost i: nat)
    requires ValidCapacity(slots.Length) && start < slots.Length
    requires e < slots.Length && slots[e].Empty?
    ensures i < slots.Length && idx == At(start, i, slots.Length)
    ensures Occupied(slots[..], start, i) && Misses(slots[..], start, i, k)
    ensures slots[idx].Empty? || (slots[idx].Full? && slots[idx].key == k)
  {
    var cap := slots.Length;
    idx := start;
    for n := 0 to cap
      invariant n < cap ==> idx == At(start, n, cap)
      invariant Occupied(slots[..], start, n) && Misses(slots[..], start, n, k)
      invariant n <= Off(start, e, cap)
    {
      i := n;
      if slots[idx].Empty? {
        return;
      }
      if slots[idx].Full? && slots[idx].key == k {
        return;
      }
      idx := NextSlot(idx, cap);
    }
    assert false;
  }

  /** Probe loop of an insertion: ends at k's own slot, or at the first empty slot, from
      which it falls back to the first tombstone passed. */
  method ScanForInsert<K(==), V>(slots: array<Slot<K, V>>, start: nat, k: K, ghost e: nat)
    returns (idx: nat, foundExisting: bool, ghost i: nat, ghost last: nat)
    requires ValidCapacity(slots.Length) && start < slots.Length
    requires e < slots.Length && slots[e].Empty?
    ensures i <= last < slots.Length && idx == At(start, i, slots.Length)
    ensures Occupied(slots[..], start, i) && Misses(slots[..], start, last, k)
    ensures foundExisting ==> slots[idx].Full? && slots[idx].key == k
    ensures !foundExisting ==>
              && slots[At(start, last, slots.Length)].Empty? && !slots[idx].Full?
              && (slots[idx].Tombstone? <==> ReusesTombstone(slots[..], start))
  {
    var cap := slots.Length;
    idx := start;
    var firstTombstone := cap;
    i := 0;
    for n := 0 to cap
      invariant n < cap ==> idx == At(start, n, cap)
      invariant Occupied(slots[..], start, n) && Misses(slots[..], start, n, k)
      invariant n <= Off(start, e, cap)
      invariant firstTombstone == cap ==> AllFull(slots[..], start, n)
      invariant firstTombstone != cap ==>
                  i < n && firstTombstone == At(start, i, cap) && slots[firstTombstone].Tombstone?
    {
      last := n;
      if slots[idx].Empty? {
        if firstTombstone != cap {
          idx := firstTombstone;
        } else {
          i := n;
          NothingToReuse(slots[..], start, n);
        }
        foundExisting := false;
        return;
      }
      if slots[idx].Tombstone? {
        if firstTombstone == cap {
          firstTombstone, i := idx, n;
        }
      } else if slots[idx].key == k {
        i := n;
        foundExisting := true;
        return;
      }
      idx := NextSlot(idx, cap);
    }
    assert false;
  }

  /** Bucket of a key: its hash masked to a power-of-two capacity. */
  function BucketFor<K>(hash: K -> nat, k: K, cap: nat): (b: nat)
    requires IsPow2(cap)
    ensures b < cap
  {
    Mask(hash(k), cap)
  }

  /** pos is the exact index of the live slots. */
  ghost predicate Indexed<K(!new), V>(s: seq<Slot<K, V>>, pos: map<K, nat>) {
    && (forall k :: k in pos ==> pos[k] < |s| && s[pos[k]].Full? && s[pos[k]].key == k)
    && (forall p :: 0 <= p < |s| && s[p].Full? ==> s[p].key in pos && pos[s[p].key] == p)
  }

  /** pos is the exact index of the live slots, and every live slot is reachable
      from its key's bucket without crossing an empty slot. */
  ghost predicate Sound<K(!new), V>(s: seq<Slot<K, V>>, hash: K -> nat, pos: map<K, nat>)
    requires IsPow2(|s|)
  {
    && Indexed(s, pos)
    && (forall k :: k in pos ==> Occupied(s, BucketFor(hash, k, |s|), Off(BucketFor(hash, k, |s|), pos[k], |s|)))
  }

  ghost function Lookup<K, V>(s: seq<Slot<K, V>>, pos: map<K, nat>): map<K, V>
    requires forall k :: k in pos ==> pos[k] < |s| && s[pos[k]].Full?
  {
    map k | k in pos :: s[pos[k]].value
  }

  /** A key is absent when its probe path ends in an empty slot before meeting it. */
  lemma {:induction false} AbsentAtEmpty<K(!new), V>(s: seq<Slot<K, V>>, hash: K -> nat, pos: map<K, nat>, k: K, i: nat)
    requires IsPow2(|s|) && Sound(s, hash, pos) && i < |s|
    requires s[At(BucketFor(hash, k, |s|), i, |s|)].Empty?
    requires Misses(s, BucketFor(hash, k, |s|), i, k)
    ensures k !in pos
  {
  }

  /** Live slots up to the first empty one: there is no tombstone to reuse. */
  lemma {:induction false} NothingToReuse<K, V>(s: seq<Slot<K, V>>, start: nat, i: nat)
    requires start < |s| && i < |s|
    requires s[At(start, i, |s|)].Empty?
    requires AllFull(s, start, i)
    ensures !ReusesTombstone(s, start)
  {
  }

  /** Turning a free slot live keeps every path that ended before it. */
  lemma {:induction false} OccupiedAfterFill<K, V>(s: seq<Slot<K, V>>, p: nat, x: Slot<K, V>, start: nat, i: nat)
    requires p < |s| && start < |s| && i <= |s| && !x.Empty?
    requires Occupied(s, start, i)
    ensures Occupied(s[p := x], start, i)
  {
  }

  lemma {:induction false} IndexedAfterPut<K(!new), V>(s: seq<Slot<K, V>>, pos: map<K, nat>, k: K, v: V, p: nat)
    requires Indexed(s, pos) && k !in pos && p < |s| && !s[p].Full?
    ensures Indexed(s[p := Full(k, v)], pos[k := p])
    ensures Lookup(s[p := Full(k, v)], pos[k := p]) == Lookup(s, pos)[k := v]
  {
    var t, pos' := s[p := Full(k, v)], pos[k := p];
    forall q | 0 <= q < |t| && t[q].Full?
      ensures t[q].key in pos' && pos'[t[q].key] == q
    {
      if q != p {
        assert s[q].Full? && s[q].key in pos;
      }
    }
  }

  /** Filling the free slot i steps along the path of an absent key keeps the index sound. */
  lemma {:induction false} SoundAfterPut<K(!new), V>(s: seq<Slot<K, V>>, hash: K -> nat, pos: map<K, nat>, k: K, v: V, i: nat)
    requires IsPow2(|s|) && Sound(s, hash, pos) && k !in pos && i < |s|
    requires !s[At(BucketFor(hash, k, |s|), i, |s|)].Full?
    requires Occupied(s, BucketFor(hash, k, |s|), i)
    ensures var p := At(BucketFor(hash, k, |s|), i, |s|);
            && Sound(s[p := Full(k, v)], hash, pos[k := p])
            && Lookup(s[p := Full(k, v)], pos[k := p]) == Lookup(s, pos)[k := v]
  {
    var b := BucketFor(hash, k, |s|);
    var p := At(b, i, |s|);
    var t, pos' := s[p := Full(k, v)], pos[k := p];
    IndexedAfterPut(s, pos, k, v, p);
    forall x | x in pos'
      ensures Occupied(t, BucketFor(hash, x, |t|), Off(BucketFor(hash, x, |t|), pos'[x], |t|))
    {
      var bx := BucketFor(hash, x, |s|);
      OccupiedAfterFill(s, p, Full(k, v), bx, if x == k then i else Off(bx, pos[x], |s|));
    }
  }

  lemma {:induction false} SoundAfterErase<K(!new), V>(s: seq<Slot<K, V>>, hash: K -> nat, pos: map<K, nat>, k: K)
    requires IsPow2(|s|) && Sound(s, hash, pos) && k in pos
    ensures Sound(s[pos[k] := Tombstone], hash, pos - {k})
    ensures Lookup(s[pos[k] := Tombstone], pos - {k}) == Lookup(s, pos) - {k}
  {
    var t, pos' := s[pos[k] := Tombstone], pos - {k};
    forall x | x in pos'
      ensures Occupied(t, BucketFor(hash, x, |t|), Off(BucketFor(hash, x, |t|), pos'[x], |t|))
    {
      var bx := BucketFor(hash, x, |s|);
      assert Occupied(s, bx, Off(bx, pos[x], |s|));
    }
  }

  /** Erasing a key is keeping the others. */
  lemma {:induction false} EraseKeeps<K(!new), V>(s: seq<Slot<K, V>>, pos: map<K, nat>, k: K)
    requires Indexed(s, pos) && k in pos
    ensures s[pos[k] := Tombstone] == Kept(s, pos.Keys - {k}) && Vacancies(s[pos[k] := Tombstone]) == Vacancies(s)
  {
  }

  /** The tombstone left by k lies on k's own path, so k can always come back. */
  lemma {:induction false} TombstoneOnOwnPath<K(!new), V>(s: seq<Slot<K, V>>, hash: K -> nat, pos: map<K, nat>, k: K)
    requires IsPow2(|s|) && Sound(s, hash, pos) && k in pos
    ensures ReusesTombstone(s[pos[k] := Tombstone], BucketFor(hash, k, |s|))
  {
    var b, t := BucketFor(hash, k, |s|), s[pos[k] := Tombstone];
    var o := Off(b, pos[k], |s|);
    OccupiedAfterFill(s, pos[k], Tombstone, b, o);
    assert t[At(b, o, |t|)].Tombstone?;
  }

  lemma {:induction false} SoundAfterUpdate<K(!new), V>(s: seq<Slot<K, V>>, hash: K -> nat, pos: map<K, nat>, k: K, v: V)
    requires IsPow2(|s|) && Sound(s, hash, pos) && k in pos
    ensures Sound(s[pos[k] := Full(k, v)], hash, pos)
    ensures Lookup(s[pos[k] := Full(k, v)], pos) == Lookup(s, pos)[k := v]
  {
    var t := s[pos[k] := Full(k, v)];
    forall x | x in pos
      ensures Occupied(t, BucketFor(hash, x, |t|), Off(BucketFor(hash, x, |t|), pos[x], |t|))
    {
      var bx := BucketFor(hash, x, |s|);
      assert Occupied(s, bx, Off(bx, pos[x], |s|));
    }
  }

  /** The live entries in slot order. */
  function Scan<K, V>(s: seq<Slot<K, V>>): seq<(K, V)> {
    if s == [] then []
    else Scan(s[..|s| - 1]) + (if s[|s| - 1].Full? then [(s[|s| - 1].key, s[|s| - 1].value)] else [])
  }

  ghost predicate DistinctKeys<K, V>(es: seq<(K, V)>) {
    forall i, j :: 0 <= i < j < |es| ==> es[i].0 != es[j].0
  }

  /** A scan lists as many entries as there are live slots, each at its own slot. */
  lemma {:induction false} ScanPrefix<K(!new), V>(s: seq<Slot<K, V>>, pos: map<K, nat>, n: nat)
    requires Indexed(s, pos) && n <= |s|
    ensures |Scan(s[..n])| == Live(s[..n])
    ensures forall e :: e in Scan(s[..n]) ==> e.0 in pos && pos[e.0] < n && s[pos[e.0]].value == e.1
    ensures forall k :: k in pos && pos[k] < n ==> (k, s[pos[k]].value) in Scan(s[..n])
    ensures DistinctKeys(Scan(s[..n]))
  {
    if n > 0 {
      ScanPrefix(s, pos, n - 1);
      assert s[..n][..n - 1] == s[..n - 1];
    }
  }

  lemma {:induction false} DistinctCardinality<K, V>(es: seq<(K, V)>, keys: set<K>)
    requires DistinctKeys(es)
    requires forall k :: k in keys <==> exists i :: 0 <= i < |es| && es[i].0 == k
    ensures |keys| == |es|
  {
    if es == [] {
      assert keys == {};
    } else {
      var n := |es| - 1;
      assert es[n].0 in keys;
      DistinctCardinality(es[..n], keys - {es[n].0});
    }
  }

  predicate ValidCapacity(c: nat) {
    4 <= c < U32 && IsPow2(c)
  }

  /** The map itself. A capacity of zero is the unbound map that refuses everything. */
  class HashMap<K(==, !new), V> {
    const capacity: nat
    const maxLoad: nat
    const tombstoneThreshold: nat
    const hash: K -> nat
    const slots: array<Slot<K, V>>
    var size: nat
    var tombstones: nat
    /** Where each live key sits. */
    ghost var pos: map<K, nat>
    /** The finite map the table stands for. */
    ghost var contents: map<K, V>

    ghost predicate Valid()
      reads this, slots
    {
      && slots.Length == capacity
      && (capacity == 0 || ValidCapacity(capacity))
      && maxLoad == capacity * 7 / 10
      && tombstoneThreshold == capacity * 2 / 10
      && size == Live(slots[..]) && tombstones == Dead(slots[..])
      && size + tombstones <= maxLoad
      && (capacity == 0 ==> contents == map[])
      && (capacity != 0 ==> Sound(slots[..], hash, pos) && contents == Lookup(slots[..], pos))
    }

    /** Slots that are not empty. */
    ghost function Load(): nat
      reads this
    {
      size + tombstones
    }

    /** An absent key is refused: the load cap is reached and no tombstone can be reused. */
    ghost predicate Refuses(k: K)
      requires Valid()
      reads this, slots
    {
      capacity == 0 ||
      (size + tombstones >= maxLoad && !ReusesTombstone(slots[..], BucketFor(hash, k, capacity)))
    }

    /** What Refuses(k) becomes once only the given keys are left: the slots of the others can be
        reused. */
    ghost predicate RefusesBeside(kept: set<K>, k: K)
      requires Valid()
      reads this, slots
    {
      capacity == 0 ||
      (size + tombstones >= maxLoad && !ReusesTombstone(Kept(slots[..], kept), BucketFor(hash, k, capacity)))
    }

    /** Where the probe path of a key begins. */
    ghost function Home(k: K): nat {
      if IsPow2(capacity) then BucketFor(hash, k, capacity) else 0
    }

    /** The empty slots. */
    ghost function Vacant(): set<nat>
      reads this, slots
    {
      Vacancies(slots[..])
    }

    ghost function Wear(): Wear
      reads this, slots
    {
      Used(Vacant(), Load())
    }

    /** Keys that share a bucket are refused together. */
    lemma {:induction false} SameBucket(k: K, x: K)
      requires Valid() && Home(k) == Home(x)
      ensures Refuses(k) == Refuses(x)
    {
    }

    /** With every key kept, nothing changes. */
    lemma {:induction false} KeepAll(k: K)
      requires Valid()
      ensures Kept(slots[..], contents.Keys) == slots[..] && RefusesBeside(contents.Keys, k) == Refuses(k)
    {
      assert Kept(slots[..], contents.Keys) == slots[..];
    }

    /** A key that is not kept can come back. */
    lemma {:induction false} ComesBack(kept: set<K>, k: K)
      requires Valid() && k in contents && k !in kept
      ensures !RefusesBeside(kept, k)
    {
      var s, b := slots[..], BucketFor(hash, k, capacity);
      var o := Off(b, pos[k], capacity);
      assert Occupied(Kept(s, kept), b, o);
      assert Kept(s, kept)[At(b, o, capacity)].Tombstone?;
    }

    /** At the load cap a key whose bucket is empty has nothing to reuse. */
    lemma {:induction false} EmptyBucketRefused(k: K)
      requires Valid() && capacity != 0 && Load() >= maxLoad && Home(k) in Vacant()
      ensures Refuses(k)
    {
      var b := BucketFor(hash, k, capacity);
      assert At(b, 0, capacity) == b;
      NothingToReuse(slots[..], b, 0);
    }

    /** Below the load cap no key is refused. */
    lemma {:induction false} RoomRefusesNothing(k: K)
      requires Valid() && capacity != 0 && Load() < maxLoad
      ensures !Refuses(k)
    {
    }

    /** As many keys as the load cap admits leave no tombstone to reuse: everything else is refused. */
    lemma {:induction false} FullRefuses(k: K)
      requires Valid() && |contents| == maxLoad
      ensures Refuses(k)
    {
      SizeIsCardinality();
      NoneDead(slots[..]);
    }

    /** Nothing has ever been entered. */
    ghost predicate Fresh(cap: nat, h: K -> nat)
      reads this, slots
    {
      && capacity == cap && hash == h && maxLoad == cap * 7 / 10
      && Load() == 0 && forall p: nat :: p < cap ==> p in Vacant()
    }

    constructor (cap: nat, h: K -> nat)
      requires cap == 0 || ValidCapacity(cap)
      ensures Valid() && contents == map[] && fresh(slots) && Fresh(cap, h)
    {
      capacity, hash := cap, h;
      maxLoad, tombstoneThreshold := cap * 7 / 10, cap * 2 / 10;
      size, tombstones := 0, 0;
      pos, contents := map[], map[];
      slots := new Slot<K, V>[cap](_ => Empty);
      new;
      AllEmptyCounts(slots[..]);
    }

    /** The slot holding k, or the first empty slot on its path. */
    method ProbeFind(k: K) returns (idx: nat)
      requires Valid() && capacity != 0
      ensures idx < capacity
      ensures if k in pos then idx == pos[k] else slots[idx].Empty?
    {
      ghost var e := EmptySlotExists(slots[..]);
      ghost var i;
      idx, i := ScanForKey(slots, BucketFor(hash, k, capacity), k, e);
      if slots[idx].Empty? {
        AbsentAtEmpty(slots[..], hash, pos, k, i);
      }
    }

    /** Insertion point for k: its own slot when present, otherwise the first tombstone
        on its path or, failing that, the first empty slot. */
    method ProbeInsert(k: K) returns (idx: nat, foundExisting: bool, ghost steps: nat)
      requires Valid() && capacity != 0
      ensures idx < capacity && foundExisting == (k in pos)
      ensures foundExisting ==> idx == pos[k]
      ensures !foundExisting ==>
                && steps < capacity && idx == At(BucketFor(hash, k, capacity), steps, capacity)
                && Occupied(slots[..], BucketFor(hash, k, capacity), steps)
                && !slots[idx].Full?
                && (slots[idx].Tombstone? <==> ReusesTombstone(slots[..], BucketFor(hash, k, capacity)))
    {
      ghost var e := EmptySlotExists(slots[..]);
      ghost var last;
      idx, foundExisting, steps, last := ScanForInsert(slots, BucketFor(hash, k, capacity), k, e);
      if !foundExisting {
        AbsentAtEmpty(slots[..], hash, pos, k, last);
      }
    }

    method Find(k: K) returns (r: Option<V>)
      requires Valid()
      ensures r == if k in contents then Some(contents[k]) else None
    {
      if capacity == 0 {
        return None;
      }
      var idx := ProbeFind(k);
      if slots[idx].Full? {
        return Some(slots[idx].value);
      }
      return None;
    }

    /** Occupies a free slot on the path of an absent key. */
    method Put(k: K, v: V, idx: nat, ghost steps: nat)
      requires Valid() && capacity != 0 && k !in pos
      requires steps < capacity && idx == At(BucketFor(hash, k, capacity), steps, capacity)
      requires Occupied(slots[..], BucketFor(hash, k, capacity), steps)
      requires !slots[idx].Full?
      requires slots[idx].Tombstone? || size + tombstones < maxLoad
      modifies this, slots
      ensures Valid() && contents == old(contents)[k := v] && pos == old(pos)[k := idx]
      ensures slots[..] == old(slots[..])[idx := Full(k, v)]
      ensures Load() == old(Load()) + if old(slots[idx]).Tombstone? then 0 else 1
      ensures Vacant() == old(Vacant()) - {idx}
    {
      SoundAfterPut(slots[..], hash, pos, k, v, steps);
      CountsUpdate(slots[..], idx, Full(k, v));
      if slots[idx].Tombstone? {
        tombstones := tombstones - 1;
      }
      slots[idx] := Full(k, v);
      size := size + 1;
      pos, contents := pos[k := idx], contents[k := v];
      assert slots[..] == old(slots[..])[idx := Full(k, v)];
    }

    /** Insert-only: a present key or a refused key leaves the map as it was. */
    method Insert(k: K, v: V) returns (ok: bool)
      requires Valid()
      modifies this, slots
      ensures Valid()
      ensures ok <==> k !in old(contents) && !old(Refuses(k))
      ensures contents == if ok then old(contents)[k := v] else old(contents)
      ensures !ok && k !in contents ==> Refuses(k)
      ensures Spends(old(Wear()), Wear())
      ensures !ok ==> slots[..] == old(slots[..]) && Wear() == old(Wear())
      ensures ok ==> TakesHome(old(Wear()), Wear(), Home(k))
    {
      hide Sound, Lookup, ReusesTombstone, Occupied, Vacancies;
      if capacity == 0 {
        return false;
      }
      KeysAre();
      var idx, foundExisting, steps := ProbeInsert(k);
      if foundExisting {
        return false;
      }
      if !slots[idx].Tombstone? && size + tombstones >= maxLoad {
        return false;
      }
      BucketFirst(k, idx, steps);
      Put(k, v, idx, steps);
      return true;
    }

    /** A free slot on the path of a key is its bucket when that is empty. */
    lemma {:induction false} BucketFirst(k: K, idx: nat, steps: nat)
      requires Valid() && capacity != 0 && steps < capacity && idx == At(BucketFor(hash, k, capacity), steps, capacity)
      requires Occupied(slots[..], BucketFor(hash, k, capacity), steps)
      ensures BucketFor(hash, k, capacity) in Vacant() ==> idx == BucketFor(hash, k, capacity) && slots[idx].Empty?
    {
      assert At(BucketFor(hash, k, capacity), 0, capacity) == BucketFor(hash, k, capacity);
    }

    /** Insert or overwrite; overwriting is never refused. */
    method Upsert(k: K, v: V) returns (r: UpsertResult)
      requires Valid()
      modifies this, slots
      ensures Valid()
      ensures r.Updated? <==> k in old(contents)
      ensures r.CapacityFull? <==> k !in old(contents) && old(Refuses(k))
      ensures contents == if r.CapacityFull? then old(contents) else old(contents)[k := v]
    {
      if capacity == 0 {
        return CapacityFull;
      }
      var idx, foundExisting, steps := ProbeInsert(k);
      if foundExisting {
        SoundAfterUpdate(slots[..], hash, pos, k, v);
        CountsUpdate(slots[..], idx, Full(k, v));
        slots[idx] := Full(k, v);
        contents := contents[k := v];
        assert slots[..] == old(slots[..])[idx := Full(k, v)];
        return Updated;
      }
      if !slots[idx].Tombstone? && size + tombstones >= maxLoad {
        return CapacityFull;
      }
      Put(k, v, idx, steps);
      return Inserted;
    }

    method Erase(k: K) returns (ok: bool)
      requires Valid()
      modifies this, slots
      ensures Valid()
      ensures ok <==> k in old(contents)
      ensures contents == old(contents) - {k}
      ensures ok ==> !Refuses(k)
      ensures Wear() == old(Wear()) && slots[..] == Kept(old(slots[..]), contents.Keys)
    {
      hide Sound, ReusesTombstone, Kept, Vacancies;
      if capacity == 0 {
        KeepNone();
        return false;
      }
      KeysAre();
      var idx := ProbeFind(k);
      if !slots[idx].Full? {
        KeepAll(k);
        return false;
      }
      Bury(k, idx);
      return true;
    }

    lemma {:induction false} KeepNone()
      requires Valid() && capacity == 0
      ensures slots[..] == Kept(slots[..], contents.Keys)
    {
    }

    /** Turns the slot of a known key into a tombstone. */
    method Bury(k: K, idx: nat)
      requires Valid() && capacity != 0 && k in pos && pos[k] == idx
      modifies this, slots
      ensures Valid() && contents == old(contents) - {k} && !Refuses(k)
      ensures Wear() == old(Wear()) && slots[..] == Kept(old(slots[..]), contents.Keys)
    {
      hide ReusesTombstone, Kept, Vacancies, Lookup;
      SoundAfterErase(slots[..], hash, pos, k);
      CountsUpdate(slots[..], idx, Tombstone);
      EraseKeeps(slots[..], pos, k);
      TombstoneOnOwnPath(slots[..], hash, pos, k);
      KeysAre();
      slots[idx] := Tombstone;
      size := size - 1;
      tombstones := tombstones + 1;
      pos, contents := pos - {k}, contents - {k};
      assert slots[..] == old(slots[..])[idx := Tombstone];
    }

    lemma {:induction false} KeysAre()
      requires Valid() && capacity != 0
      ensures contents.Keys == pos.Keys && forall k :: k in pos ==> pos[k] < capacity && slots[pos[k]].Full?
    {
    }

    /** Many tombstones: the table would profit from being cleared when it is empty. */
    predicate NeedsRebuild()
      reads this
    {
      tombstones > tombstoneThreshold
    }

    method Clear()
      requires Valid()
      modifies this, slots
      ensures Valid() && contents == map[]
      ensures size == 0 && tombstones == 0
    {
      for i := 0 to capacity
        invariant forall j :: 0 <= j < i ==> slots[j].Empty?
      {
        slots[i] := Empty;
      }
      size, tombstones := 0, 0;
      pos, contents := map[], map[];
      AllEmptyCounts(slots[..]);
    }

    /** What a visit of every live entry sees, in order: each key of the map exactly once. */
    method Entries() returns (es: seq<(K, V)>)
      requires Valid()
      ensures |es| == size && DistinctKeys(es)
      ensures forall k, v :: (k, v) in es <==> k in contents && contents[k] == v
    {
      es := [];
      for p := 0 to capacity
        invariant es == Scan(slots[..p])
      {
        assert slots[..p + 1][..p] == slots[..p];
        if slots[p].Full? {
          es := es + [(slots[p].key, slots[p].value)];
        }
      }
      assert slots[..capacity] == slots[..];
      if capacity != 0 {
        ScanPrefix(slots[..], pos, capacity);
      }
    }

    lemma {:induction false} LoadCoversKeys()
      requires Valid()
      ensures |contents| <= Load()
    {
      SizeIsCardinality();
    }

    /** The counters are exact: size is the number of keys. */
    lemma {:induction false} SizeIsCardinality()
      requires Valid()
      ensures size == |contents|
    {
      if capacity != 0 {
        var s := slots[..];
        ScanPrefix(s, pos, capacity);
        assert s[..capacity] == s;
        forall k | k in pos
          ensures exists i :: 0 <= i < |Scan(s)| && Scan(s)[i].0 == k
        {
          var i :| 0 <= i < |Scan(s)| && Scan(s)[i] == (k, s[pos[k]].value);
        }
        DistinctCardinality(Scan(s), contents.Keys);
      }
    }
  }

  /** Inserting distinct keys into a new table of any capacity, under any hash: the table takes as
      many as its load cap admits and refuses the next, although slots are empty. */
  method FillToCap<K(==, !new), V>(cap: nat, hash: K -> nat, ks: seq<K>, v: V) returns (m: HashMap<K, V>, ok: bool)
    requires ValidCapacity(cap) && |ks| == cap * 7 / 10 + 1
    requires forall i, j :: 0 <= i < j < |ks| ==> ks[i] != ks[j]
    ensures m.Valid() && m.capacity == cap && !ok
    ensures forall k :: k in m.contents <==> k in ks[..|ks| - 1]
  {
    hide HashMap.Refuses, HashMap.Valid;
    m := new HashMap<K, V>(cap, hash);
    var n := |ks| - 1;
    for i := 0 to n
      invariant m.Valid() && m.capacity == cap && m.maxLoad == n && fresh(m) && fresh(m.slots)
      invariant m.Load() <= i && |m.contents| == i
      invariant forall k :: k in m.contents <==> k in ks[..i]
    {
      m.RoomRefusesNothing(ks[i]);
      ok := m.Insert(ks[i], v);
      assert ks[..i + 1] == ks[..i] + [ks[i]];
    }
    m.FullRefuses(ks[n]);
    ok := m.Insert(ks[n], v);
  }
}
