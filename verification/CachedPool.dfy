/** A cached pool and the lookup structures kept beside its members. */
module CachedPools {
  import opened Basics
  import opened Values
  import opened Protocol
  import opened PoolModel
  import opened Replicas
  import opened FilterIndexes
  import opened Identities
  import opened Reservoirs

  // ------------------------------------------------ what the structures stand for

  predicate Wanted(m: Member, ready: bool) { !ready || m.ready }

  /** The ids a listing by readiness goes through, in order. */
  function IdsOf(roll: Roll, ready: bool): seq<nat> { Ascending(WantedIds(roll, ready)) }

  function WantedIds(roll: Roll, ready: bool): set<nat> { set k | k in roll && Wanted(roll[k], ready) }

  /** Direct scan: the ids that are wanted and match. */
  function ScanOf(roll: Roll, filter: Value, ready: bool): seq<nat> { Ascending(MatchingSet(roll, filter, ready)) }

  function MatchingSet(roll: Roll, filter: Value, ready: bool): set<nat> {
    set k | k in roll && Wanted(roll[k], ready) && Matches(roll[k].state, filter)
  }

  /** A listing leaves nobody out: everyone, or everyone who is ready. */
  lemma EveryoneListed(roll: Roll)
    ensures IdSet(IdsOf(roll, false)) == roll.Keys && |IdsOf(roll, false)| == |roll|
    ensures IdSet(IdsOf(roll, true)) == set k | k in roll && roll[k].ready
  {
    assert WantedIds(roll, false) == roll.Keys;
  }

  function MembersOf(roll: Roll, ids: seq<nat>): seq<Member>
    requires forall id | id in ids :: id in roll
  {
    seq(|ids|, i requires 0 <= i < |ids| => roll[ids[i]])
  }

  lemma ListedIdsArePresent(roll: Roll, filter: Value, ready: bool)
    ensures forall id | id in IdsOf(roll, ready) :: id in roll
    ensures forall id | id in ScanOf(roll, filter, ready) :: id in roll
  {
  }

  function ListOf(roll: Roll, ready: bool): seq<Member> {
    ListedIdsArePresent(roll, Null, ready);
    MembersOf(roll, IdsOf(roll, ready))
  }

  /** Who sits in a slot. */
  function Sitting(roll: Roll, slot: nat): set<nat> { set k | k in roll && roll[k].slot == Some(slot) }

  /** The slot index is the inverse of the members' slots, with no empty bucket. */
  ghost predicate Inverse(roll: Roll, slots: map<nat, set<nat>>) {
    forall s :: if s in slots then slots[s] == Sitting(roll, s) && slots[s] != {} else Sitting(roll, s) == {}
  }

  ghost predicate IndexRight(roll: Roll, entries: map<Key, Entry>) {
    forall key, filter | key in entries && Keys(filter, key.requireReady, key) ::
      entries[key].ids == ScanOf(roll, filter, key.requireReady)
  }

  // ------------------------------------------------------------------ frozen views

  datatype Frozen = Frozen(members: seq<Member>, ids: map<nat, nat>, slots: map<nat, seq<nat>>, roster: nat)

  /** A frozen view of a sorted list: its id and slot indices point where they say, and
      its fingerprint is the list's. */
  ghost predicate FreezesIds(members: seq<Member>, ids: map<nat, nat>, n: nat)
    requires n <= |members|
  {
    && (forall i | 0 <= i < n :: members[i].id in ids)
    && (forall k | k in ids :: ids[k] < n && members[ids[k]].id == k)
  }

  ghost predicate FreezesSlots(members: seq<Member>, slots: map<nat, seq<nat>>, n: nat)
    requires n <= |members|
  {
    && (forall i | 0 <= i < n && members[i].slot.Some? :: members[i].slot.value in slots && i in slots[members[i].slot.value])
    && (forall s | s in slots :: slots[s] != [] && StrictlyAscending(slots[s]) &&
                                 forall i | i in slots[s] :: i < n && members[i].slot == Some(s))
  }

  ghost predicate Freezes(members: seq<Member>, f: Frozen) {
    && f.members == members && FreezesIds(members, f.ids, |members|) && FreezesSlots(members, f.slots, |members|)
    && f.roster == FoldRoster(members)
  }

  lemma SlotPushed(members: seq<Member>, slots: map<nat, seq<nat>>, n: nat)
    requires n < |members| && FreezesSlots(members, slots, n)
    ensures members[n].slot.None? ==> FreezesSlots(members, slots, n + 1)
    ensures members[n].slot.Some? ==>
              var s := members[n].slot.value;
              FreezesSlots(members, slots[s := (if s in slots then slots[s] else []) + [n]], n + 1)
  {
    if members[n].slot.Some? {
      var s := members[n].slot.value;
      var before := if s in slots then slots[s] else [];
      var more := before + [n];
      forall i | i in more ensures i < n + 1 && members[i].slot == Some(s) {}
      forall i, j | 0 <= i < j < |more| ensures more[i] < more[j] {
        assert more[i] in before;
      }
    }
  }

  function InsertById(m: Member, list: seq<Member>): seq<Member> {
    if list == [] || m.id < list[0].id then [m] + list else [list[0]] + InsertById(m, list[1..])
  }

  function SortById(members: seq<Member>): seq<Member> {
    if members == [] then [] else InsertById(members[0], SortById(members[1..]))
  }

  lemma {:induction false} InsertKeepsAll(m: Member, list: seq<Member>)
    ensures multiset(InsertById(m, list)) == multiset(list) + multiset{m}
  {
    if list != [] {
      InsertKeepsAll(m, list[1..]);
      assert list == [list[0]] + list[1..];
    }
  }

  lemma Prepended(m: Member, list: seq<Member>)
    requires AscendingIds(list) && forall x | x in list :: m.id < x.id
    ensures AscendingIds([m] + list)
  {
  }

  lemma {:induction false} InsertKeepsOrder(m: Member, list: seq<Member>)
    requires AscendingIds(list) && forall x | x in list :: x.id != m.id
    ensures AscendingIds(InsertById(m, list))
  {
    if list == [] || m.id < list[0].id {
      forall x | x in list ensures m.id < x.id {}
      Prepended(m, list);
    } else {
      var rest := InsertById(m, list[1..]);
      InsertKeepsOrder(m, list[1..]);
      InsertKeepsAll(m, list[1..]);
      forall x | x in rest ensures list[0].id < x.id { assert x in multiset(rest) && (x == m || x in list[1..]); }
      Prepended(list[0], rest);
    }
  }

  lemma {:induction false} SortsById(members: seq<Member>)
    requires DistinctIds(members)
    ensures AscendingIds(SortById(members)) && multiset(SortById(members)) == multiset(members)
  {
    if members != [] {
      var rest := SortById(members[1..]);
      SortsById(members[1..]);
      assert members == [members[0]] + members[1..];
      forall x | x in rest ensures x.id != members[0].id { assert x in multiset(rest) && x in members[1..]; }
      InsertKeepsOrder(members[0], rest);
      InsertKeepsAll(members[0], rest);
    }
  }

  lemma {:induction false} AlreadySorted(members: seq<Member>)
    requires AscendingIds(members)
    ensures SortById(members) == members
  {
    if members != [] {
      AlreadySorted(members[1..]);
      assert members == [members[0]] + members[1..];
    }
  }

  /** Freeze a list of members, in id order. */
  method Freeze(members: seq<Member>) returns (f: Frozen)
    requires DistinctIds(members)
    ensures Freezes(SortById(members), f) && AscendingIds(f.members) && multiset(f.members) == multiset(members)
    ensures AscendingIds(members) ==> Freezes(members, f)
  {
    hide FreezesSlots, FreezesIds, AscendingIds, SortById;
    SortsById(members);
    f := FreezeSorted(SortById(members));
    if AscendingIds(members) { AlreadySorted(members); }
  }

  method FreezeSorted(members: seq<Member>) returns (f: Frozen)
    requires AscendingIds(members)
    ensures Freezes(members, f)
  {
    hide FreezesSlots, AscendingIds;
    var ids: map<nat, nat>, slots: map<nat, seq<nat>>, roster := map[], map[], 0;
    var i := 0;
    NothingFrozen(members);
    while i < |members|
      invariant 0 <= i <= |members|
      invariant FreezesIds(members, ids, i) && FreezesSlots(members, slots, i)
      invariant roster == FoldRoster(members[..i])
    {
      var m := members[i];
      IdPushed(members, ids, i);
      ids := ids[m.id := i];
      SlotPushed(members, slots, i);
      if m.slot.Some? {
        var s := m.slot.value;
        slots := slots[s := (if s in slots then slots[s] else []) + [i]];
      }
      assert members[..i + 1][..i] == members[..i];
      roster := Xor(roster, MemberHash(m));
      i := i + 1;
    }
    assert members[..i] == members;
    f := Frozen(members, ids, slots, roster);
  }

  lemma NothingFrozen(members: seq<Member>)
    ensures FreezesSlots(members, map[], 0)
  {
  }

  lemma IdPushed(members: seq<Member>, ids: map<nat, nat>, n: nat)
    requires n < |members| && AscendingIds(members) && FreezesIds(members, ids, n)
    ensures FreezesIds(members, ids[members[n].id := n], n + 1)
  {
  }

  // ------------------------------------------------------------- one list, one set

  lemma SelectedIsAscending(q: seq<nat>, s: set<nat>, keep: nat -> bool, t: set<nat>)
    requires q == Ascending(s) && forall x :: x in t <==> x in s && keep(x)
    ensures Keep(q, keep) == Ascending(t)
  {
    KeepAscending(q, keep);
    IsAscending(Keep(q, keep), t);
  }

  /** Anything strictly ascending with the right elements is the sorted listing. */
  lemma IsAscending(q: seq<nat>, s: set<nat>)
    requires StrictlyAscending(q) && forall x :: x in q <==> x in s
    ensures q == Ascending(s)
  {
    AscendingLength(q, s);
    AscendingUnique(q, Ascending(s));
  }

  lemma {:induction false} AscendingLength(q: seq<nat>, s: set<nat>)
    requires StrictlyAscending(q) && forall x :: x in q <==> x in s
    ensures |q| == |s|
    decreases |q|
  {
    if q == [] {
      assert s == {};
    } else {
      forall x ensures x in q[1..] <==> x in s - {q[0]} {
        assert x in q <==> x == q[0] || x in q[1..];
        if x in q[1..] { assert q[0] < x; }
      }
      AscendingLength(q[1..], s - {q[0]});
      assert q[0] in s;
    }
  }

  lemma ListAscends(roll: Roll, ids: seq<nat>)
    requires WellKeyed(roll) && StrictlyAscending(ids) && forall id | id in ids :: id in roll
    ensures AscendingIds(MembersOf(roll, ids))
  {
    var list := MembersOf(roll, ids);
    forall i | 0 <= i < |list| ensures list[i].id == ids[i] { assert ids[i] in ids; }
  }

  // ---------------------------------------------------------------- the slot index

  function SlotOf(roll: Roll, id: nat): Option<nat> { if id in roll then roll[id].slot else None }

  function Unindexed(slots: map<nat, set<nat>>, slot: nat, id: nat): map<nat, set<nat>> {
    if slot !in slots then slots
    else if slots[slot] - {id} == {} then slots - {slot}
    else slots[slot := slots[slot] - {id}]
  }

  function Indexed(slots: map<nat, set<nat>>, slot: nat, id: nat): map<nat, set<nat>> {
    slots[slot := (if slot in slots then slots[slot] else {}) + {id}]
  }

  /** Taking a member out takes it out of its bucket, and the bucket with it if empty. */
  lemma InverseWithout(roll: Roll, slots: map<nat, set<nat>>, id: nat)
    requires Inverse(roll, slots)
    ensures var old_ := SlotOf(roll, id);
            Inverse(roll - {id}, if old_.Some? then Unindexed(slots, old_.value, id) else slots)
  {
    var old_ := SlotOf(roll, id);
    var after := if old_.Some? then Unindexed(slots, old_.value, id) else slots;
    forall s
      ensures if s in after then after[s] == Sitting(roll - {id}, s) && after[s] != {} else Sitting(roll - {id}, s) == {}
    {
      assert Sitting(roll - {id}, s) == Sitting(roll, s) - {id};
      if old_ == Some(s) { assert id in Sitting(roll, s); }
      else { assert id !in Sitting(roll, s); }
    }
  }

  lemma InverseWith(roll: Roll, slots: map<nat, set<nat>>, m: Member)
    requires Inverse(roll, slots) && m.id !in roll
    ensures Inverse(roll[m.id := m], if m.slot.Some? then Indexed(slots, m.slot.value, m.id) else slots)
  {
    var after := if m.slot.Some? then Indexed(slots, m.slot.value, m.id) else slots;
    forall s
      ensures if s in after then after[s] == Sitting(roll[m.id := m], s) && after[s] != {} else Sitting(roll[m.id := m], s) == {}
    {
      if m.slot == Some(s) { assert Sitting(roll[m.id := m], s) == Sitting(roll, s) + {m.id}; }
      else { assert Sitting(roll[m.id := m], s) == Sitting(roll, s); }
    }
  }

  /** Overwriting a member that stays in its slot, or has none. */
  lemma InverseInPlace(roll: Roll, slots: map<nat, set<nat>>, m: Member)
    requires Inverse(roll, slots) && SlotOf(roll, m.id) == m.slot
    ensures Inverse(roll[m.id := m], slots)
  {
    forall s ensures Sitting(roll[m.id := m], s) == Sitting(roll, s) {}
  }

  function Reslotted(roll: Roll, slots: map<nat, set<nat>>, m: Member): map<nat, set<nat>> {
    var old_ := SlotOf(roll, m.id);
    if old_ == m.slot then slots else
      var taken := if old_.Some? then Unindexed(slots, old_.value, m.id) else slots;
      if m.slot.Some? then Indexed(taken, m.slot.value, m.id) else taken
  }

  lemma InverseInsert(roll: Roll, slots: map<nat, set<nat>>, m: Member)
    requires Inverse(roll, slots)
    ensures Inverse(roll[m.id := m], Reslotted(roll, slots, m))
  {
    hide Inverse, Indexed, Unindexed;
    if SlotOf(roll, m.id) == m.slot {
      InverseInPlace(roll, slots, m);
    } else {
      InverseWithout(roll, slots, m.id);
      var old_ := SlotOf(roll, m.id);
      InverseWith(roll - {m.id}, if old_.Some? then Unindexed(slots, old_.value, m.id) else slots, m);
      assert (roll - {m.id})[m.id := m] == roll[m.id := m];
    }
  }

  // -------------------------------------------------------------------- the memos

  datatype Serialized = Serialized(bytes: seq<nat>, roster: nat)

  datatype Digest = Digest(fields: seq<string>, value: nat)

  datatype FrozenPool = FrozenPool(members: Frozen, roster: nat, version: nat, size: Option<nat>, methods: seq<string>)

  const SNAPSHOT_BYTES: nat := 0x10_0000

  lemma SameKeysSameIds(a: Roll, b: Roll)
    requires a.Keys == b.Keys
    ensures IdsOf(a, false) == IdsOf(b, false)
  {
    assert WantedIds(a, false) == WantedIds(b, false);
  }

  ghost predicate SameReadiness(a: Roll, b: Roll) {
    a.Keys == b.Keys && forall k | k in a :: a[k].ready == b[k].ready
  }

  lemma SameReadinessSameIds(a: Roll, b: Roll)
    requires SameReadiness(a, b)
    ensures IdsOf(a, true) == IdsOf(b, true)
  {
    assert WantedIds(a, true) == WantedIds(b, true);
  }

  /** Every listing kept is the listing the present members would give. */
  ghost predicate ListingsRight(roll: Roll, ids: Option<seq<nat>>, readyIds: Option<seq<nat>>) {
    && (ids.Some? ==> ids.value == IdsOf(roll, false))
    && (readyIds.Some? ==> readyIds.value == IdsOf(roll, true))
  }

  /** Every rendering kept is the one the present members would give. */
  ghost predicate RenderingsRight(roll: Roll, native: map<bool, Frozen>, snapshots: map<bool, Serialized>,
                                  digest: Option<Digest>, encode: seq<Member> -> seq<nat>,
                                  hash: (seq<Member>, seq<string>) -> nat) {
    && (forall r | r in native :: Freezes(ListOf(roll, r), native[r]))
    && (forall r | r in snapshots ::
          snapshots[r] == Serialized(encode(ListOf(roll, r)), FoldRoster(ListOf(roll, r))))
    && (digest.Some? ==> digest.value.value == hash(ListOf(roll, false), digest.value.fields))
  }

  lemma NothingRendered(roll: Roll, encode: seq<Member> -> seq<nat>, hash: (seq<Member>, seq<string>) -> nat)
    ensures RenderingsRight(roll, map[], map[], None, encode, hash)
  {
  }

  /** Listings survive a patch that did not change what they list. */
  lemma ListingsAfter(before: Roll, after: Roll, ids: Option<seq<nat>>, readyIds: Option<seq<nat>>,
                      membership: bool, readiness: bool)
    requires ListingsRight(before, ids, readyIds)
    requires !membership ==> before.Keys == after.Keys
    requires !membership && !readiness ==> SameReadiness(before, after)
    ensures ListingsRight(after, if membership then None else ids, if membership || readiness then None else readyIds)
  {
    hide IdsOf, SameReadiness;
    if !membership { SameKeysSameIds(before, after); }
    if !membership && !readiness { SameReadinessSameIds(before, after); }
  }

  class CachedPool {
    var version: nat
    var roster: nat
    var methods: seq<string>
    var size: Option<nat>
    var members: Roll
    var slots: map<nat, set<nat>>
    var ids: Option<seq<nat>>
    var readyIds: Option<seq<nat>>
    var snapshots: map<bool, Serialized>
    var native: map<bool, Frozen>
    var digest: Option<Digest>
    const index: FilterIndexCache
    /** The wire encoder and the digest hash, as the libraries define them. */
    const encode: seq<Member> -> seq<nat>
    const hash: (seq<Member>, seq<string>) -> nat

    ghost function View(): Replica
      reads this
    {
      Replica(version, roster, members, methods, size)
    }

    ghost predicate Valid()
      reads this, index
    {
      && WellKeyed(members) && Inverse(members, slots)
      && ListingsRight(members, ids, readyIds)
      && RenderingsRight(members, native, snapshots, digest, encode, hash)
      && index.Valid() && IndexRight(members, index.entries)
    }

    constructor (encode: seq<Member> -> seq<nat>, hash: (seq<Member>, seq<string>) -> nat)
      ensures Valid() && View() == FRESH_REPLICA && fresh(index)
    {
      version, roster, methods, size, members, slots := 0, 0, [], None, map[], map[];
      ids, readyIds, snapshots, native, digest := None, None, map[], map[], None;
      this.encode, this.hash := encode, hash;
      index := new FilterIndexCache();
    }

    // ------------------------------------------------------------------- updating

    method Unindex(slot: nat, id: nat)
      modifies this`slots
      ensures slots == Unindexed(old(slots), slot, id)
    {
      if slot in slots {
        var bucket := slots[slot] - {id};
        slots := slots[slot := bucket];
        if bucket == {} { slots := slots - {slot}; }
        assert slots == Unindexed(old(slots), slot, id);
      }
    }

    method Put(m: Member) returns (newcomer: bool, turned: bool)
      requires WellKeyed(members) && Inverse(members, slots)
      modifies this`members, this`slots
      ensures members == old(members)[m.id := m] && WellKeyed(members) && Inverse(members, slots)
      ensures newcomer <==> m.id !in old(members)
      ensures turned <==> (m.id in old(members) ==> old(members)[m.id].ready != m.ready)
    {
      hide Inverse;
      InverseInsert(members, slots, m);
      var was := if m.id in members then Some(members[m.id]) else None;
      members := members[m.id := m];
      newcomer := was.None?;
      turned := was.None? || was.value.ready != m.ready;
      var oldSlot := if was.Some? then was.value.slot else None;
      if oldSlot != m.slot {
        if oldSlot.Some? { Unindex(oldSlot.value, m.id); }
        if m.slot.Some? {
          slots := slots[m.slot.value := (if m.slot.value in slots then slots[m.slot.value] else {}) + {m.id}];
        }
      }
    }

    method Remove(id: nat) returns (there: bool)
      requires WellKeyed(members) && Inverse(members, slots)
      modifies this`members, this`slots
      ensures members == old(members) - {id} && WellKeyed(members) && Inverse(members, slots)
      ensures there <==> id in old(members)
    {
      hide Inverse;
      InverseWithout(members, slots, id);
      if id !in members {
        assert members - {id} == members;
        return false;
      }
      var m := members[id];
      members := members - {id};
      if m.slot.Some? { Unindex(m.slot.value, id); }
      return true;
    }

    /** Anything rendered from the members is out of date. */
    method DropRenderings()
      requires index.Valid()
      modifies this`snapshots, this`native, this`digest, index
      ensures snapshots == map[] && native == map[] && digest == None && index.Valid() && index.entries == map[]
    {
      snapshots, native, digest := map[], map[], None;
      index.Invalidate();
    }

    method PutAll(changed: seq<Member>) returns (membership: bool, readiness: bool)
      requires WellKeyed(members) && Inverse(members, slots)
      modifies this`members, this`slots
      ensures members == Inserted(old(members), changed) && WellKeyed(members) && Inverse(members, slots)
      ensures !membership ==> members.Keys == old(members).Keys
      ensures !membership && !readiness ==> SameReadiness(old(members), members)
      ensures changed == [] ==> !membership && !readiness
    {
      hide Inverse;
      membership, readiness := false, false;
      var i := 0;
      while i < |changed|
        invariant 0 <= i <= |changed| && WellKeyed(members) && Inverse(members, slots)
        invariant members == Inserted(old(members), changed[..i])
        invariant !membership ==> members.Keys == old(members).Keys
        invariant !membership && !readiness ==> SameReadiness(old(members), members)
        invariant i == 0 ==> !membership && !readiness
      {
        var newcomer, turned := Put(changed[i]);
        membership, readiness := membership || newcomer, readiness || turned;
        assert changed[..i + 1][..i] == changed[..i];
        i := i + 1;
      }
      assert changed[..i] == changed;
    }

    method RemoveAll(removed: seq<nat>) returns (membership: bool)
      requires WellKeyed(members) && Inverse(members, slots)
      modifies this`members, this`slots
      ensures members == old(members) - IdSet(removed) && WellKeyed(members) && Inverse(members, slots)
      ensures !membership ==> members == old(members)
    {
      hide Inverse;
      membership := false;
      var i := 0;
      assert members - IdSet(removed[..0]) == members;
      while i < |removed|
        invariant 0 <= i <= |removed| && WellKeyed(members) && Inverse(members, slots)
        invariant members == old(members) - IdSet(removed[..i])
        invariant !membership ==> members == old(members)
      {
        assert removed[..i + 1] == removed[..i] + [removed[i]];
        assert IdSet(removed[..i + 1]) == IdSet(removed[..i]) + {removed[i]};
        var there := Remove(removed[i]);
        assert members == old(members) - IdSet(removed[..i + 1]);
        if !there { assert members == old(members) - IdSet(removed[..i]); }
        membership := membership || there;
        i := i + 1;
      }
      assert removed[..i] == removed;
    }

    method Patch(d: PoolDelta) returns (membership: bool, readiness: bool)
      requires WellKeyed(members) && Inverse(members, slots)
      modifies this`members, this`slots
      ensures members == Patched(old(members), d) && WellKeyed(members) && Inverse(members, slots)
      ensures !membership ==> members.Keys == old(members).Keys
      ensures !membership && !readiness ==> SameReadiness(old(members), members)
    {
      hide Inverse;
      membership := d.full;
      if d.full {
        members, slots := map[], map[];
        NobodySits();
      }
      var grew;
      grew, readiness := PutAll(d.changed);
      var shrank := RemoveAll(d.removed);
      membership := membership || grew || shrank;
    }

    /** The members and everything kept beside them. */
    method Absorb(d: PoolDelta)
      requires Valid()
      modifies this`members, this`slots, this`ids, this`readyIds, this`snapshots, this`native, this`digest, index
      ensures Valid() && members == Patched(old(members), d)
    {
      hide Inverse, IndexRight, ListingsRight, RenderingsRight, Patched, SameReadiness, FilterIndexCache.Valid, WellKeyed;
      if d.full || d.changed != [] || d.removed != [] {
        DropRenderings();
        Relist(d);
        NothingIndexed(members);
        NothingRendered(members, encode, hash);
      } else {
        Relist(d);
        EmptyPatch(old(members), d);
      }
    }

    method Relist(d: PoolDelta)
      requires WellKeyed(members) && Inverse(members, slots) && ListingsRight(members, ids, readyIds)
      modifies this`members, this`slots, this`ids, this`readyIds
      ensures WellKeyed(members) && Inverse(members, slots) && ListingsRight(members, ids, readyIds)
      ensures members == Patched(old(members), d)
    {
      hide Inverse, ListingsRight, Patched, SameReadiness, WellKeyed;
      var membership, readiness := Patch(d);
      ListingsAfter(old(members), members, ids, readyIds, membership, readiness);
      if membership { ids := None; }
      if membership || readiness { readyIds := None; }
    }

    /** Take a delta, full or incremental, whatever it lists and however often: the
        members become the patched roster, and everything kept beside them still agrees
        with them. */
    method Apply(d: PoolDelta)
      requires Valid()
      modifies this, index
      ensures Valid() && View() == Updated(old(View()), d)
    {
      hide Inverse, IndexRight, ListingsRight, RenderingsRight, Patched, FilterIndexCache.Valid, WellKeyed;
      Absorb(d);
      version, roster := d.version, d.roster;
      if methods != d.methods { methods := d.methods; }
      size := d.size;
    }

    lemma NobodySits()
      ensures Inverse(map[], map[])
    {
    }

    // -------------------------------------------------------------------- looking up

    /** The ids in order, computed once per membership or readiness change. */
    method IdList(ready: bool) returns (list: seq<nat>)
      requires Valid()
      modifies this`ids, this`readyIds
      ensures Valid() && list == IdsOf(members, ready)
    {
      hide Inverse, IndexRight, RenderingsRight, FilterIndexCache.Valid, IdsOf;
      if ids.None? { ids := Some(ListAll(members)); }
      list := ids.value;
      if ready {
        if readyIds.None? { readyIds := Some(ListReady(members, list)); }
        list := readyIds.value;
      }
    }

    method ScanIds(filter: Value, ready: bool) returns (list: seq<nat>)
      requires Valid()
      modifies this`ids, this`readyIds
      ensures Valid() && list == ScanOf(members, filter, ready)
    {
      hide Inverse, IndexRight, RenderingsRight, ListingsRight, FilterIndexCache.Valid;
      var all := IdList(ready);
      list := ListMatching(members, all, filter, ready);
    }

    /** The indexed answer, computed on a miss; none when the filter cannot be indexed. */
    method MatchingIds(filter: Value, ready: bool) returns (found: Option<seq<nat>>)
      requires Valid()
      modifies this`ids, this`readyIds, index
      ensures Valid()
      ensures found == if Indexable(filter) then Some(ScanOf(members, filter, ready)) else None
    {
      hide Inverse, RenderingsRight, ListingsRight, ScanOf, FilterIndexCache.Valid, IndexRight, Indexable;
      var key, bytes := KeyOf(filter, ready);
      if key.None? {
        index.Fallback();
        return None;
      }
      ghost var before := index.entries;
      found := index.Get(key.value);
      StampedRight(members, before, index.entries);
      if found.Some? {
        IndexedRight(members, before, key.value, filter);
        return;
      }
      ghost var stamped := index.entries;
      var list := ScanIds(filter, ready);
      index.Insert(key.value, bytes, list);
      InsertedRight(members, stamped, key.value, filter, list, index.entries);
      found := Some(list);
    }

    method Count(filter: Value, ready: bool) returns (n: nat)
      requires Valid()
      modifies this`ids, this`readyIds, index
      ensures Valid() && n == |ScanOf(members, filter, ready)|
    {
      hide Inverse, RenderingsRight, ListingsRight, FilterIndexCache.Valid, IndexRight, IdsOf, Matches;
      if !filter.Object? || filter.fields == map[] {
        UnfilteredScan(members, filter, ready);
        var list := IdList(ready);
        return |list|;
      }
      var found := MatchingIds(filter, ready);
      if found.Some? { return |found.value|; }
      n := CountMatching(members, filter, ready);
    }

    /** Some matching member, or none when nobody matches; which one is up to the generator:
        one draw from the list the direct scan gives, or, where nothing indexes the filter, a
        throw for each match in the order `order` the table yields them. */
    method Choose(filter: Value, ready: bool, rng: (nat, nat) -> nat)
      returns (chosen: Option<Member>, ghost order: seq<nat>)
      requires Valid() && DrawsBelow(rng)
      modifies this`ids, this`readyIds, index
      ensures Valid()
      ensures if Scans(filter)
              then Lists(order, MatchingSet(members, filter, ready)) && Picks(members, order, Thrown(rng, |order|), chosen)
              else order == ScanOf(members, filter, ready) && Draws(order, rng, chosen)
      ensures chosen.None? <==> ScanOf(members, filter, ready) == []
      ensures chosen.Some? ==> chosen.value.id in ScanOf(members, filter, ready) && members[chosen.value.id] == chosen.value
    {
      hide Inverse, RenderingsRight, ListingsRight, FilterIndexCache.Valid, IndexRight, Matches;
      hide ScanOf, IdsOf, Lists, Picks, Thrown, Indexable, MatchingSet;
      ListedIdsArePresent(members, filter, ready);
      var list := [];
      if !filter.Object? || filter.fields == map[] {
        UnfilteredScan(members, filter, ready);
        list := IdList(ready);
      } else {
        var found := MatchingIds(filter, ready);
        if found.None? {
          chosen, order := ChooseScanning(members, filter, ready, rng);
          ScannedWhole(members, filter, ready, order, Thrown(rng, |order|), chosen);
          return;
        }
        list := found.value;
      }
      order := list;
      if list == [] { return None, order; }
      var i := rng(0, |list|);
      assert list[i] in list;
      chosen := Some(members[list[i]]);
    }

    method Native(ready: bool) returns (f: Frozen)
      requires Valid()
      modifies this`ids, this`readyIds, this`native
      ensures Valid() && Freezes(ListOf(members, ready), f)
    {
      hide Inverse, IndexRight, ListingsRight, FilterIndexCache.Valid, IdsOf, Freezes;
      if ready !in native {
        var list := IdList(ready);
        ListOfIds(members, ready);
        AscendingDistinct(MembersOf(members, list));
        f := Freeze(MembersOf(members, list));
        native := native[ready := f];
      }
      f := native[ready];
    }

    /** The whole pool at this moment, by readiness. */
    method FrozenView(ready: bool) returns (p: FrozenPool)
      requires Valid()
      modifies this`ids, this`readyIds, this`native
      ensures Valid() && Freezes(ListOf(members, ready), p.members)
      ensures p.roster == roster && p.version == version && p.size == size && p.methods == methods
    {
      hide Inverse, IndexRight, ListingsRight, FilterIndexCache.Valid, IdsOf, Freezes, RenderingsRight;
      var f := Native(ready);
      p := FrozenPool(f, roster, version, size, methods);
    }

    /** And by filter. */
    method Filtered(filter: Value, ready: bool) returns (p: FrozenPool)
      requires Valid()
      modifies this`ids, this`readyIds, this`native, index
      ensures Valid()
      ensures (forall id | id in ScanOf(members, filter, ready) :: id in members) &&
              Freezes(MembersOf(members, ScanOf(members, filter, ready)), p.members)
      ensures p.roster == roster && p.version == version && p.size == size && p.methods == methods
    {
      hide Inverse, RenderingsRight, ListingsRight, FilterIndexCache.Valid, IndexRight, Matches, Freezes, IdsOf;
      ListedIdsArePresent(members, filter, ready);
      if !filter.Object? || filter.fields == map[] {
        UnfilteredScan(members, filter, ready);
        ListOfIds(members, ready);
        p := FrozenView(ready);
        return;
      }
      var found := MatchingIds(filter, ready);
      var list := [];
      if found.Some? { list := found.value; } else { list := ScanIds(filter, ready); }
      ListAscends(members, list);
      AscendingDistinct(MembersOf(members, list));
      var f := Freeze(MembersOf(members, list));
      p := FrozenPool(f, roster, version, size, methods);
    }

    method SerializedList(ready: bool) returns (bytes: seq<nat>, fold: nat)
      requires Valid()
      modifies this`ids, this`readyIds, this`snapshots
      ensures Valid() && bytes == encode(ListOf(members, ready)) && fold == FoldRoster(ListOf(members, ready))
    {
      hide Inverse, IndexRight, ListingsRight, FilterIndexCache.Valid, IdsOf, Freezes;
      if ready in snapshots { return snapshots[ready].bytes, snapshots[ready].roster; }
      var list := IdList(ready);
      ListOfIds(members, ready);
      var rendered := MembersOf(members, list);
      fold := FoldRoster(rendered);
      bytes := encode(rendered);
      if |bytes| <= SNAPSHOT_BYTES { snapshots := snapshots[ready := Serialized(bytes, fold)]; }
    }

    method FieldDigest(fields: seq<string>) returns (value: nat)
      requires Valid()
      modifies this`ids, this`readyIds, this`digest
      ensures Valid() && value == hash(ListOf(members, false), fields)
    {
      hide Inverse, IndexRight, ListingsRight, FilterIndexCache.Valid, IdsOf, Freezes;
      if digest.Some? && digest.value.fields == fields { return digest.value.value; }
      var list := IdList(false);
      ListOfIds(members, false);
      value := hash(MembersOf(members, list), fields);
      if |fields| <= 64 && TotalLength(fields) <= 4096 { digest := Some(Digest(fields, value)); }
    }

    /** The lowest id in the slot, among the wanted. */
    method SlotHolder(slot: nat, ready: bool) returns (m: Option<Member>)
      requires Valid()
      ensures m.None? <==> forall k | k in members && members[k].slot == Some(slot) :: !Wanted(members[k], ready)
      ensures m.Some? ==> m.value.id in members && members[m.value.id] == m.value &&
                          m.value.slot == Some(slot) && Wanted(m.value, ready) &&
                          forall k | k in members && members[k].slot == Some(slot) && Wanted(members[k], ready) :: m.value.id <= k
    {
      hide RenderingsRight, ListingsRight, FilterIndexCache.Valid, IndexRight;
      BucketIsSitting(members, slots, slot);
      if slot !in slots { return None; }
      var bucket := Ascending(slots[slot]);
      var i := 0;
      while i < |bucket|
        invariant 0 <= i <= |bucket|
        invariant forall j | 0 <= j < i :: !Wanted(members[bucket[j]], ready)
      {
        assert bucket[i] in slots[slot];
        if Wanted(members[bucket[i]], ready) { return Some(members[bucket[i]]); }
        i := i + 1;
      }
      return None;
    }

    /** A member by printed identity: found exactly when the pool holds one it names. */
    method Get(pool: string, identity: string) returns (m: Option<Member>)
      requires Valid()
      ensures m.Some? ==> m.value.id in members && members[m.value.id] == m.value && IdentityMatches(pool, m.value, identity)
      ensures m.None? ==> forall k | k in members :: !IdentityMatches(pool, members[k], identity)
    {
      hide RenderingsRight, ListingsRight, FilterIndexCache.Valid, IndexRight, IdentityParts;
      var parts := IdentityParts(identity);
      if parts.None? || parts.value.pool != pool { return None; }
      var key, incarnation := parts.value.key, parts.value.incarnation;
      BucketIsSitting(members, slots, key);
      if key in slots {
        var bucket := Ascending(slots[key]);
        var i := 0;
        while i < |bucket|
          invariant 0 <= i <= |bucket|
          invariant forall j | 0 <= j < i :: members[bucket[j]].incarnation != incarnation
        {
          assert bucket[i] in slots[key];
          if members[bucket[i]].incarnation == incarnation { return Some(members[bucket[i]]); }
          i := i + 1;
        }
      }
      if key in members && members[key].slot.None? && members[key].incarnation == incarnation {
        return Some(members[key]);
      }
      return None;
    }
  }

  lemma EmptyPatch(roll: Roll, d: PoolDelta)
    requires !d.full && d.changed == [] && d.removed == []
    ensures Patched(roll, d) == roll
  {
  }

  lemma NothingIndexed(roll: Roll)
    ensures IndexRight(roll, map[])
  {
  }

  lemma BucketIsSitting(roll: Roll, slots: map<nat, set<nat>>, slot: nat)
    requires Inverse(roll, slots)
    ensures slot in slots ==> forall k :: k in slots[slot] <==> k in roll && roll[k].slot == Some(slot)
    ensures slot !in slots ==> forall k | k in roll :: roll[k].slot != Some(slot)
  {
    assert forall k | k in roll && roll[k].slot == Some(slot) :: k in Sitting(roll, slot);
  }

  function TotalLength(fields: seq<string>): nat {
    if fields == [] then 0 else |fields[0]| + TotalLength(fields[1..])
  }

  function ListAll(roll: Roll): (list: seq<nat>)
    ensures list == IdsOf(roll, false)
  {
    assert roll.Keys == WantedIds(roll, false);
    Ascending(roll.Keys)
  }

  function ListReady(roll: Roll, all: seq<nat>): (list: seq<nat>)
    requires all == IdsOf(roll, false)
    ensures list == IdsOf(roll, true)
  {
    SelectedIsAscending(all, WantedIds(roll, false), k => k in roll && roll[k].ready, WantedIds(roll, true));
    Keep(all, k => k in roll && roll[k].ready)
  }

  function ListMatching(roll: Roll, all: seq<nat>, filter: Value, ready: bool): (list: seq<nat>)
    requires all == IdsOf(roll, ready)
    ensures list == ScanOf(roll, filter, ready)
  {
    SelectedIsAscending(all, WantedIds(roll, ready), k => k in roll && Matches(roll[k].state, filter),
                        MatchingSet(roll, filter, ready));
    Keep(all, k => k in roll && Matches(roll[k].state, filter))
  }

  /** A filter that asks for nothing matches everybody. */
  lemma UnfilteredScan(roll: Roll, filter: Value, ready: bool)
    requires !filter.Object? || filter.fields == map[]
    ensures ScanOf(roll, filter, ready) == IdsOf(roll, ready)
  {
    assert MatchingSet(roll, filter, ready) == WantedIds(roll, ready);
  }

  lemma ListOfIds(roll: Roll, ready: bool)
    requires WellKeyed(roll)
    ensures (forall id | id in IdsOf(roll, ready) :: id in roll) && ListOf(roll, ready) == MembersOf(roll, IdsOf(roll, ready))
    ensures AscendingIds(MembersOf(roll, IdsOf(roll, ready)))
  {
    ListedIdsArePresent(roll, Null, ready);
    ListAscends(roll, IdsOf(roll, ready));
  }

  method CountMatching(roll: Roll, filter: Value, ready: bool) returns (n: nat)
    ensures n == |ScanOf(roll, filter, ready)|
  {
    n := 0;
    var left := roll.Keys;
    ghost var all := MatchingSet(roll, filter, ready);
    ghost var seen: set<nat> := {};
    assert forall k | k in roll :: k in all <==> Wanted(roll[k], ready) && Matches(roll[k].state, filter);
    hide MatchingSet, Matches, Wanted;
    while left != {}
      invariant left <= roll.Keys && n == |seen|
      invariant forall k :: k in seen <==> k in all && k !in left
      decreases left
    {
      var k :| k in left;
      if Wanted(roll[k], ready) && Matches(roll[k].state, filter) {
        n := n + 1;
        seen := seen + {k};
      }
      left := left - {k};
    }
    assert seen == all;
  }

  /** Throwing these dice for these members picks this one. */
  ghost predicate Picks(roll: Roll, order: seq<nat>, dice: seq<nat>, chosen: Option<Member>) {
    && dice in Throws(|order|)
    && if order == [] then chosen.None?
       else 0 <= Chosen(dice) < |order| && order[Chosen(dice)] in roll && chosen == Some(roll[order[Chosen(dice)]])
  }

  /** A generator: asked for the i-th time, it draws below whatever bound it is given. */
  ghost predicate DrawsBelow(rng: (nat, nat) -> nat) { forall i: nat, n: nat | n > 0 :: rng(i, n) < n }

  /** One draw for the whole list. */
  ghost predicate Draws(order: seq<nat>, rng: (nat, nat) -> nat, chosen: Option<Member>) {
    if order == [] then chosen.None?
    else 0 <= rng(0, |order|) < |order| && chosen.Some? && chosen.value.id == order[rng(0, |order|)]
  }

  /** Only a filter that asks for something the index cannot be keyed by is scanned for. */
  ghost predicate Scans(filter: Value) { filter.Object? && filter.fields != map[] && !Indexable(filter) }

  /** A one-sided die, a two-sided one, up to n sides, as the generator throws them. */
  function Thrown(rng: (nat, nat) -> nat, n: nat): (dice: seq<nat>)
    ensures |dice| == n
  {
    if n == 0 then [] else Thrown(rng, n - 1) + [rng(n - 1, n)]
  }

  /** One pass over everybody, in whatever order the table yields them: `order` is who
      matched, in that order. The choice is what the throws made for them pick. */
  method ChooseScanning(roll: Roll, filter: Value, ready: bool, rng: (nat, nat) -> nat)
    returns (chosen: Option<Member>, ghost order: seq<nat>)
    requires WellKeyed(roll) && DrawsBelow(rng)
    ensures Lists(order, MatchingSet(roll, filter, ready)) && Picks(roll, order, Thrown(rng, |order|), chosen)
  {
    hide Matches, Picks, Lists;
    chosen, order := None, [];
    var count := 0;
    var left := roll.Keys;
    ghost var all := MatchingSet(roll, filter, ready);
    PicksNone(roll);
    assert all - left == {};
    while left != {}
      invariant left <= roll.Keys && count == |order|
      invariant Lists(order, all - left) && Picks(roll, order, Thrown(rng, |order|), chosen)
      decreases left
    {
      var k :| k in left;
      if Wanted(roll[k], ready) && Matches(roll[k].state, filter) {
        count := count + 1;
        var die := rng(count - 1, count);
        PicksOn(roll, order, Thrown(rng, |order|), chosen, k, die);
        ListsAppend(order, all - left, k);
        assert all - (left - {k}) == all - left + {k};
        order := order + [k];
        if die == 0 { chosen := Some(roll[k]); }
      } else {
        assert all - (left - {k}) == all - left;
      }
      left := left - {k};
    }
    assert all - left == all;
  }

  lemma PicksNone(roll: Roll)
    ensures Picks(roll, [], [], None) && Lists([], {})
  {
  }

  lemma PicksOn(roll: Roll, order: seq<nat>, dice: seq<nat>, chosen: Option<Member>, k: nat, die: nat)
    requires Picks(roll, order, dice, chosen) && k in roll && die <= |order|
    ensures Picks(roll, order + [k], dice + [die], if die == 0 then Some(roll[k]) else chosen)
  {
    hide Throws, Chosen;
    ThrownOn(dice, |order| + 1, die);
  }

  lemma ScannedWhole(roll: Roll, filter: Value, ready: bool, order: seq<nat>, dice: seq<nat>, chosen: Option<Member>)
    requires WellKeyed(roll) && Lists(order, MatchingSet(roll, filter, ready)) && Picks(roll, order, dice, chosen)
    ensures chosen.None? <==> ScanOf(roll, filter, ready) == []
    ensures chosen.Some? ==> chosen.value.id in ScanOf(roll, filter, ready) && chosen.value.id in roll &&
                             roll[chosen.value.id] == chosen.value
  {
    hide Matches;
    forall id ensures id in order <==> id in ScanOf(roll, filter, ready) { assert id in order <==> id in IdSet(order); }
    if order != [] { assert order[0] in order; }
  }

  lemma ThrownOn(dice: seq<nat>, count: nat, die: nat)
    requires count > 0 && dice in Throws(count - 1) && die < count
    ensures dice + [die] in Throws(count) && |dice| == count - 1
    ensures Chosen(dice + [die]) == if die == 0 then count - 1 else Chosen(dice)
    ensures count == 1 ==> die == 0
  {
    ThrowsShape(count - 1, dice);
    assert (dice + [die])[..|dice|] == dice;
  }

  // --------------------------------------------------------------- the index stays right

  lemma StampedRight(roll: Roll, before: map<Key, Entry>, after: map<Key, Entry>)
    requires IndexRight(roll, before) && SameResults(before, after)
    ensures IndexRight(roll, after)
  {
    hide ScanOf, Keys;
  }

  lemma IndexedRight(roll: Roll, entries: map<Key, Entry>, key: Key, filter: Value)
    requires IndexRight(roll, entries) && key in entries && Keys(filter, key.requireReady, key)
    ensures entries[key].ids == ScanOf(roll, filter, key.requireReady)
  {
    hide ScanOf, Keys;
  }

  /** A result stored under the key of its own filter answers for every filter with that
      key, since there is only one. */
  lemma InsertedRight(roll: Roll, before: map<Key, Entry>, key: Key, filter: Value, ids: seq<nat>, after: map<Key, Entry>)
    requires IndexRight(roll, before) && Keys(filter, key.requireReady, key) && ids == ScanOf(roll, filter, key.requireReady)
    requires after == before || Keeps(before, key, ids, after)
    ensures IndexRight(roll, after)
  {
    hide ScanOf, Keys;
    forall k, g | k in after && Keys(g, k.requireReady, k) ensures after[k].ids == ScanOf(roll, g, k.requireReady) {
      if k == key && after != before { KeysNameOneFilter(filter, g, key); }
    }
  }
}
