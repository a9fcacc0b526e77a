/** The bounded index of filter results a cached pool keeps, least recently used out
    first. */
module FilterIndexes {
  import opened Basics
  import opened Values

  const MAX_ENTRIES: nat := 32
  const MAX_FIELDS: nat := 8
  const MAX_KEY_BYTES: nat := 4096
  const MAX_IDS: nat := 8192
  const MAX_BYTES: nat := 0x10_0000
  const ENTRY_OVERHEAD: nat := 128

  // --------------------------------------------------------------------- keys

  /** A scalar as a map key: doubles by their bits, so that -0.0 and 0.0 differ. */
  datatype Scalar = NullKey | BoolKey(b: bool) | StrKey(s: string) | I64Key(i: int) | U64Key(u: int) | F64Key(bits: Number)

  function ScalarOf(v: Value): Option<Scalar> {
    match v
    case Null => Some(NullKey)
    case Bool(b) => Some(BoolKey(b))
    case Str(s) => Some(StrKey(s))
    case Num(n) =>
      if n.AsI64().Some? then Some(I64Key(n.AsI64().value))
      else if n.AsU64().Some? then Some(U64Key(n.AsU64().value))
      else Some(F64Key(n))
    case Array(_) => None
    case Object(_) => None
  }

  function ScalarCost(s: Scalar): nat {
    match s
    case NullKey => 1
    case BoolKey(_) => 2
    case StrKey(t) => |t| + 1
    case _ => 9
  }

  /** Fields sorted by name with no name twice: a finite map. */
  datatype Key = Key(requireReady: bool, fields: map<string, Scalar>)

  /** This key is the key of that filter. */
  ghost predicate Keys(filter: Value, ready: bool, key: Key) {
    && filter.Object? && key.requireReady == ready && key.fields.Keys == filter.fields.Keys
    && forall k | k in filter.fields :: ScalarOf(filter.fields[k]) == Some(key.fields[k])
  }

  lemma ScalarNamesOneValue(v: Value, w: Value)
    requires ScalarOf(v).Some? && ScalarOf(v) == ScalarOf(w)
    ensures v == w
  {
  }

  /** Equal keys come from equal filters. */
  lemma KeysNameOneFilter(f: Value, g: Value, key: Key)
    requires Keys(f, key.requireReady, key) && Keys(g, key.requireReady, key)
    ensures f == g
  {
    forall k | k in f.fields ensures f.fields[k] == g.fields[k] {
      ScalarNamesOneValue(f.fields[k], g.fields[k]);
    }
    assert f.fields == g.fields;
  }

  function FieldCost(field: string, value: Value): nat {
    var scalar := ScalarOf(value);
    if scalar.Some? then |field| + ScalarCost(scalar.value) else 0
  }

  ghost function SomeField(fields: map<string, Value>): (f: string)
    requires fields != map[]
    ensures f in fields
  {
    var f :| f in fields; f
  }

  /** The bytes a key for these fields takes, added up in an arbitrary order. */
  ghost function FieldsCost(fields: map<string, Value>): nat
    decreases fields.Keys
  {
    if fields == map[] then 0 else
      var f := SomeField(fields);
      assert (fields - {f}).Keys < fields.Keys;
      FieldCost(f, fields[f]) + FieldsCost(fields - {f})
  }

  lemma {:induction false} CostWithout(fields: map<string, Value>, f: string)
    requires f in fields
    ensures FieldsCost(fields) == FieldCost(f, fields[f]) + FieldsCost(fields - {f})
    decreases fields.Keys
  {
    hide FieldCost;
    var g := SomeField(fields);
    if g != f {
      assert (fields - {g}).Keys < fields.Keys && (fields - {f}).Keys < fields.Keys;
      CostWithout(fields - {g}, f);
      CostWithout(fields - {f}, g);
      assert fields - {g} - {f} == fields - {f} - {g};
    }
  }

  /** Which filters the index takes: objects of at most eight scalar fields whose key is not
      too long. */
  ghost predicate Indexable(filter: Value) {
    && filter.Object? && 0 < |filter.fields| <= MAX_FIELDS
    && (forall k | k in filter.fields :: ScalarOf(filter.fields[k]).Some?)
    && 1 + FieldsCost(filter.fields) <= MAX_KEY_BYTES
  }

  /** A filter has a key exactly if it is indexable, and it is that filter's own. */
  method KeyOf(filter: Value, ready: bool) returns (key: Option<Key>, bytes: nat)
    ensures key.Some? <==> Indexable(filter)
    ensures key.Some? ==> Keys(filter, ready, key.value) && bytes == 1 + FieldsCost(filter.fields)
  {
    hide FieldsCost;
    if !filter.Object? || filter.fields == map[] || |filter.fields| > MAX_FIELDS { return None, 0; }
    bytes := 1;
    var indexed: map<string, Scalar> := map[];
    var left := filter.fields;
    while left != map[]
      invariant left.Keys <= filter.fields.Keys && indexed.Keys == filter.fields.Keys - left.Keys
      invariant forall k | k in left :: left[k] == filter.fields[k]
      invariant forall k | k in indexed :: ScalarOf(filter.fields[k]) == Some(indexed[k])
      invariant bytes + FieldsCost(left) == 1 + FieldsCost(filter.fields) && bytes <= MAX_KEY_BYTES
      decreases left.Keys
    {
      var field :| field in left.Keys;
      CostWithout(left, field);
      var value := ScalarOf(filter.fields[field]);
      if value.None? { return None, bytes; }
      bytes := bytes + |field| + ScalarCost(value.value);
      if bytes > MAX_KEY_BYTES { return None, bytes; }
      indexed := indexed[field := value.value];
      assert (left - {field}).Keys == left.Keys - {field};
      left := left - {field};
    }
    NothingCosts();
    return Some(Key(ready, indexed)), bytes;
  }

  lemma NothingCosts()
    ensures FieldsCost(map[]) == 0
  {
  }

  // ------------------------------------------------------------------- entries

  datatype Entry = Entry(ids: seq<nat>, bytes: nat, lastUsed: nat)

  ghost function SomeKey(entries: map<Key, Entry>): (k: Key)
    requires entries != map[]
    ensures k in entries
  {
    var k :| k in entries; k
  }

  /** Accounted bytes, added up in an arbitrary order. */
  ghost function Bytes(entries: map<Key, Entry>): nat
    decreases entries.Keys
  {
    if entries == map[] then 0 else
      var k := SomeKey(entries);
      assert (entries - {k}).Keys < entries.Keys;
      entries[k].bytes + Bytes(entries - {k})
  }

  lemma {:induction false} BytesWithout(entries: map<Key, Entry>, k: Key)
    requires k in entries
    ensures Bytes(entries) == entries[k].bytes + Bytes(entries - {k})
    decreases entries.Keys
  {
    var first := SomeKey(entries);
    if first != k {
      var a, b := entries - {first}, entries - {k};
      assert first in entries && a.Keys < entries.Keys && b.Keys < entries.Keys;
      assert a - {k} == b - {first};
      BytesWithout(a, k);
      BytesWithout(b, first);
    }
  }

  /** What is accounted for, but not when it was last used. */
  lemma {:induction false} BytesSame(a: map<Key, Entry>, b: map<Key, Entry>)
    requires a.Keys == b.Keys && forall k | k in a :: a[k].bytes == b[k].bytes
    ensures Bytes(a) == Bytes(b)
    decreases a.Keys
  {
    if a != map[] {
      var k := SomeKey(a);
      assert (a - {k}).Keys < a.Keys;
      BytesWithout(b, k);
      BytesSame(a - {k}, b - {k});
    } else {
      assert b == map[];
    }
  }

  lemma {:induction false} OldestExists(entries: map<Key, Entry>, keys: set<Key>)
    requires keys != {} && keys <= entries.Keys
    ensures exists k :: k in keys && forall x | x in keys :: entries[k].lastUsed <= entries[x].lastUsed
    decreases keys
  {
    var k :| k in keys;
    if keys == {k} {
      assert forall x | x in keys :: entries[k].lastUsed <= entries[x].lastUsed;
    } else {
      var rest := keys - {k};
      OldestExists(entries, rest);
      var m :| m in rest && forall x | x in rest :: entries[m].lastUsed <= entries[x].lastUsed;
      var best := if entries[m].lastUsed < entries[k].lastUsed then m else k;
      assert best in keys && forall x | x in keys :: entries[best].lastUsed <= entries[x].lastUsed by {
        forall x | x in keys ensures entries[best].lastUsed <= entries[x].lastUsed {
          if x != k { assert x in rest; }
        }
      }
    }
  }

  /** The same results kept, whatever the clock did to their stamps. */
  ghost predicate SameResults(a: map<Key, Entry>, b: map<Key, Entry>) {
    a.Keys == b.Keys && forall k | k in a :: a[k].ids == b[k].ids && a[k].bytes == b[k].bytes
  }

  /** What is left was there before, and nothing taken was used after anything left. */
  ghost predicate OldestGone(before: map<Key, Entry>, after: map<Key, Entry>) {
    && after.Keys <= before.Keys && (forall k | k in after :: after[k] == before[k])
    && forall gone, kept | gone in before && gone !in after && kept in after ::
         before[gone].lastUsed <= before[kept].lastUsed
  }

  /** The effect of keeping one more result. */
  ghost predicate Keeps(before: map<Key, Entry>, key: Key, ids: seq<nat>, after: map<Key, Entry>) {
    && key in after && after[key].ids == ids
    && (forall k | k in after && k != key :: k in before && after[k].ids == before[k].ids)
    && forall gone, kept | gone in before && gone !in after && kept in after && kept != key ::
         before[gone].lastUsed <= before[kept].lastUsed
  }

  lemma OldestNone(entries: map<Key, Entry>)
    ensures OldestGone(entries, entries)
  {
  }

  lemma OldestMore(before: map<Key, Entry>, after: map<Key, Entry>, oldest: Key)
    requires OldestGone(before, after) && oldest in after
    requires forall x | x in after.Keys :: after[oldest].lastUsed <= after[x].lastUsed
    ensures OldestGone(before, after - {oldest})
  {
  }

  lemma OldestLeft(before: map<Key, Entry>, after: map<Key, Entry>)
    requires OldestGone(before, after)
    ensures after.Keys <= before.Keys
  {
  }

  lemma KeepComposes(before: map<Key, Entry>, key: Key, ids: seq<nat>, mid: map<Key, Entry>, after: map<Key, Entry>)
    requires OldestGone(before - {key}, mid) && after.Keys == mid.Keys + {key} && after[key].ids == ids
    requires forall k | k in mid :: after[k].ids == mid[k].ids
    ensures Keeps(before, key, ids, after)
  {
    var forgot := before - {key};
    forall gone, kept | gone in before && gone !in after && kept in after && kept != key
      ensures before[gone].lastUsed <= before[kept].lastUsed
    {
      assert gone in forgot && gone !in mid && kept in mid;
    }
  }

  class FilterIndexCache {
    var entries: map<Key, Entry>
    var bytes: nat
    var clock: nat
    var hits: nat
    var builds: nat
    var evictions: nat
    var invalidations: nat
    var fallbacks: nat
    var uncached: nat

    /** At most 32 entries and one mebibyte, and the byte counter is their sum. */
    ghost predicate Valid()
      reads this
    {
      && |entries| <= MAX_ENTRIES
      && bytes == Bytes(entries) && bytes <= MAX_BYTES
      && clock < TWO_64 && forall k | k in entries :: entries[k].lastUsed <= clock
    }

    constructor ()
      ensures Valid() && entries == map[]
    {
      entries, bytes, clock := map[], 0, 0;
      hits, builds, evictions, invalidations, fallbacks, uncached := 0, 0, 0, 0, 0, 0;
    }

    /** Wrapping round resets every stamp, so no entry is left ahead of the clock. */
    method NextClock() returns (now: nat)
      requires Valid()
      modifies this`clock, this`entries
      ensures Valid() && SameResults(old(entries), entries) && now == clock
      ensures old(clock) + 1 < TWO_64 ==> entries == old(entries) && clock == old(clock) + 1
    {
      clock := (clock + 1) % TWO_64;
      if clock == 0 {
        clock := 1;
        var stamped := map k | k in entries :: entries[k].(lastUsed := 0);
        BytesSame(entries, stamped);
        assert |stamped.Keys| == |entries.Keys|;
        entries := stamped;
      }
      now := clock;
    }

    method Get(key: Key) returns (found: Option<seq<nat>>)
      requires Valid()
      modifies this
      ensures Valid() && SameResults(old(entries), entries)
      ensures found == if key in old(entries) then Some(old(entries)[key].ids) else None
      ensures key in entries ==> entries[key].lastUsed == clock && hits == old(hits) + 1
    {
      var now := NextClock();
      if key !in entries { return None; }
      var stamped := entries[key := entries[key].(lastUsed := now)];
      BytesSame(entries, stamped);
      assert stamped.Keys == entries.Keys;
      entries := stamped;
      hits := hits + 1;
      return Some(entries[key].ids);
    }

    /** Make room, oldest first. There is always an oldest to take, and afterwards there
        is always room: an empty index fits any entry within the bound. */
    method Evict(size: nat)
      requires bytes == Bytes(entries) && |entries| <= MAX_ENTRIES && size <= MAX_BYTES
      modifies this`entries, this`bytes, this`evictions
      ensures bytes == Bytes(entries) && |entries| < MAX_ENTRIES && bytes + size <= MAX_BYTES
      ensures OldestGone(old(entries), entries)
      ensures |old(entries)| < MAX_ENTRIES && old(bytes) + size <= MAX_BYTES ==> entries == old(entries)
    {
      hide OldestGone;
      OldestNone(entries);
      while |entries| >= MAX_ENTRIES || bytes + size > MAX_BYTES
        invariant bytes == Bytes(entries) && |entries| <= MAX_ENTRIES
        invariant OldestGone(old(entries), entries)
        invariant |old(entries)| < MAX_ENTRIES && old(bytes) + size <= MAX_BYTES ==> entries == old(entries)
        decreases |entries|
      {
        OldestExists(entries, entries.Keys);
        var oldest :| oldest in entries.Keys && forall x | x in entries.Keys :: entries[oldest].lastUsed <= entries[x].lastUsed;
        BytesWithout(entries, oldest);
        OldestMore(old(entries), entries, oldest);
        bytes := bytes - entries[oldest].bytes;
        entries := entries - {oldest};
        evictions := evictions + 1;
      }
    }

    /** Keep a freshly computed result. Oversized ones are not kept; among the rest,
        nothing that is evicted was used after anything that stays. */
    method Insert(key: Key, keyBytes: nat, ids: seq<nat>)
      requires Valid()
      modifies this
      ensures Valid()
      ensures if |ids| <= MAX_IDS && ENTRY_OVERHEAD + keyBytes + 8 * |ids| <= MAX_BYTES
              then Keeps(old(entries), key, ids, entries) && uncached == old(uncached)
              else entries == old(entries) && uncached == old(uncached) + 1
    {
      builds := builds + 1;
      var size := ENTRY_OVERHEAD + keyBytes + |ids| * 8;
      if |ids| > MAX_IDS || size > MAX_BYTES {
        uncached := uncached + 1;
        return;
      }
      hide Bytes, OldestGone, Keeps;
      Forget(key);
      Evict(size);
      OldestLeft(old(entries) - {key}, entries);
      ghost var mid := entries;
      Store(key, size, ids);
      KeepComposes(old(entries), key, ids, mid, entries);
    }

    method Forget(key: Key)
      requires Valid()
      modifies this`entries, this`bytes
      ensures Valid() && entries == old(entries) - {key}
    {
      if key in entries {
        BytesWithout(entries, key);
        bytes := bytes - entries[key].bytes;
        entries := entries - {key};
      }
    }

    method Store(key: Key, size: nat, ids: seq<nat>)
      requires Valid() && key !in entries && |entries| < MAX_ENTRIES && bytes + size <= MAX_BYTES
      modifies this
      ensures Valid() && uncached == old(uncached)
      ensures entries.Keys == old(entries).Keys + {key} && entries[key].ids == ids
      ensures forall k | k in old(entries) :: entries[k].ids == old(entries)[k].ids
    {
      var now := NextClock();
      var more := entries[key := Entry(ids, size, now)];
      BytesWithout(more, key);
      assert more - {key} == entries;
      assert more.Keys == entries.Keys + {key};
      bytes := bytes + size;
      entries := more;
    }

    method Invalidate()
      requires Valid()
      modifies this
      ensures Valid()
      ensures entries == map[] && bytes == 0 && clock == old(clock)
    {
      entries, bytes := map[], 0;
      invalidations := invalidations + 1;
    }

    method Fallback()
      requires Valid()
      modifies this`fallbacks
      ensures Valid() && fallbacks == old(fallbacks) + 1
    {
      fallbacks := fallbacks + 1;
    }
  }
}
