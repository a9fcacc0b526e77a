/** The bounded cache of prebuilt deltas each pool keeps, one per cursor. */
module DeltaCaches {
  import opened Basics
  import opened Protocol

  const CACHE_ENTRIES: nat := 8
  const CACHE_BYTES: nat := 0x20_0000

  datatype Cached = Cached(since: Option<nat>, delta: PoolDelta, bytes: nat)

  function TotalBytes(entries: seq<Cached>): nat {
    if entries == [] then 0 else entries[0].bytes + TotalBytes(entries[1..])
  }

  function DeltasOf(entries: seq<Cached>): seq<PoolDelta> {
    seq(|entries|, i requires 0 <= i < |entries| => entries[i].delta)
  }

  /** No two entries under one cursor. */
  ghost predicate OnePerCursor(entries: seq<Cached>) {
    forall i, j | 0 <= i < j < |entries| :: entries[i].since != entries[j].since
  }

  predicate Holds(entries: seq<Cached>, since: Option<nat>) {
    exists i | 0 <= i < |entries| :: entries[i].since == since
  }

  /** Room for one more entry of this size. */
  predicate Fits(entries: seq<Cached>, bytes: nat) {
    |entries| < CACHE_ENTRIES && TotalBytes(entries) + bytes <= CACHE_BYTES
  }

  lemma {:induction false} TotalBytesAppend(entries: seq<Cached>, e: Cached)
    ensures TotalBytes(entries + [e]) == TotalBytes(entries) + e.bytes
  {
    if entries == [] {
      assert entries + [e] == [e];
    } else {
      TotalBytesAppend(entries[1..], e);
      assert (entries + [e])[1..] == entries[1..] + [e];
    }
  }

  lemma RetireOne(entries: seq<Cached>, k: nat, size: nat)
    requires k < |entries|
    ensures entries[k..][1..] == entries[k + 1..]
    ensures DeltasOf(entries[..k + 1]) == DeltasOf(entries[..k]) + [entries[k..][0].delta]
    ensures TotalBytes(entries[k..]) == entries[k..][0].bytes + TotalBytes(entries[k + 1..])
    ensures |entries[k..]| >= CACHE_ENTRIES || TotalBytes(entries[k..]) + size > CACHE_BYTES ==> !Fits(entries[k..], size)
  {
    assert entries[..k + 1] == entries[..k] + [entries[k]];
  }

  lemma NothingRetired(entries: seq<Cached>)
    ensures DeltasOf(entries[..0]) == [] && entries[0..] == entries
  {
  }

  class DeltaCache {
    var entries: seq<Cached>
    var bytes: nat

    /** The byte counter is the sum over the entries, and both bounds hold. */
    ghost predicate Valid()
      reads this
    {
      && bytes == TotalBytes(entries)
      && |entries| <= CACHE_ENTRIES
      && bytes <= CACHE_BYTES
    }

    constructor ()
      ensures Valid() && entries == []
    {
      entries, bytes := [], 0;
    }

    method Get(since: Option<nat>) returns (found: Option<PoolDelta>)
      ensures found.Some? <==> Holds(entries, since)
      ensures found.Some? ==>
                exists i | 0 <= i < |entries| :: entries[i].since == since && entries[i].delta == found.value &&
                                                 forall j | 0 <= j < i :: entries[j].since != since
    {
      var i := 0;
      while i < |entries|
        invariant 0 <= i <= |entries|
        invariant forall j | 0 <= j < i :: entries[j].since != since
      {
        if entries[i].since == since { return Some(entries[i].delta); }
        i := i + 1;
      }
      return None;
    }

    /** Oldest first out, and no further than needed. An oversized delta is not kept.
        The pop never finds the queue empty: an empty cache has room for anything
        within the byte bound. */
    method Insert(since: Option<nat>, delta: PoolDelta, size: nat) returns (retired: seq<PoolDelta>)
      requires Valid()
      modifies this
      ensures Valid()
      ensures size > CACHE_BYTES ==> entries == old(entries) && retired == []
      ensures size <= CACHE_BYTES ==>
                |retired| <= |old(entries)| &&
                retired == DeltasOf(old(entries)[..|retired|]) &&
                entries == old(entries)[|retired|..] + [Cached(since, delta, size)]
      ensures retired != [] && size <= CACHE_BYTES ==> !Fits(old(entries)[|retired| - 1..], size)
    {
      hide Fits, DeltasOf;
      retired := [];
      if size > CACHE_BYTES { return; }
      NothingRetired(entries);
      while |entries| >= CACHE_ENTRIES || bytes + size > CACHE_BYTES
        invariant |retired| <= |old(entries)|
        invariant entries == old(entries)[|retired|..]
        invariant retired == DeltasOf(old(entries)[..|retired|])
        invariant bytes == TotalBytes(entries)
        invariant |entries| <= CACHE_ENTRIES && bytes <= CACHE_BYTES
        invariant retired != [] ==> !Fits(old(entries)[|retired| - 1..], size)
        decreases |entries|
      {
        var first := entries[0];
        RetireOne(old(entries), |retired|, size);
        entries, bytes := entries[1..], bytes - first.bytes;
        retired := retired + [first.delta];
      }
      TotalBytesAppend(entries, Cached(since, delta, size));
      bytes := bytes + size;
      entries := entries + [Cached(since, delta, size)];
    }

    method Clear() returns (retired: seq<PoolDelta>)
      modifies this
      ensures Valid() && entries == [] && bytes == 0
      ensures retired == DeltasOf(old(entries))
    {
      retired := DeltasOf(entries);
      entries, bytes := [], 0;
    }
  }
}
