/** What the beat loop and its callers share: the cache, the fencing flag, and which
    registry process the cache came from. */
module SharedState {
  import opened Basics
  import opened Values
  import opened Protocol
  import opened Replicas
  import opened CachedPools
  import opened Publications

  /** Only some of the deltas merged so far. */
  function Restricted(pools: map<Name, PoolDelta>, done: set<Name>): map<Name, PoolDelta> {
    map n | n in pools && n in done :: pools[n]
  }

  lemma MergedAt(cache: Cache, restarted: bool, pools: map<Name, PoolDelta>, n: Name)
    ensures n in Merged(cache, restarted, pools) <==> n in cache || (n in pools && Takes(cache, restarted, n, pools[n]))
    ensures n in Merged(cache, restarted, pools) ==>
              Merged(cache, restarted, pools)[n] ==
              if n in pools && Takes(cache, restarted, n, pools[n]) then Updated(EntryOf(cache, n), pools[n]) else cache[n]
  {
    hide Updated, Takes;
  }

  /** Each delta concerns its own pool only. */
  lemma MergeOne(cache: Cache, restarted: bool, pools: map<Name, PoolDelta>, done: set<Name>, n: Name)
    requires n in pools && n !in done
    ensures var before := Merged(cache, restarted, Restricted(pools, done));
            var after := Merged(cache, restarted, Restricted(pools, done + {n}));
            && (n in before <==> n in cache) && (n in before ==> before[n] == cache[n])
            && after == if Takes(cache, restarted, n, pools[n])
                        then before[n := Updated(EntryOf(cache, n), pools[n])] else before
  {
    hide Updated, Takes, Merged, EntryOf;
    var some, more := Restricted(pools, done), Restricted(pools, done + {n});
    var before, after := Merged(cache, restarted, some), Merged(cache, restarted, more);
    var expected := if Takes(cache, restarted, n, pools[n])
                    then before[n := Updated(EntryOf(cache, n), pools[n])] else before;
    MergedAt(cache, restarted, some, n);
    forall m ensures (m in after <==> m in expected) && (m in after ==> after[m] == expected[m]) {
      MergedAt(cache, restarted, some, m);
      MergedAt(cache, restarted, more, m);
      assert m != n ==> (m in some <==> m in more) && (m in some ==> some[m] == more[m]);
    }
    assert after == expected;
  }

  lemma MergeNone(cache: Cache, restarted: bool, pools: map<Name, PoolDelta>)
    ensures Merged(cache, restarted, Restricted(pools, {})) == cache
    ensures Restricted(pools, pools.Keys) == pools
  {
  }

  class Shared {
    const pool: Name
    const id: nat
    const slot: Option<nat>
    const incarnation: nat
    const policy: string
    const size: Option<nat>
    const methods: seq<string>
    const exclusive: bool
    const encode: seq<Member> -> seq<nat>
    const hash: (seq<Member>, seq<string>) -> nat
    const stateLength: Value -> nat
    const published: Published
    var watch: seq<Name>
    var leaving: bool
    var cache: map<Name, CachedPool>
    var seenEpoch: nat
    var accepted: bool
    var refused: bool
    var confirmed: nat
    var holdMs: nat
    var intervalMs: nat

    ghost function Repr(): set<object>
      reads this`cache
    {
      (set n | n in cache :: cache[n] as object) + (set n | n in cache :: cache[n].index as object)
    }

    ghost predicate Separate()
      reads this`cache
    {
      forall m, n | m in cache && n in cache && m != n :: cache[m] != cache[n] && cache[m].index != cache[n].index
    }

    ghost predicate Valid()
      reads this`cache, Repr()
    {
      Separate() && forall n | n in cache :: cache[n].Valid()
    }

    ghost function CacheView(): Cache
      reads this`cache, Repr()
    {
      map n | n in cache :: cache[n].View()
    }

    ghost function View(): ClientState
      reads this, Repr()
    {
      ClientState(CacheView(), seenEpoch, accepted, refused)
    }

    constructor (pool: Name, id: nat, slot: Option<nat>, incarnation: nat, policy: string, size: Option<nat>,
                 methods: seq<string>, url: Option<string>, exclusive: bool, encode: seq<Member> -> seq<nat>,
                 hash: (seq<Member>, seq<string>) -> nat, stateLength: Value -> nat)
      ensures Valid() && View() == NEW_CLIENT && published.Valid() && confirmed == 0 && holdMs == 0
    {
      this.pool, this.id, this.slot, this.incarnation, this.policy := pool, id, slot, incarnation, policy;
      this.size, this.methods, this.exclusive := size, methods, exclusive;
      this.encode, this.hash, this.stateLength := encode, hash, stateLength;
      published := new Published(url);
      watch, leaving, cache := [], false, map[];
      seenEpoch, accepted, refused, confirmed, holdMs, intervalMs := 0, true, false, 0, 0, 1000;
    }

    lemma AtName(name: Name)
      requires Valid() && name in cache
      ensures cache[name].Valid() && CacheView().Keys == cache.Keys && CacheView()[name] == cache[name].View()
      ensures forall n | n in cache && n != name :: cache[n] != cache[name] && cache[n].index != cache[name].index
    {
    }

    lemma KeysOf()
      ensures CacheView().Keys == cache.Keys
    {
    }

    /** Cached pools share nothing. */
    twostate lemma OthersUntouched(name: Name)
      requires old(Valid()) && cache == old(cache) && name in cache && cache[name].Valid()
      requires forall n | n in cache && n != name :: unchanged(cache[n]) && unchanged(cache[n].index)
      ensures Valid() && CacheView() == old(CacheView())[name := cache[name].View()]
    {
      hide CachedPool.Valid, CachedPool.View;
      forall n | n in cache && n != name ensures cache[n].Valid() && cache[n].View() == old(cache[n].View()) {
        assert old(cache[n].Valid());
      }
    }

    /** A beat: everything this member says about itself, under the number that names
        it, and the version of every watched pool it holds. */
    method Compose() returns (beat: Beat, showing: nat)
      requires Valid() && published.Valid()
      ensures beat.seen == SeenOf(CacheView(), watch) && beat.watch == watch
      ensures beat.publication == Some(showing) && showing + 1 == |published.named|
      ensures Carried(beat) == published.named[showing]
      ensures beat.pool == pool && beat.id == id && beat.slot == slot && beat.incarnation == incarnation
      ensures beat.policy == policy && beat.size == size && beat.methods == methods && beat.exclusive == exclusive
      ensures beat.leaving == leaving && beat.holdMs == holdMs && beat.stateBytes == stateLength(beat.state)
    {
      hide CachedPool.Valid;
      var shown: Payload;
      shown, showing := published.Show();
      var seen := map n | n in watch && n in cache :: cache[n].version;
      assert seen == SeenOf(CacheView(), watch);
      beat := Beat(pool, slot, id, incarnation, Some(showing), policy, size, shown.url, shown.state, stateLength(shown.state),
                   shown.ready, leaving, exclusive, methods, watch, seen, holdMs);
    }

    twostate predicate NameAdded(name: Name)
      reads this`cache
    {
      && name !in old(cache) && name in cache && cache == old(cache)[name := cache[name]]
      && fresh(cache[name]) && fresh(cache[name].index)
    }

    twostate lemma AddedSeparate(name: Name)
      requires old(Separate()) && NameAdded(name)
      ensures Separate()
    {
    }

    twostate lemma AddedRepr(name: Name)
      requires NameAdded(name)
      ensures Repr() == old(Repr()) + {cache[name], cache[name].index}
    {
      assert forall n | n in old(cache) :: cache[n] == old(cache)[n];
    }

    /** A new name is a new object, and nothing else moved. */
    twostate lemma Added(name: Name)
      requires old(Valid()) && NameAdded(name) && cache[name].Valid()
      requires forall n | n in old(cache) :: unchanged(cache[n]) && unchanged(cache[n].index)
      ensures Valid() && CacheView() == old(CacheView())[name := cache[name].View()]
      ensures fresh(Repr() - old(Repr()))
    {
      hide CachedPool.Valid, CachedPool.View, Separate, Repr;
      AddedSeparate(name);
      AddedRepr(name);
      forall n | n in old(cache) ensures cache[n].Valid() && cache[n].View() == old(cache[n].View()) {
        assert old(cache[n].Valid());
      }
    }

    method Entry(name: Name) returns (c: CachedPool)
      requires Valid()
      modifies this`cache
      ensures Valid() && name in cache && cache[name] == c
      ensures CacheView() == old(CacheView())[name := EntryOf(old(CacheView()), name)]
      ensures fresh(Repr() - old(Repr()))
    {
      hide CachedPool.Valid, CachedPool.View, Shared.Valid, Shared.CacheView;
      KeysOf();
      if name !in cache {
        c := new CachedPool(encode, hash);
        label made:
        cache := cache[name := c];
        Added(name);
      } else {
        c := cache[name];
      }
    }

    /** One delta of an acknowledgement. */
    method Take(name: Name, d: PoolDelta, restarted: bool) returns (taken: bool)
      requires Valid()
      modifies this`cache, Repr()
      ensures Valid() && fresh(Repr() - old(Repr()))
      ensures taken == Takes(old(CacheView()), restarted, name, d)
      ensures CacheView() == if taken then old(CacheView())[name := Updated(EntryOf(old(CacheView()), name), d)]
                             else old(CacheView())
    {
      hide CachedPool.Valid, CachedPool.View, Shared.Valid, Shared.CacheView, Updated;
      if restarted && !d.full { return false; }
      var c := Entry(name);
      var held := VersionOf(name);
      if d.version < held {
        assert CacheView() == old(CacheView());
        return false;
      }
      Update(name, d);
      return true;
    }

    method VersionOf(name: Name) returns (v: nat)
      requires Valid() && name in cache
      ensures name in CacheView() && v == CacheView()[name].version
    {
      hide CachedPool.Valid;
      AtName(name);
      v := cache[name].version;
    }

    method Update(name: Name, d: PoolDelta)
      requires Valid() && name in cache
      modifies Repr()
      ensures Valid() && cache == old(cache)
      ensures name in old(CacheView()) && CacheView() == old(CacheView())[name := Updated(old(CacheView())[name], d)]
    {
      hide CachedPool.Valid, CachedPool.View, Shared.Valid, Shared.CacheView, Updated;
      AtName(name);
      label before:
      cache[name].Apply(d);
      OthersUntouched@before(name);
    }

    method TakeAll(pools: map<Name, PoolDelta>, restarted: bool) returns (changed: bool)
      requires Valid()
      modifies this`cache, Repr()
      ensures Valid() && fresh(Repr() - old(Repr()))
      ensures CacheView() == Merged(old(CacheView()), restarted, pools)
      ensures changed <==> exists n | n in pools :: Takes(old(CacheView()), restarted, n, pools[n])
    {
      hide CachedPool.Valid, Shared.Valid, Shared.CacheView, Updated, Merged, Takes;
      changed := false;
      var left := pools.Keys;
      ghost var start := CacheView();
      MergeNone(start, restarted, pools);
      while left != {}
        invariant left <= pools.Keys && Valid() && fresh(Repr() - old(Repr()))
        invariant CacheView() == Merged(start, restarted, Restricted(pools, pools.Keys - left))
        invariant changed <==> exists n | n in pools.Keys - left :: Takes(start, restarted, n, pools[n])
        decreases left
      {
        var n :| n in left;
        var done := pools.Keys - left;
        MergeOne(start, restarted, pools, done, n);
        TakesAgree(start, CacheView(), restarted, n, pools[n]);
        var taken := Take(n, pools[n], restarted);
        assert pools.Keys - (left - {n}) == done + {n};
        changed := changed || taken;
        left := left - {n};
      }
      assert pools.Keys - left == pools.Keys;
    }

    /** A restarted registry counts from zero again: nothing cached means anything. */
    method NoteEpoch(epoch: nat) returns (restarted: bool, emptied: bool)
      requires Valid()
      modifies this`cache, this`seenEpoch
      ensures Valid() && fresh(Repr() - old(Repr())) && seenEpoch == epoch
      ensures restarted == (old(seenEpoch) != 0 && old(seenEpoch) != epoch)
      ensures CacheView() == if restarted then map[] else old(CacheView())
      ensures emptied == (restarted && old(CacheView()) != map[])
    {
      hide CachedPool.Valid, CachedPool.View, Shared.CacheView;
      ViewEmpty();
      var previous := seenEpoch;
      seenEpoch := epoch;
      restarted := previous != 0 && previous != epoch;
      emptied := restarted && cache != map[];
      if restarted {
        cache := map[];
        ViewEmpty();
      }
    }

    /** Apply an acknowledgement. `alive` is false once the seat is lost; `changed` says
        whether waiters must look again. */
    method Apply(ack: BeatAck) returns (alive: bool, changed: bool)
      requires Valid()
      modifies this`cache, this`seenEpoch, this`accepted, this`refused, Repr()
      ensures Valid() && fresh(Repr() - old(Repr()))
      ensures View() == Applied(old(View()), ack)
      ensures alive == ack.accepted && changed == Stirs(old(View()), ack)
    {
      hide CachedPool.Valid, Merged, Takes, CachedPool.View, Shared.CacheView, Shared.Valid;
      var restarted, emptied := NoteEpoch(ack.epoch);
      if !ack.accepted {
        changed := emptied || accepted;
        accepted, refused := false, refused || ack.refused;
        return false, changed;
      }
      var taken := TakeAll(ack.pools, restarted);
      return true, emptied || taken;
    }

    lemma ViewEmpty()
      ensures CacheView() == map[] <==> cache == map[]
    {
      KeysOf();
      assert CacheView() == map[] <==> CacheView().Keys == {};
    }

    /** What the loop does with the reply to a beat that showed publication `showing`: beat
        every quarter lease from now on, and ask to be held that long. */
    method TakeReply(ack: BeatAck, showing: nat) returns (alive: bool, changed: bool)
      requires Valid()
      modifies this`cache, this`seenEpoch, this`accepted, this`refused, this`confirmed, this`intervalMs, this`holdMs, Repr()
      ensures Valid() && fresh(Repr() - old(Repr()))
      ensures intervalMs == ack.ttlMs / 4 && holdMs == Clamp(ack.ttlMs / 4, 50, 30_000)
      ensures View() == Applied(old(View()), ack) && confirmed == Confirming(old(confirmed), ack.accepted, Some(showing))
      ensures alive == ack.accepted && changed == Stirs(old(View()), ack)
    {
      hide CachedPool.Valid, Shared.Valid, Shared.CacheView, Applied, Stirs;
      alive, changed := Apply(ack);
      intervalMs, holdMs := ack.ttlMs / 4, Clamp(ack.ttlMs / 4, 50, 30_000);
      if alive { confirmed := Max(confirmed, showing); }
    }
  }

  lemma TakesAgree(a: Cache, b: Cache, restarted: bool, n: Name, d: PoolDelta)
    requires n in a <==> n in b
    requires n in a ==> a[n] == b[n]
    ensures Takes(a, restarted, n, d) == Takes(b, restarted, n, d) && EntryOf(a, n) == EntryOf(b, n)
  {
  }
}
