/** The registry's pool, updated in place, with its delta cache. */
module Pools {
  import opened Basics
  import opened Protocol
  import opened PoolModel
  import opened DeltaCaches

  /** A delta is about these fields and nothing else: renewing a lease, moving a
      high-water mark or parking a caller leaves every prebuilt answer right. */
  lemma DeltaFrame(p: PoolState, q: PoolState, since: Option<nat>, d: PoolDelta)
    requires IsDelta(p, since, d)
    requires q.version == p.version && q.roster == p.roster && q.log == p.log
    requires q.policy == p.policy && q.methods == p.methods && q.size == p.size
    requires RollOf(q) == RollOf(p)
    ensures IsDelta(q, since, d)
  {
  }

  function RecordCost(r: Record): nat {
    256 + r.stateBytes + (if r.member.url.Some? then 6 * |r.member.url.value| else 0)
  }

  /** What listing these members is reckoned to cost. */
  function ListingCost(members: map<nat, Record>, changed: seq<Member>): nat {
    if changed == [] then 0
    else
      var last := changed[|changed| - 1];
      ListingCost(members, changed[..|changed| - 1]) + if last.id in members then RecordCost(members[last.id]) else 0
  }

  lemma ListedOneMore(members: map<nat, Record>, changed: seq<Member>, m: Member)
    requires m.id in members
    ensures ListingCost(members, changed + [m]) == ListingCost(members, changed) + RecordCost(members[m.id])
  {
    assert (changed + [m])[..|changed|] == changed;
  }

  lemma NobodyListed(members: map<nat, Record>)
    ensures DistinctIds([]) && ChangedIds([]) == {} && ListingCost(members, []) == 0
  {
  }

  function MethodsCost(methods: seq<string>): nat {
    if methods == [] then 0 else MethodsCost(methods[..|methods| - 1]) + 6 * |methods[|methods| - 1]| + 3
  }

  /** What a delta is reckoned to cost when it is cached. */
  function DeltaCost(members: map<nat, Record>, d: PoolDelta): nat {
    256 + 6 * |d.policy| + MethodsCost(d.methods) + ListingCost(members, d.changed) + 21 * |d.removed|
  }

  class Pool {
    var version: nat
    var roster: nat
    var policy: string
    var methods: seq<string>
    var size: Option<nat>
    var members: map<nat, Record>
    var high: map<nat, nat>
    var gone: map<nat, Goodbye>
    var log: seq<Change>
    var waiters: seq<Bell>
    const cache: DeltaCache

    ghost function View(): PoolState
      reads this
    {
      PoolState(version, roster, policy, methods, size, members, high, gone, log, waiters)
    }

    /** Every cached entry is what building it now would give, metadata included. */
    ghost predicate Coherent()
      reads this, cache
    {
      forall i | 0 <= i < |cache.entries| ::
        Cursor(View(), cache.entries[i].since) == cache.entries[i].since &&
        IsDelta(View(), cache.entries[i].since, cache.entries[i].delta)
    }

    ghost predicate Valid()
      reads this, cache
    {
      WellFormed(View()) && cache.Valid() && Coherent() && OnePerCursor(cache.entries)
    }

    constructor ()
      ensures Valid() && fresh(cache) && View() == EMPTY_POOL
    {
      version, roster, policy, methods, size := 0, 0, "", [], None;
      members, high, gone, log, waiters := map[], map[], map[], [], [];
      cache := new DeltaCache();
      new;
      assert RollOf(EMPTY_POOL) == map[];
      assert Occupants(map[]) == {};
    }

    /** Nothing a delta speaks of has moved since `then`, so the cache still holds. */
    twostate lemma CacheStillCoherent()
      requires old(Coherent()) && unchanged(cache)
      requires version == old(version) && roster == old(roster) && log == old(log)
      requires policy == old(policy) && methods == old(methods) && size == old(size)
      requires RollOf(View()) == RollOf(old(View()))
      ensures Coherent()
    {
      forall i | 0 <= i < |cache.entries|
        ensures IsDelta(View(), cache.entries[i].since, cache.entries[i].delta)
      {
        DeltaFrame(old(View()), View(), cache.entries[i].since, cache.entries[i].delta);
      }
    }

    method Bump(id: nat) returns (woken: seq<Bell>)
      requires cache.Valid() && Contiguous(version, log)
      modifies this, cache
      ensures View() == Bumped(old(View()), id)
      ensures cache.Valid() && cache.entries == []
      ensures woken == old(waiters)
    {
      version := version + 1;
      log := log + [Change(version, id)];
      ghost var whole := log;
      while |log| > LOG_CAP
        invariant |log| <= |whole| && log == whole[|whole| - |log|..]
        invariant |whole| > LOG_CAP ==> |log| >= LOG_CAP
        invariant |whole| <= LOG_CAP ==> log == whole
        invariant version == old(version) + 1 && waiters == old(waiters) && cache.Valid()
        invariant roster == old(roster) && policy == old(policy) && methods == old(methods) && size == old(size)
        invariant members == old(members) && high == old(high) && gone == old(gone)
      {
        log := log[1..];
      }
      var _ := cache.Clear();
      woken := waiters;
      waiters := [];
    }

    /** Look up each id the log names after v. */
    method ChangesSince(v: nat) returns (changed: seq<Member>, removed: seq<nat>, bytes: nat)
      requires Contiguous(version, log) && Keyed(members) && v < version && v + 1 >= Oldest(log)
      ensures Sorted(members, TouchedSince(log, v), changed, removed)
      ensures bytes == ListingCost(members, changed) + 21 * |removed|
    {
      hide Sorted, TouchedSince, Contiguous, StrictlyAscending;
      changed, removed, bytes := [], [], 0;
      var ids := LoggedSince(version, log, v);
      var i := 0;
      SortedNothing(members);
      while i < |ids|
        invariant 0 <= i <= |ids|
        invariant Sorted(members, IdSet(ids[..i]), changed, removed)
        invariant bytes == ListingCost(members, changed) + 21 * |removed|
      {
        PrefixGrows(ids, i);
        SortedMore(members, IdSet(ids[..i]), changed, removed, ids[i]);
        if ids[i] in members {
          ListedOneMore(members, changed, members[ids[i]].member);
          bytes := bytes + RecordCost(members[ids[i]]);
          changed := changed + [members[ids[i]].member];
        } else {
          bytes := bytes + 21;
          removed := removed + [ids[i]];
        }
        i := i + 1;
      }
      assert ids[..i] == ids;
      assert IdSet(ids) == TouchedSince(log, v);
    }

    method WholeRoster() returns (changed: seq<Member>, bytes: nat)
      requires Keyed(members)
      ensures DistinctIds(changed) && ChangedIds(changed) == members.Keys
      ensures forall m | m in changed :: m.id in members && m == members[m.id].member
      ensures bytes == ListingCost(members, changed)
    {
      hide DistinctIds, ChangedIds, ListingCost, RecordCost;
      changed, bytes := [], 0;
      NobodyListed(members);
      var left := members.Keys;
      while left != {}
        invariant left <= members.Keys
        invariant DistinctIds(changed) && ChangedIds(changed) == members.Keys - left
        invariant forall m | m in changed :: m.id in members && m == members[m.id].member
        invariant bytes == ListingCost(members, changed)
        decreases left
      {
        var id :| id in left;
        ListedOneMore(members, changed, members[id].member);
        bytes := bytes + RecordCost(members[id]);
        changed := AppendListed(changed, members[id].member);
        left := left - {id};
      }
    }

    /** Builds the answer from scratch: the whole roster, or what the log says. */
    method BuildDelta(since: Option<nat>) returns (d: PoolDelta, bytes: nat)
      requires WellFormed(View()) && Cursor(View(), since) == since
      ensures IsDelta(View(), since, d) && bytes == DeltaCost(members, d)
    {
      var overhead: nat := 256 + 6 * |policy|;
      for i := 0 to |methods|
        invariant overhead == 256 + 6 * |policy| + MethodsCost(methods[..i])
      {
        assert methods[..i + 1][..i] == methods[..i];
        overhead := overhead + 6 * |methods[i]| + 3;
      }
      assert methods[..|methods|] == methods;
      var changed, removed := [], [];
      match since {
        case Some(v) => changed, removed, bytes := ChangesSince(v);
        case None => changed, bytes := WholeRoster();
      }
      bytes := bytes + overhead;
      d := PoolDelta(version, roster, policy, methods, size, changed, removed, since.None?);
      assert RollOf(View()).Keys == members.Keys;
    }

    /** What a watcher at `seen` is told, through the cache: the same as building it. */
    method Delta(seen: Option<nat>) returns (answer: Option<PoolDelta>)
      requires Valid()
      modifies cache
      ensures Valid()
      ensures Answers(View(), seen, answer)
    {
      hide IsDelta, WellFormed, TotalBytes;
      if seen == Some(version) { return None; }
      var since := if seen.Some? && seen.value < version && seen.value + 1 >= Oldest(log) then seen else None;
      var hit := cache.Get(since);
      if hit.Some? { return hit; }
      var d, bytes := BuildDelta(since);
      var _ := cache.Insert(since, d, bytes);
      return Some(d);
    }

    /** The shape belongs to whoever is here now; the first member that serves
        something speaks for a pool that serves nothing yet. */
    method Reshape(b: Beat)
      requires Valid()
      modifies this, cache
      ensures Valid() && View() == Shaped(old(View()), b)
    {
      if members == map[] {
        if policy != b.policy || size != b.size || methods != b.methods {
          var _ := cache.Clear();
          policy, size, methods := b.policy, b.size, b.methods;
        }
      } else if methods == [] && b.methods != [] {
        var _ := cache.Clear();
        methods := b.methods;
      }
      ShapeKeepsWellFormed(old(View()), b);
    }

    method Depart(b: Beat, forgetAt: Time) returns (woken: seq<Bell>)
      requires Valid()
      modifies this, cache
      ensures Valid() && View() == Departed(old(View()), b, forgetAt)
      ensures woken == if b.id in old(members) then old(waiters) else []
    {
      DepartureKeepsRoster(View(), b, forgetAt);
      woken := [];
      if b.id in members {
        var r := members[b.id];
        members := members - {b.id};
        // What is actually stored, not what the beat claims.
        var hash := HashOccupant(r.member.id, r.member.incarnation);
        roster := Xor(roster, hash);
        woken := Bump(b.id);
      }
      gone := gone[b.id := Goodbye(b.incarnation, forgetAt)];
      if woken == [] && b.id !in old(members) {
        assert RollOf(View()) == RollOf(old(View()));
        CacheStillCoherent();
      }
    }

    method Renew(b: Beat, expiresAt: Time) returns (woken: seq<Bell>)
      requires Valid() && Stored(View(), b.id) == Some(b.incarnation)
      modifies this, cache
      ensures Valid() && View() == Renewed(old(View()), b, expiresAt)
      ensures woken == if Republishes(old(members)[b.id], b) then old(waiters) else []
    {
      RenewalKeepsRoster(View(), b, expiresAt);
      woken := [];
      var r := members[b.id].(expiresAt := expiresAt);
      var newer := Newer(r.publication, b.publication);
      var changed := false;
      if newer {
        changed := r.member.url != b.url || r.member.state != b.state || r.member.ready != b.ready;
        r := r.(publication := b.publication);
        if changed {
          r := r.(member := r.member.(url := b.url, state := b.state, ready := b.ready), stateBytes := b.stateBytes);
        }
      }
      members := members[b.id := r];
      if changed {
        woken := Bump(b.id);
      } else {
        assert RollOf(View()) == RollOf(old(View()));
        CacheStillCoherent();
      }
    }

    method Arrive(b: Beat, expiresAt: Time) returns (woken: seq<Bell>)
      requires Valid()
      modifies this, cache
      ensures Valid() && View() == Arrived(old(View()), b, expiresAt)
      ensures woken == old(waiters)
    {
      ArrivalKeepsRoster(View(), b, expiresAt);
      if b.id in members {
        var hash := HashOccupant(members[b.id].member.id, members[b.id].member.incarnation);
        roster := Xor(roster, hash);
        members := members - {b.id};
      }
      var m := Arrival(b);
      var hash := HashOccupant(m.id, m.incarnation);
      roster := Xor(roster, hash);
      members := members[b.id := Record(m, b.publication, expiresAt, b.stateBytes)];
      woken := Bump(b.id);
    }

    /** Raise the seat's high-water mark. */
    method Raise(b: Beat, watermark: nat)
      requires Valid()
      modifies this
      ensures Valid() && View() == Raised(old(View()), b, watermark)
    {
      if b.slot.Some? && b.incarnation > watermark {
        high := high[b.id := b.incarnation];
        assert RollOf(View()) == RollOf(old(View()));
        CacheStillCoherent();
        WellFormedFields(old(View()), View());
      }
    }

    method Act(b: Beat, deadline: Time) returns (woken: seq<Bell>)
      requires Valid()
      modifies this, cache
      ensures Valid() && View() == Acted(old(View()), b, deadline)
      ensures woken == if version == old(version) then [] else old(waiters)
    {
      if b.leaving {
        woken := Depart(b, deadline);
      } else if b.id in members && members[b.id].member.incarnation == b.incarnation {
        woken := Renew(b, deadline);
      } else {
        woken := Arrive(b, deadline);
      }
    }

    /** What a beat does to the pool it names. */
    method TakeBeat(b: Beat, deadline: Time) returns (accepted: bool, refused: bool, woken: seq<Bell>)
      requires Valid() && Admissible(b)
      modifies this, cache
      ensures Valid() && View() == OnBeat(old(View()), b, deadline)
      ensures accepted == Accepts(old(View()), b)
      ensures refused == Misshapen(old(View()), b)
      ensures woken == if version == old(version) then [] else old(waiters)
    {
      hide Acted;
      accepted, refused, woken := false, false, [];
      if members != map[] && (policy != b.policy || (b.size.Some? && size != b.size)) {
        return false, true, [];
      }
      Reshape(b);
      ShapeKeepsSeats(old(View()), b);
      var superseded, watermark := Judge(b);
      if superseded { return; }
      accepted := true;
      woken := Act(b, deadline);
      Raise(b, watermark);
    }

    /** Is this a ghost: does a later tenure hold the seat, or did it hold it and
        leave, or is somebody there while the beat asks for a free one? */
    method Judge(b: Beat) returns (superseded: bool, watermark: nat)
      ensures superseded == Superseded(View(), b) && watermark == Watermark(View(), b.id)
    {
      var stored := if b.id in members then Some(members[b.id].member.incarnation) else None;
      watermark := if b.id in high then high[b.id] else 0;
      var straggler := !b.leaving && b.id in gone && b.incarnation <= gone[b.id].tenure;
      var occupied := b.exclusive && stored.Some? && stored.value != b.incarnation;
      superseded := occupied || straggler || b.incarnation < watermark
        || (stored.Some? && stored.value > b.incarnation);
    }

    method DropMember(id: nat) returns (woken: seq<Bell>)
      requires Valid() && id in members
      modifies this, cache
      ensures Valid() && View() == Bumped(Without(old(View()), id), id)
      ensures woken == old(waiters)
    {
      WithoutKeepsRoster(View(), id);
      BumpKeepsWellFormed(Without(View(), id), id);
      var hash := HashOccupant(members[id].member.id, members[id].member.incarnation);
      roster := Xor(roster, hash);
      members := members - {id};
      woken := Bump(id);
    }

    /** Goodbyes whose lease would have run out by now, and callers that went away. */
    method Tidy(now: Time, alive: set<Bell>)
      requires Valid()
      modifies this
      ensures Valid() && View() == Tidied(old(View()), now, alive)
    {
      gone := map id | id in gone && gone[id].forgetAt > now :: gone[id];
      waiters := Rung(waiters, alive);
      assert RollOf(View()) == RollOf(old(View()));
      CacheStillCoherent();
      WellFormedFields(old(View()), View());
    }

    /** Drop every member whose lease has run out, in whatever order the table
        yields them. */
    method Sweep(now: Time, alive: set<Bell>)
      returns (dropped: nat, woken: seq<Bell>, ghost order: seq<nat>)
      requires Valid()
      modifies this, cache
      ensures Valid() && View() == Swept(old(View()), now, alive, order)
      ensures Lists(order, Expired(old(View()), now)) && dropped == |order|
      ensures woken == if order == [] then [] else Rung(old(waiters), alive)
    {
      Tidy(now, alive);
      ghost var start := View();
      dropped, woken, order := 0, [], [];
      var dead := set id | id in members && members[id].expiresAt <= now;
      ghost var all := dead;
      while dead != {}
        invariant Valid() && dead <= members.Keys
        invariant View() == Dropped(start, order)
        invariant dead <= all && Lists(order, all - dead)
        invariant dropped == |order|
        invariant woken == if order == [] then [] else start.waiters
        invariant waiters == if order == [] then start.waiters else []
        decreases dead
      {
        var id :| id in dead;
        DroppedAppend(start, order, id);
        ListsAppend(order, all - dead, id);
        assert all - (dead - {id}) == all - dead + {id};
        var rung := DropMember(id);
        woken := woken + rung;
        dropped, order, dead := dropped + 1, order + [id], dead - {id};
      }
      assert all - dead == all == Expired(old(View()), now);
    }

    lemma BellsShown()
      ensures View().waiters == waiters
    {
    }

    /** Park a caller's bell here, to be rung when the pool moves. */
    method Park(bell: Bell)
      requires Valid()
      modifies this
      ensures Valid() && View() == old(View()).(waiters := old(waiters) + [bell])
    {
      waiters := waiters + [bell];
      assert RollOf(View()) == RollOf(old(View()));
      CacheStillCoherent();
      WellFormedFields(old(View()), View());
    }
  }

  /** Taking on a shape does not change who holds what. */
  lemma ShapeKeepsSeats(p: PoolState, b: Beat)
    ensures Superseded(Shaped(p, b), b) == Superseded(p, b)
    ensures Watermark(Shaped(p, b), b.id) == Watermark(p, b.id)
    ensures Shaped(p, b).version == p.version && Shaped(p, b).waiters == p.waiters
  {
  }

  lemma {:induction false} DroppedAppend(p: PoolState, order: seq<nat>, id: nat)
    requires id in Dropped(p, order).members
    ensures Dropped(p, order + [id]) == Bumped(Without(Dropped(p, order), id), id)
    decreases |order|
  {
    if order == [] {
      assert order + [id] == [id];
    } else {
      assert (order + [id])[1..] == order[1..] + [id];
      var q := if order[0] in p.members then Bumped(Without(p, order[0]), order[0]) else p;
      DroppedAppend(q, order[1..], id);
    }
  }

  /** The ids logged after v, sorted and without repeats, read off the tail of the
      log at an index found by arithmetic. */
  function LoggedSince(version: nat, log: seq<Change>, v: nat): (ids: seq<nat>)
    requires Contiguous(version, log) && v < version && v + 1 >= Oldest(log)
    ensures ListsSet(ids, TouchedSince(log, v))
  {
    FastScanIsFullScan(version, log, v);
    Ascending(set c | c in log[v + 1 - Oldest(log)..] :: c.id)
  }

  lemma PrefixGrows(ids: seq<nat>, i: nat)
    requires i < |ids|
    ensures IdSet(ids[..i + 1]) == IdSet(ids[..i]) + {ids[i]}
    ensures StrictlyAscending(ids) ==> forall x | x in IdSet(ids[..i]) :: x < ids[i]
  {
    assert ids[..i + 1] == ids[..i] + [ids[i]];
  }

  /** The ids in `done`, each looked up: present ones with their record, the rest as
      removed, both sorted. */
  ghost predicate Sorted(members: map<nat, Record>, done: set<nat>, changed: seq<Member>, removed: seq<nat>) {
    && AscendingIds(changed) && ChangedIds(changed) == done * members.Keys
    && (forall m | m in changed :: m.id in members && m == members[m.id].member)
    && StrictlyAscending(removed) && IdSet(removed) == done - members.Keys
  }

  lemma SortedNothing(members: map<nat, Record>)
    ensures Sorted(members, IdSet([]), [], [])
  {
  }

  lemma SortedMore(members: map<nat, Record>, done: set<nat>, changed: seq<Member>, removed: seq<nat>, id: nat)
    requires Sorted(members, done, changed, removed) && Keyed(members) && forall x | x in done :: x < id
    ensures id in members ==> Sorted(members, done + {id}, changed + [members[id].member], removed)
    ensures id !in members ==> Sorted(members, done + {id}, changed, removed + [id])
  {
    if id in members {
      var more := changed + [members[id].member];
      forall i | 0 <= i < |changed| ensures changed[i].id < id { assert changed[i].id in ChangedIds(changed); }
      assert ChangedIds(more) == ChangedIds(changed) + {id};
    } else {
      forall i | 0 <= i < |removed| ensures removed[i] < id { assert removed[i] in IdSet(removed); }
      assert IdSet(removed + [id]) == IdSet(removed) + {id};
    }
  }

  function AppendListed(changed: seq<Member>, m: Member): (r: seq<Member>)
    requires DistinctIds(changed) && m.id !in ChangedIds(changed)
    ensures r == changed + [m] && DistinctIds(r) && ChangedIds(r) == ChangedIds(changed) + {m.id}
  {
    assert forall i | 0 <= i < |changed| :: changed[i].id in ChangedIds(changed);
    changed + [m]
  }
}
