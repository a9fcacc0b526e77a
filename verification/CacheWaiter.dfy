/** The waiter itself: one look at the cache, and a wait that looks again after every
    ring. */
module CacheWaiters {
  import opened Basics
  import opened Values
  import opened Protocol
  import opened Replicas
  import opened CachedPools
  import opened Identities
  import opened SharedState
  import opened Epochs
  import opened Waiting

  /** What a look finds, and what is reported with it: how many members the pool has and at
      which version. */
  datatype Look = Look(status: Status, view: Option<FrozenPool>, matched: nat)

  datatype WaitResult = WaitResult(look: Look, total: nat, version: nat)

  /** What happens around one look: acknowledgements applied before it, whether somebody
      closed the waiter before it, and whether the deadline had passed before it or only by
      the end of it. */
  datatype Wakeup = Wakeup(acks: seq<BeatAck>, closing: bool, overdue: bool, expired: bool)

  ghost function MatchedBy(c: Condition, pool: Name, cache: Cache): nat {
    match c
    case Count(filter, _) => if pool in cache then |ScanOf(cache[pool].roll, filter, true)| else 0
    case Departure(_) => if Satisfied(c, pool, cache) then 0 else 1
    case Replacement(slot, baseline) =>
      if pool !in cache then 0
      else if baseline.Capture? then if Holder(cache[pool].roll, slot).Some? then 1 else 0
      else if Satisfied(c, pool, cache) then 1 else 0
  }

  /** What a look finds: exactly whether the condition holds, how many matched, and the view
      that goes with it, of everyone who matched a count or of the whole pool after a
      replacement. */
  ghost predicate Sees(c: Condition, pool: Name, cache: Cache, r: Look) {
    && r.status == (if Satisfied(c, pool, cache) then Ready else Pending) && r.matched == MatchedBy(c, pool, cache)
    && (r.view.Some? <==> r.status == Ready && !c.Departure?)
    && (r.view.Some? ==>
          pool in cache && r.view.value.version == cache[pool].version && r.view.value.roster == cache[pool].roster &&
          var roll := cache[pool].roll;
          if c.Count?
          then (forall id | id in ScanOf(roll, c.filter, true) :: id in roll) &&
               Freezes(MembersOf(roll, ScanOf(roll, c.filter, true)), r.view.value.members)
          else Freezes(ListOf(roll, false), r.view.value.members))
  }

  /** What is said of the pool beside it. */
  ghost predicate Measures(pool: Name, cache: Cache, total: nat, version: nat) {
    if pool in cache then total == |IdsOf(cache[pool].roll, false)| && version == cache[pool].version
    else total == 0 && version == 0
  }

  /** A result that only carries a status. */
  function Bare(status: Status): Look { Look(status, None, 0) }

  /** The full result of a look, or the bare one of a status that is not a look's. */
  ghost predicate Results(status: Status, c: Condition, pool: Name, cache: Cache, r: WaitResult) {
    && r.look.status == status && Measures(pool, cache, r.total, r.version)
    && if status == Ready || status == Pending then Sees(c, pool, cache, r.look) else r.look == Bare(status)
  }

  /** What one pass over a view answers: closed first; fenced before looking on every pass
      but the first, where a satisfied condition still counts. */
  ghost function Answer(closed: bool, initial: bool, c: ClientState, condition: Condition, pool: Name): Status {
    if closed then Closed
    else if !initial && !c.accepted then Fenced
    else if Satisfied(condition, pool, c.cache) then Ready
    else if !c.accepted then Fenced
    else Pending
  }

  /** What one pass of a wait answers. Past the first, a deadline gone by is noticed before
      the cache is: such a wait times out even if the condition has come true. */
  ghost function PassAnswer(closed: bool, initial: bool, overdue: bool, c: ClientState, condition: Condition,
                            pool: Name): Status
  {
    if !closed && !initial && c.accepted && overdue then Timeout else Answer(closed, initial, c, condition, pool)
  }

  // -------------------------------------------------------------- what the answers mean

  /** Who is ready and has what the filter asks for. */
  function Fitting(roll: Roll, filter: Value): set<nat> {
    set k | k in roll && roll[k].ready && Matches(roll[k].state, filter)
  }

  /** A count is reached exactly when the pool is known and enough of its members are ready
      and match; the look says how many do, and shows exactly those. */
  lemma CountLook(filter: Value, target: int, pool: Name, cache: Cache, r: Look)
    requires Sees(Count(filter, target), pool, cache, r)
    ensures r.status == (if pool in cache && |Fitting(cache[pool].roll, filter)| >= target then Ready else Pending)
    ensures r.matched == if pool in cache then |Fitting(cache[pool].roll, filter)| else 0
    ensures r.status == Ready && WellKeyed(cache[pool].roll) ==>
              r.view.Some? && ChangedIds(r.view.value.members.members) == Fitting(cache[pool].roll, filter)
  {
    hide Matches, FreezesIds, FreezesSlots;
    if pool in cache {
      var roll := cache[pool].roll;
      var ids := ScanOf(roll, filter, true);
      assert MatchingSet(roll, filter, true) == Fitting(roll, filter);
      if r.status == Ready && WellKeyed(roll) { ListedIds(roll, ids); }
    }
  }

  lemma ListedIds(roll: Roll, ids: seq<nat>)
    requires WellKeyed(roll) && forall id | id in ids :: id in roll
    ensures ChangedIds(MembersOf(roll, ids)) == IdSet(ids)
  {
    var members := MembersOf(roll, ids);
    forall k | k in IdSet(ids) ensures k in ChangedIds(members) {
      var i :| 0 <= i < |ids| && ids[i] == k;
      assert members[i] in members && members[i].id == k;
    }
  }

  /** A member has departed exactly when the pool is known and nobody in it has that key and
      that tenure. What no member's identity reads as has departed from the start. */
  lemma DepartureLook(identity: string, pool: Name, cache: Cache, r: Look)
    requires Sees(Departure(identity), pool, cache, r)
    ensures var there := pool in cache && exists k | k in cache[pool].roll ::
                           IdentityParts(identity) ==
                           Some(Parts(pool, KeyOfMember(cache[pool].roll[k]), cache[pool].roll[k].incarnation));
            r.status == (if pool in cache && !there then Ready else Pending) &&
            r.matched == (if pool in cache && !there then 0 else 1) && r.view.None?
  {
    hide IdentityParts;
  }

  lemma DepartedMember(m: Member, pool: Name, cache: Cache, r: Look)
    requires Sees(Departure(MemberIdentity(pool, m)), pool, cache, r)
    ensures r.status == Ready <==>
            pool in cache && forall k | k in cache[pool].roll && Fits64(m) ::
              KeyOfMember(cache[pool].roll[k]) != KeyOfMember(m) || cache[pool].roll[k].incarnation != m.incarnation
  {
    hide MemberIdentity, IdentityMatches;
    if pool in cache {
      forall k | k in cache[pool].roll
        ensures IdentityMatches(pool, cache[pool].roll[k], MemberIdentity(pool, m)) <==>
                Fits64(m) && KeyOfMember(cache[pool].roll[k]) == KeyOfMember(m) &&
                cache[pool].roll[k].incarnation == m.incarnation
      {
        IdentityNamesOne(pool, m, pool, cache[pool].roll[k]);
      }
    }
  }

  /** A replacement wait that has still to capture whom it watches finds nothing but whether
      the seat is taken; one that has, finds a replacement or nothing, and shows the pool. */
  lemma ReplacementLook(slot: nat, baseline: Baseline, pool: Name, cache: Cache, r: Look)
    requires Sees(Replacement(slot, baseline), pool, cache, r)
    ensures baseline.Capture? ==>
              r.status == Pending && r.view.None? &&
              r.matched == if pool in cache && exists k | k in cache[pool].roll :: cache[pool].roll[k].slot == Some(slot)
                           then 1 else 0
    ensures baseline.Watching? ==> r.matched == (if r.status == Ready then 1 else 0) && (r.status == Ready <==> r.view.Some?)
    ensures r.status == Ready && WellKeyed(cache[pool].roll) ==>
              r.view.Some? && ChangedIds(r.view.value.members.members) == cache[pool].roll.Keys
  {
    hide IdentityMatches, FreezesIds, FreezesSlots;
    if pool in cache {
      var roll := cache[pool].roll;
      assert Sitting(roll, slot) == {} <==> !exists k | k in roll :: roll[k].slot == Some(slot) by {
        if k :| k in roll && roll[k].slot == Some(slot) { assert k in Sitting(roll, slot); }
      }
      if r.status == Ready && WellKeyed(roll) {
        EveryoneListed(roll);
        ListedIdsArePresent(roll, Null, false);
        ListedIds(roll, IdsOf(roll, false));
      }
    }
  }

  /** The measure that goes with it is of the whole pool, ready or not. */
  lemma MeasureIsWhole(pool: Name, cache: Cache, total: nat, version: nat)
    requires Measures(pool, cache, total, version)
    ensures total == (if pool in cache then |cache[pool].roll| else 0)
    ensures version == if pool in cache then cache[pool].version else 0
  {
    if pool in cache { EveryoneListed(cache[pool].roll); }
  }

  /** Past its first look an overdue wait never reports that it is ready; the first look pays
      no heed to the time. */
  lemma LateIsNotReady(closed: bool, initial: bool, overdue: bool, c: ClientState, condition: Condition, pool: Name)
    ensures var answer := PassAnswer(closed, initial, overdue, c, condition, pool);
            && (answer == Ready ==> !closed && (initial || (c.accepted && !overdue)) && Satisfied(condition, pool, c.cache))
            && (initial && !closed && Satisfied(condition, pool, c.cache) ==> answer == Ready)
            && (answer == Timeout <==> !closed && !initial && c.accepted && overdue)
            && (answer == Fenced ==> !c.accepted) && (answer == Closed <==> closed)
  {
    hide Satisfied;
  }

  /** What one pass answers is where the steps of the interleaved wait take a waiter that
      nobody interferes with: `h` to `k`, by way of `a` and `b` as far as they go. */
  lemma PassAlone(h: Hub, a: Hub, b: Hub, k: Hub, w: nat)
    requires w in h.waiters && h.waiters[w].place.AtClosed? && Next(h, ReadClosed(w), a) && w in a.waiters
    requires if a.waiters[w].place.Done? then b == a
             else Next(a, if h.waiters[w].initial then Observe(w) else ReadAccepted(w), b)
    requires w in b.waiters && if b.waiters[w].place.Done? then k == b
             else Next(b, if h.waiters[w].initial then ReadAccepted(w) else Observe(w), k)
    ensures var x := h.waiters[w];
            var answer := Answer(x.closed, x.initial, h.client, x.condition, x.pool);
            w in k.waiters && k.waiters[w].place == if answer == Pending then AtSleep else Done(answer)
  {
    hide Satisfied, Observed;
  }

  // ------------------------------------------------------------------------ turn by turn

  /** Everything applied before turn n, in order. */
  function Before(schedule: seq<Wakeup>, n: nat): seq<BeatAck>
    requires n <= |schedule|
  {
    if n == 0 then [] else Before(schedule, n - 1) + schedule[n - 1].acks
  }

  /** The view a wait looks at in turn i. */
  function ViewAt(c: ClientState, schedule: seq<Wakeup>, i: nat): ClientState
    requires i < |schedule|
  {
    AppliedAll(c, Before(schedule, i + 1))
  }

  /** The condition as it stands before the look of turn n: as given, or with the baseline an
      earlier look captured. */
  function AskedAt(given: Condition, pool: Name, c: ClientState, schedule: seq<Wakeup>, n: nat): Condition
    requires n <= |schedule|
  {
    if n == 0 then given else Observed(AskedAt(given, pool, c, schedule, n - 1), pool, ViewAt(c, schedule, n - 1).cache)
  }

  /** Turn f is the first whose view holds the pool. */
  ghost predicate FirstSight(pool: Name, c: ClientState, schedule: seq<Wakeup>, f: nat)
    requires f < |schedule|
  {
    pool in ViewAt(c, schedule, f).cache && forall i | 0 <= i < f :: pool !in ViewAt(c, schedule, i).cache
  }

  /** Capturing happens once, at first sight. */
  lemma {:induction false} CapturedAtFirstSight(slot: nat, pool: Name, c: ClientState, schedule: seq<Wakeup>, n: nat)
    requires n <= |schedule|
    ensures var asked := AskedAt(Replacement(slot, Capture), pool, c, schedule, n);
            || (asked == Replacement(slot, Capture) && forall i | 0 <= i < n :: pool !in ViewAt(c, schedule, i).cache)
            || (exists f | 0 <= f < n ::
                  FirstSight(pool, c, schedule, f) &&
                  asked == Replacement(slot, Watching(IdentityOf(pool, Holder(ViewAt(c, schedule, f).cache[pool].roll, slot)))))
  {
    hide ViewAt, Holder, MemberIdentity;
    if n > 0 {
      CapturedAtFirstSight(slot, pool, c, schedule, n - 1);
      var before := AskedAt(Replacement(slot, Capture), pool, c, schedule, n - 1);
      if before == Replacement(slot, Capture) && pool in ViewAt(c, schedule, n - 1).cache {
        assert FirstSight(pool, c, schedule, n - 1);
      }
    }
  }

  /** Of two members in one seat, the second counts as a replacement exactly when its tenure
      is another: whether it is the same process does not matter. A tenure past 64 bits
      names nobody. */
  predicate NewTenure(first: Option<Member>, now: Option<Member>) {
    now.Some? && (first.Some? && Fits64(first.value) ==> now.value.incarnation != first.value.incarnation)
  }

  lemma ReplacesExactly(pool: Name, slot: nat, first: Option<Member>, now: Option<Member>)
    requires first.Some? ==> first.value.slot == Some(slot)
    requires now.Some? ==> now.value.slot == Some(slot)
    ensures Replaces(pool, now, IdentityOf(pool, first)) <==> NewTenure(first, now)
  {
    hide MemberIdentity, IdentityMatches;
    if first.Some? && now.Some? { IdentityNamesOne(pool, first.value, pool, now.value); }
  }

  lemma HolderSits(roll: Roll, slot: nat)
    ensures Holder(roll, slot).Some? ==> Holder(roll, slot).value.slot == Some(slot)
  {
    if Sitting(roll, slot) != {} { assert Least(Sitting(roll, slot)) in Sitting(roll, slot); }
  }

  /** A replacement wait that captures its baseline is satisfied exactly by a holder of the
      seat whose tenure is not the one of the holder it first saw. */
  lemma ReplacedMeansNewTenure(slot: nat, pool: Name, c: ClientState, schedule: seq<Wakeup>, n: nat, cache: Cache)
    requires n <= |schedule|
    ensures Satisfied(AskedAt(Replacement(slot, Capture), pool, c, schedule, n), pool, cache) <==>
            pool in cache && exists f | 0 <= f < n ::
              FirstSight(pool, c, schedule, f) &&
              NewTenure(Holder(ViewAt(c, schedule, f).cache[pool].roll, slot), Holder(cache[pool].roll, slot))
  {
    hide ViewAt, Holder, MemberIdentity, IdentityMatches, NewTenure, Replaces;
    CapturedAtFirstSight(slot, pool, c, schedule, n);
    if pool in cache {
      HolderSits(cache[pool].roll, slot);
      forall f: nat | f < n && FirstSight(pool, c, schedule, f)
        ensures var first, now := Holder(ViewAt(c, schedule, f).cache[pool].roll, slot), Holder(cache[pool].roll, slot);
                Replaces(pool, now, IdentityOf(pool, first)) <==> NewTenure(first, now)
      {
        HolderSits(ViewAt(c, schedule, f).cache[pool].roll, slot);
        ReplacesExactly(pool, slot, Holder(ViewAt(c, schedule, f).cache[pool].roll, slot), Holder(cache[pool].roll, slot));
      }
    }
  }

  lemma HolderIsLowest(roll: Roll, slot: nat, m: Option<Member>)
    requires WellKeyed(roll)
    requires m.None? <==> forall k | k in roll && roll[k].slot == Some(slot) :: !Wanted(roll[k], false)
    requires m.Some? ==> m.value.id in roll && roll[m.value.id] == m.value && m.value.slot == Some(slot) &&
                         forall k | k in roll && roll[k].slot == Some(slot) && Wanted(roll[k], false) :: m.value.id <= k
    ensures m == Holder(roll, slot)
  {
    if m.Some? {
      assert m.value.id in Sitting(roll, slot);
      var least := Least(Sitting(roll, slot));
      assert roll[least].slot == Some(slot) && Wanted(roll[least], false);
    }
  }

  class CacheWaiter {
    const shared: Shared
    const pool: Name
    var condition: Condition
    var closed: bool

    constructor (shared: Shared, pool: Name, condition: Condition)
      ensures this.shared == shared && this.pool == pool && this.condition == condition && !closed
    {
      this.shared, this.pool, this.condition, closed := shared, pool, condition, false;
    }

    /** A look. The first look at a slot whose baseline is to be captured fixes it. */
    method Observe() returns (r: WaitResult)
      requires shared.Valid()
      modifies this`condition, shared.Repr()
      ensures shared.Valid() && shared.View() == old(shared.View()) && shared.cache == old(shared.cache)
      ensures Sees(old(condition), pool, shared.View().cache, r.look) && Measures(pool, shared.View().cache, r.total, r.version)
      ensures condition == Observed(old(condition), pool, shared.View().cache)
    {
      hide CachedPool.Valid, Shared.Valid, Shared.CacheView, Freezes, ListOf, ScanOf;
      shared.KeysOf();
      var total, version := Measure();
      if pool !in shared.cache {
        return WaitResult(Look(Pending, None, if condition.Departure? then 1 else 0), total, version);
      }
      var look;
      match condition {
        case Count(filter, target) => look := ObserveCount(filter, target);
        case Departure(identity) => look := ObserveDeparture(identity);
        case Replacement(slot, baseline) => look := ObserveReplacement(slot, baseline);
      }
      r := WaitResult(look, total, version);
    }

    method Measure() returns (total: nat, version: nat)
      requires shared.Valid()
      modifies shared.Repr()
      ensures shared.Valid() && shared.View() == old(shared.View()) && shared.cache == old(shared.cache)
      ensures Measures(pool, shared.View().cache, total, version)
    {
      hide CachedPool.Valid, Shared.Valid, Shared.CacheView, IdsOf;
      shared.KeysOf();
      if pool !in shared.cache { return 0, 0; }
      shared.AtName(pool);
      var cached := shared.cache[pool];
      label before:
      var ids := cached.IdList(false);
      shared.OthersUntouched@before(pool);
      assert shared.CacheView() == old(shared.CacheView());
      return |ids|, cached.version;
    }

    /** A bare status, with the pool's measure. */
    method WithStatus(status: Status) returns (r: WaitResult)
      requires shared.Valid()
      modifies shared.Repr()
      ensures shared.Valid() && shared.View() == old(shared.View()) && shared.cache == old(shared.cache)
      ensures r.look == Bare(status) && Measures(pool, shared.View().cache, r.total, r.version)
    {
      hide CachedPool.Valid, Shared.Valid, Shared.CacheView, Measures;
      var total, version := Measure();
      r := WaitResult(Bare(status), total, version);
    }

    method ObserveCount(filter: Value, target: int) returns (r: Look)
      requires shared.Valid() && pool in shared.cache
      modifies shared.Repr()
      ensures shared.Valid() && shared.View() == old(shared.View()) && shared.cache == old(shared.cache)
      ensures Sees(Count(filter, target), pool, shared.View().cache, r)
    {
      hide CachedPool.Valid, Shared.Valid, Shared.CacheView, ScanOf, Freezes;
      shared.AtName(pool);
      var cached := shared.cache[pool];
      label before:
      var matched := cached.Count(filter, true);
      var view := None;
      if matched >= target {
        var p := cached.Filtered(filter, true);
        view := Some(p);
      }
      shared.OthersUntouched@before(pool);
      assert shared.CacheView() == old(shared.CacheView());
      r := Look(if matched >= target then Ready else Pending, view, matched);
    }

    method ObserveDeparture(identity: string) returns (r: Look)
      requires shared.Valid() && pool in shared.cache
      ensures shared.Valid() && shared.View() == old(shared.View())
      ensures Sees(Departure(identity), pool, shared.View().cache, r)
    {
      hide CachedPool.Valid, Shared.Valid, Shared.CacheView, IdentityMatches;
      shared.AtName(pool);
      label before:
      var m := shared.cache[pool].Get(pool, identity);
      shared.OthersUntouched@before(pool);
      ghost var roll := shared.CacheView()[pool].roll;
      if m.Some? { assert IdentityMatches(pool, roll[m.value.id], identity); }
      r := Look(if m.None? then Ready else Pending, None, if m.None? then 0 else 1);
    }

    method ObserveReplacement(slot: nat, baseline: Baseline) returns (r: Look)
      requires shared.Valid() && pool in shared.cache && condition == Replacement(slot, baseline)
      modifies this`condition, shared.Repr()
      ensures shared.Valid() && shared.View() == old(shared.View()) && shared.cache == old(shared.cache)
      ensures Sees(Replacement(slot, baseline), pool, shared.View().cache, r)
      ensures condition == Observed(Replacement(slot, baseline), pool, shared.View().cache)
    {
      hide CachedPool.Valid, Shared.Valid, Shared.CacheView, IdentityMatches, Holder, MemberIdentity, Freezes, ListOf;
      var current := Current(slot);
      if baseline.Capture? {
        condition := Replacement(slot, Watching(IdentityOf(pool, current)));
        return Look(Pending, None, if current.Some? then 1 else 0);
      }
      if Replaces(pool, current, baseline.previous) {
        var p := Whole();
        return Look(Ready, Some(p), 1);
      }
      r := Bare(Pending);
    }

    method Current(slot: nat) returns (m: Option<Member>)
      requires shared.Valid() && pool in shared.cache
      ensures shared.Valid() && shared.View() == old(shared.View())
      ensures pool in shared.View().cache && m == Holder(shared.View().cache[pool].roll, slot)
    {
      hide CachedPool.Valid, Shared.Valid, Shared.CacheView, Holder;
      shared.AtName(pool);
      var cached := shared.cache[pool];
      label before:
      m := cached.SlotHolder(slot, false);
      shared.OthersUntouched@before(pool);
      CachedWellKeyed(cached);
      HolderIsLowest(cached.members, slot, m);
    }

    method Whole() returns (p: FrozenPool)
      requires shared.Valid() && pool in shared.cache
      modifies shared.Repr()
      ensures shared.Valid() && shared.View() == old(shared.View()) && shared.cache == old(shared.cache)
      ensures pool in shared.View().cache && Freezes(ListOf(shared.View().cache[pool].roll, false), p.members)
      ensures p.version == shared.View().cache[pool].version && p.roster == shared.View().cache[pool].roster
    {
      hide CachedPool.Valid, Shared.Valid, Shared.CacheView, Freezes, ListOf;
      shared.AtName(pool);
      label before:
      p := shared.cache[pool].FrozenView(false);
      shared.OthersUntouched@before(pool);
      assert shared.CacheView() == old(shared.CacheView());
    }

    /** One pass. */
    method Check(initial: bool) returns (r: WaitResult)
      requires shared.Valid()
      modifies this`condition, shared.Repr()
      ensures shared.Valid() && shared.View() == old(shared.View()) && shared.cache == old(shared.cache)
      ensures Results(Answer(closed, initial, shared.View(), old(condition), pool), old(condition), pool, shared.View().cache, r)
      ensures condition == if !closed && (initial || shared.accepted)
                           then Observed(old(condition), pool, shared.View().cache) else old(condition)
    {
      hide CachedPool.Valid, Shared.Valid, Shared.CacheView, Satisfied, Observed, Measures, MatchedBy, Freezes, ListOf, ScanOf;
      if closed { r := WithStatus(Closed); return; }
      if !initial && !shared.accepted { r := WithStatus(Fenced); return; }
      r := Observe();
      if r.look.status == Ready { return; }
      if initial && !shared.accepted { r := WithStatus(Fenced); }
    }

    twostate lemma StillFresh(new owned: set<object>)
      requires fresh(shared.Repr() - owned) && fresh(owned - old(shared.Repr()))
      ensures fresh(shared.Repr() - old(shared.Repr()))
    {
    }

    method Pass(initial: bool, wakeup: Wakeup) returns (r: WaitResult)
      requires shared.Valid()
      modifies this`condition, this`closed, shared, shared.Repr()
      ensures shared.Valid() && fresh(shared.Repr() - old(shared.Repr()))
      ensures shared.View() == AppliedAll(old(shared.View()), wakeup.acks) && closed == (old(closed) || wakeup.closing)
      ensures Results(PassAnswer(closed, initial, wakeup.overdue, shared.View(), old(condition), pool),
                      old(condition), pool, shared.View().cache, r)
      ensures r.look.status == Pending ==> condition == Observed(old(condition), pool, shared.View().cache)
    {
      hide CachedPool.Valid, Shared.Valid, Shared.CacheView, Satisfied, Observed, AppliedAll, Measures, Sees;
      ApplyAll(shared, wakeup.acks);
      if wakeup.closing { closed := true; }
      if !closed && !initial && shared.accepted && wakeup.overdue { r := WithStatus(Timeout); return; }
      r := Check(initial);
    }

    /** Wait, looking again after each ring. The answer is what the view at turn `stop`
        answers to the condition as it then stands, with the view and the counts that go
        with it; the wait runs out only at a deadline, and once closed it goes no further. */
    method Wait(initial: bool, schedule: seq<Wakeup>) returns (r: WaitResult, ghost stop: nat)
      requires shared.Valid() && schedule != []
      modifies this`condition, this`closed, shared, shared.Repr()
      ensures shared.Valid() && stop < |schedule|
      ensures closed == (old(closed) || schedule[stop].closing) && forall i | 0 <= i < stop :: !schedule[i].closing
      ensures shared.View() == ViewAt(old(shared.View()), schedule, stop)
      ensures var asked := AskedAt(old(condition), pool, old(shared.View()), schedule, stop);
              var answer := PassAnswer(closed, initial && stop == 0, schedule[stop].overdue, shared.View(), asked, pool);
              Results(if answer == Pending then Timeout else answer, asked, pool, shared.View().cache, r)
      ensures r.look.status == Timeout ==> schedule[stop].overdue || schedule[stop].expired || stop + 1 == |schedule|
    {
      hide CachedPool.Valid, Shared.Valid, Shared.Repr, Shared.View, Shared.CacheView;
      hide Answer, AppliedAll, Before, Observed, Measures, Sees, AskedAt;
      ghost var start, given := shared.View(), condition;
      var i := 0;
      NothingYet(start, schedule);
      AsGiven(given, pool, start, schedule);
      while true
        invariant 0 <= i < |schedule| && shared.Valid() && fresh(shared.Repr() - old(shared.Repr()))
        invariant shared.View() == AppliedAll(start, Before(schedule, i))
        invariant condition == AskedAt(given, pool, start, schedule, i)
        invariant closed == old(closed) && forall j | 0 <= j < i :: !schedule[j].closing
        decreases |schedule| - i
      {
        WakeupApplied(start, schedule, i);
        stop := i;
        ghost var owned := shared.Repr();
        r := Pass(initial && i == 0, schedule[i]);
        StillFresh(owned);
        AskedNext(given, pool, start, schedule, i);
        ghost var asked := AskedAt(given, pool, start, schedule, i);
        ClosedIsAnswered(closed, initial && i == 0, schedule[i].overdue, shared.View(), asked, pool);
        NeverTimesOut(closed, initial && i == 0, shared.View(), asked, pool);
        if r.look.status != Pending { return; }
        if schedule[i].expired || i + 1 == |schedule| {
          r := r.(look := Bare(Timeout));
          return;
        }
        i := i + 1;
      }
    }

    method Close() returns (ring: bool)
      modifies this`closed
      ensures closed && ring == !old(closed)
    {
      ring := !closed;
      closed := true;
    }
  }

  lemma WakeupApplied(start: ClientState, schedule: seq<Wakeup>, i: nat)
    requires i < |schedule|
    ensures AppliedAll(AppliedAll(start, Before(schedule, i)), schedule[i].acks) == AppliedAll(start, Before(schedule, i + 1))
  {
    AppliedOn(start, Before(schedule, i), schedule[i].acks);
  }

  lemma NothingYet(c: ClientState, schedule: seq<Wakeup>)
    ensures AppliedAll(c, Before(schedule, 0)) == c
  {
  }

  lemma AsGiven(given: Condition, pool: Name, c: ClientState, schedule: seq<Wakeup>)
    ensures AskedAt(given, pool, c, schedule, 0) == given
  {
  }

  lemma AskedNext(given: Condition, pool: Name, c: ClientState, schedule: seq<Wakeup>, i: nat)
    requires i < |schedule|
    ensures AskedAt(given, pool, c, schedule, i + 1) ==
            Observed(AskedAt(given, pool, c, schedule, i), pool, AppliedAll(c, Before(schedule, i + 1)).cache)
  {
    hide Observed, AppliedAll, Before;
  }

  lemma ClosedIsAnswered(closed: bool, initial: bool, overdue: bool, c: ClientState, condition: Condition, pool: Name)
    ensures closed ==> PassAnswer(closed, initial, overdue, c, condition, pool) == Closed
  {
    hide Satisfied;
  }

  lemma NeverTimesOut(closed: bool, initial: bool, c: ClientState, condition: Condition, pool: Name)
    ensures Answer(closed, initial, c, condition, pool) != Timeout
  {
    hide Satisfied;
  }
}
