/** Freezing a round: waiting until everyone expected is there and ready. */
module Epochs {
  import opened Basics
  import opened Values
  import opened Protocol
  import opened PoolModel
  import opened Replicas
  import opened Systems
  import opened Agreement
  import opened CachedPools
  import opened SharedState

  datatype Status = Pending | Ready | Timeout | Fenced | Closed | Stale | NoSize | Mismatch

  datatype EpochResult = EpochResult(status: Status, view: Option<FrozenPool>, found: nat, target: int, mismatched: bool)

  function LeaseOf(intervalMs: nat): nat { Max(4 * intervalMs, 1000) }

  /** A round frozen on this client's view: at least `target` members, every one of them
      ready, listed by id, and their fingerprint is the pool's own. */
  ghost predicate Sound(c: ClientState, pool: Name, r: EpochResult) {
    && c.accepted && pool in c.cache && r.view.Some?
    && Freezes(ListOf(c.cache[pool].roll, true), r.view.value.members)
    && r.found == |r.view.value.members.members| && r.found >= r.target
    && r.view.value.members.roster == r.view.value.roster == c.cache[pool].roster
    && r.view.value.version == c.cache[pool].version
    && forall m | m in r.view.value.members.members :: m.ready
  }

  /** What a look at this view reports. */
  function StatusOf(c: ClientState, pool: Name, minimum: Option<int>, silent: bool): Status {
    if !c.accepted then Fenced
    else if silent then Stale
    else if pool !in c.cache then Pending
    else if minimum.None? && c.cache[pool].size.None? then NoSize
    else if |ListOf(c.cache[pool].roll, true)| >= Target(c.cache[pool], minimum) && !Mismatches(c.cache[pool]) then Ready
    else Pending
  }

  function Target(p: Replica, minimum: Option<int>): int
    requires minimum.Some? || p.size.Some?
  {
    if minimum.Some? then minimum.value else p.size.value
  }

  /** The ready members are not the whole roster, as far as fingerprints tell. */
  predicate Mismatches(p: Replica) { FoldRoster(ListOf(p.roll, true)) != p.roster }

  /** The result carries that status, and how far from a round the pool was. */
  ghost predicate Finds(c: ClientState, pool: Name, minimum: Option<int>, silent: bool, r: EpochResult) {
    && r.status == StatusOf(c, pool, minimum, silent)
    && (r.status == Ready ==> Sound(c, pool, r))
    && (r.status == Ready || r.status == Pending ==>
          if pool in c.cache then r.found == |ListOf(c.cache[pool].roll, true)| && r.target == Target(c.cache[pool], minimum) &&
                                  r.mismatched == Mismatches(c.cache[pool])
          else r.found == 0 && !r.mismatched)
  }

  /** One look. */
  method LookEpoch(shared: Shared, pool: Name, minimum: Option<int>, silenceMs: nat) returns (r: EpochResult)
    requires shared.Valid()
    modifies shared.Repr()
    ensures shared.Valid() && shared.View() == old(shared.View()) && shared.cache == old(shared.cache)
    ensures Finds(shared.View(), pool, minimum, silenceMs > LeaseOf(shared.intervalMs), r)
  {
    hide CachedPool.Valid, Shared.Valid, Shared.CacheView, ListOf;
    var wanted := if minimum.Some? then minimum.value else 0;
    if !shared.accepted { return EpochResult(Fenced, None, 0, wanted, false); }
    if silenceMs > LeaseOf(shared.intervalMs) { return EpochResult(Stale, None, 0, wanted, false); }
    shared.KeysOf();
    if pool !in shared.cache { return EpochResult(Pending, None, 0, wanted, false); }
    r := LookPool(shared, pool, minimum);
  }

  lemma CachedWellKeyed(c: CachedPool)
    requires c.Valid()
    ensures WellKeyed(c.members)
  {
    hide Inverse, ListingsRight, RenderingsRight, IndexRight;
  }

  method LookPool(shared: Shared, pool: Name, minimum: Option<int>) returns (r: EpochResult)
    requires shared.Valid() && shared.accepted && pool in shared.cache
    modifies shared.Repr()
    ensures shared.Valid() && shared.View() == old(shared.View()) && shared.cache == old(shared.cache)
    ensures Finds(shared.View(), pool, minimum, false, r)
  {
    hide CachedPool.Valid, Shared.Valid, Shared.CacheView, ListOf, Freezes, Finds;
    shared.AtName(pool);
    var cached := shared.cache[pool];
    CachedWellKeyed(cached);
    ghost var c := shared.View();
    SizeMissing(c, pool, minimum);
    if minimum.None? && cached.size.None? { return EpochResult(NoSize, None, 0, 0, false); }
    var target := if minimum.Some? then minimum.value else cached.size.value;
    label before:
    var view := cached.FrozenView(true);
    shared.OthersUntouched@before(pool);
    shared.AtName(pool);
    assert shared.CacheView() == old(shared.CacheView());
    var found := |view.members.members|;
    var mismatched := view.members.roster != view.roster;
    var ready := found >= target && !mismatched;
    r := EpochResult(if ready then Ready else Pending, if ready then Some(view) else None, found, target, mismatched);
    Looked(c, pool, minimum, view, r);
  }

  lemma SizeMissing(c: ClientState, pool: Name, minimum: Option<int>)
    requires c.accepted && pool in c.cache
    ensures minimum.None? && c.cache[pool].size.None? ==> Finds(c, pool, minimum, false, EpochResult(NoSize, None, 0, 0, false))
  {
    hide ListOf;
  }

  lemma Looked(c: ClientState, pool: Name, minimum: Option<int>, view: FrozenPool, r: EpochResult)
    requires c.accepted && pool in c.cache && WellKeyed(c.cache[pool].roll) && (minimum.Some? || c.cache[pool].size.Some?)
    requires Freezes(ListOf(c.cache[pool].roll, true), view.members)
    requires view.roster == c.cache[pool].roster && view.version == c.cache[pool].version
    requires r.found == |view.members.members| && r.target == Target(c.cache[pool], minimum)
    requires r.mismatched == (view.members.roster != view.roster)
    requires var ready := r.found >= r.target && !r.mismatched;
             r.status == (if ready then Ready else Pending) && r.view == if ready then Some(view) else None
    ensures Finds(c, pool, minimum, false, r)
  {
    hide ListOf, FreezesIds, FreezesSlots;
    forall m | m in view.members.members ensures m.ready { ListedFromRoll(c.cache[pool].roll, m); }
  }

  /** One turn of the wait: acknowledgements applied before the look, more of them applied
      between the look and the last word on the seat, and the time by then. */
  datatype Tick = Tick(acks: seq<BeatAck>, late: seq<BeatAck>, silenceMs: nat, expired: bool)

  function AppliedAll(c: ClientState, acks: seq<BeatAck>): ClientState {
    if acks == [] then c else Applied(AppliedAll(c, acks[..|acks| - 1]), acks[|acks| - 1])
  }

  /** Everything applied before turn n, in order. */
  function AcksBefore(schedule: seq<Tick>, n: nat): seq<BeatAck>
    requires n <= |schedule|
  {
    if n == 0 then [] else AcksBefore(schedule, n - 1) + (schedule[n - 1].acks + schedule[n - 1].late)
  }

  /** What had been applied by the look at turn i. */
  function SeenBy(schedule: seq<Tick>, i: nat): seq<BeatAck>
    requires i < |schedule|
  {
    AcksBefore(schedule, i) + schedule[i].acks
  }

  lemma {:induction false} AppliedOn(c: ClientState, acks: seq<BeatAck>, more: seq<BeatAck>)
    ensures AppliedAll(AppliedAll(c, acks), more) == AppliedAll(c, acks + more)
  {
    if more == [] {
      assert acks + more == acks;
    } else {
      var front, last := more[..|more| - 1], more[|more| - 1];
      AppliedOn(c, acks, front);
      assert (acks + more)[..|acks + more| - 1] == acks + front;
    }
  }

  lemma {:induction false} FencedThroughout(c: ClientState, acks: seq<BeatAck>)
    ensures !c.accepted ==> !AppliedAll(c, acks).accepted
  {
    if acks != [] { FencedThroughout(c, acks[..|acks| - 1]); }
  }

  method ApplyAll(shared: Shared, acks: seq<BeatAck>)
    requires shared.Valid()
    modifies shared, shared.Repr()
    ensures shared.Valid() && fresh(shared.Repr() - old(shared.Repr()))
    ensures shared.View() == AppliedAll(old(shared.View()), acks)
    ensures shared.intervalMs == old(shared.intervalMs)
  {
    hide CachedPool.Valid, Shared.Valid, Shared.CacheView, Merged, Stirs, Applied;
    var i := 0;
    while i < |acks|
      invariant 0 <= i <= |acks| && shared.Valid() && fresh(shared.Repr() - old(shared.Repr()))
      invariant shared.View() == AppliedAll(old(shared.View()), acks[..i])
      invariant shared.intervalMs == old(shared.intervalMs)
    {
      var _, _ := shared.Apply(acks[i]);
      assert acks[..i + 1][..i] == acks[..i];
      i := i + 1;
    }
    assert acks[..i] == acks;
  }

  /** The answer taken from view c: what it reports, except that a round is withheld if the
      seat was lost before it was handed out. */
  ghost predicate Settles(c: ClientState, held: bool, pool: Name, minimum: Option<int>, silent: bool, r: EpochResult) {
    if !held && StatusOf(c, pool, minimum, silent) == Ready then r.status == Fenced && r.view.None?
    else Finds(c, pool, minimum, silent, r)
  }

  method TurnOnce(shared: Shared, pool: Name, minimum: Option<int>, tick: Tick) returns (r: EpochResult)
    requires shared.Valid()
    modifies shared, shared.Repr()
    ensures shared.Valid() && fresh(shared.Repr() - old(shared.Repr())) && shared.intervalMs == old(shared.intervalMs)
    ensures shared.View() == AppliedAll(old(shared.View()), tick.acks + tick.late)
    ensures Settles(AppliedAll(old(shared.View()), tick.acks), shared.View().accepted, pool, minimum,
                    tick.silenceMs > LeaseOf(shared.intervalMs), r)
  {
    hide CachedPool.Valid, Shared.Valid, Shared.CacheView, Sound, ListOf, Mismatches, AppliedAll;
    ApplyAll(shared, tick.acks);
    r := LookEpoch(shared, pool, minimum, tick.silenceMs);
    AppliedOn(old(shared.View()), tick.acks, tick.late);
    ApplyAll(shared, tick.late);
    if r.status == Ready && !shared.accepted { r := r.(status := Fenced, view := None); }
  }

  /** Wait for a round, whatever arrives meanwhile. The answer is taken at turn `stop`. A
      round is handed out only if the view there holds one and the seat is still held; the
      wait runs out only if that turn was the last and its view held none. */
  method WaitEpoch(shared: Shared, pool: Name, minimum: Option<int>, schedule: seq<Tick>)
    returns (r: EpochResult, ghost stop: nat)
    requires shared.Valid() && schedule != []
    modifies shared, shared.Repr()
    ensures shared.Valid() && stop < |schedule|
    ensures shared.View() == AppliedAll(old(shared.View()), AcksBefore(schedule, stop + 1))
    ensures Concludes(AppliedAll(old(shared.View()), SeenBy(schedule, stop)), shared.View().accepted, pool, minimum,
                      schedule[stop].silenceMs > LeaseOf(shared.intervalMs), r)
    ensures r.status in {Mismatch, Timeout} ==> schedule[stop].expired || stop + 1 == |schedule|
    ensures !old(shared.View()).accepted ==> r.status == Fenced
  {
    hide CachedPool.Valid, Shared.Valid, Shared.Repr, Shared.View, Shared.CacheView;
    hide Settles, Concludes, AppliedAll, AcksBefore, SeenBy, LeaseOf, StatusOf;
    ghost var start := shared.View();
    var i := 0;
    NothingApplied(start, schedule);
    while true
      invariant 0 <= i < |schedule| && shared.Valid() && fresh(shared.Repr() - old(shared.Repr()))
      invariant shared.View() == AppliedAll(start, AcksBefore(schedule, i))
      invariant i > 0 ==> start.accepted
      decreases |schedule| - i
    {
      var tick := schedule[i];
      ghost var owned := shared.Repr();
      label turning:
      r := TurnOnce(shared, pool, minimum, tick);
      assert fresh@turning(shared.Repr() - owned);
      assert fresh(shared.Repr() - owned) && fresh(owned - old(shared.Repr()));
      stop := i;
      TickApplied(start, schedule, i);
      ghost var c, silent := AppliedAll(start, SeenBy(schedule, i)), tick.silenceMs > LeaseOf(shared.intervalMs);
      FencedLater(start, SeenBy(schedule, i), shared.View().accepted, pool, minimum, silent, r);
      if r.status != Pending {
        Answered(c, shared.View().accepted, pool, minimum, silent, r);
        return;
      }
      if tick.expired || i + 1 == |schedule| {
        var last := r.(status := if r.mismatched && r.found >= r.target then Mismatch else Timeout);
        RunsOut(c, shared.View().accepted, pool, minimum, silent, r, last);
        return last, stop;
      }
      i := i + 1;
    }
  }

  /** The last word of a wait. */
  ghost predicate Concludes(c: ClientState, held: bool, pool: Name, minimum: Option<int>, silent: bool, r: EpochResult) {
    var status := StatusOf(c, pool, minimum, silent);
    match r.status
    case Ready => status == Ready && Sound(c, pool, r) && held
    case Fenced => status == Fenced || (status == Ready && !held)
    case Stale => status == Stale
    case NoSize => status == NoSize
    case Mismatch => status == Pending && pool in c.cache && Mismatches(c.cache[pool]) &&
                     |ListOf(c.cache[pool].roll, true)| >= Target(c.cache[pool], minimum)
    case Timeout => status == Pending && (pool in c.cache ==> |ListOf(c.cache[pool].roll, true)| < Target(c.cache[pool], minimum))
    case _ => false
  }

  lemma Answered(c: ClientState, held: bool, pool: Name, minimum: Option<int>, silent: bool, r: EpochResult)
    requires Settles(c, held, pool, minimum, silent, r) && r.status != Pending && (r.status == Ready ==> held)
    ensures Concludes(c, held, pool, minimum, silent, r) && r.status != Mismatch && r.status != Timeout
  {
    hide Sound, ListOf, Mismatches;
  }

  lemma RunsOut(c: ClientState, held: bool, pool: Name, minimum: Option<int>, silent: bool, r: EpochResult, late: EpochResult)
    requires Settles(c, held, pool, minimum, silent, r) && r.status == Pending
    requires late == r.(status := if r.mismatched && r.found >= r.target then Mismatch else Timeout)
    ensures Concludes(c, held, pool, minimum, silent, late)
  {
    hide Sound, ListOf, Mismatches;
  }

  lemma FencedLater(start: ClientState, seen: seq<BeatAck>, held: bool, pool: Name, minimum: Option<int>, silent: bool,
                    r: EpochResult)
    requires Settles(AppliedAll(start, seen), held, pool, minimum, silent, r)
    ensures r.status == Ready ==> held
    ensures !start.accepted ==> r.status == Fenced
  {
    hide Sound, ListOf, Mismatches, AppliedAll;
    FencedThroughout(start, seen);
  }

  lemma TickApplied(start: ClientState, schedule: seq<Tick>, i: nat)
    requires i < |schedule|
    ensures var c, tick := AppliedAll(start, AcksBefore(schedule, i)), schedule[i];
            && AppliedAll(c, tick.acks) == AppliedAll(start, SeenBy(schedule, i))
            && AppliedAll(c, tick.acks + tick.late) == AppliedAll(start, AcksBefore(schedule, i + 1))
  {
    hide AppliedAll;
    var before, tick := AcksBefore(schedule, i), schedule[i];
    AppliedOn(start, before, tick.acks);
    AppliedOn(start, before, tick.acks + tick.late);
  }

  lemma NothingApplied(c: ClientState, schedule: seq<Tick>)
    ensures AppliedAll(c, AcksBefore(schedule, 0)) == c
  {
  }

  // ---------------------------------------------------------------- what it means

  /** Who is ready. */
  function ReadyIds(roll: Roll): set<nat> { set k | k in roll && roll[k].ready }

  /** A round is found exactly when the seat is held, the registry has been heard within the
      lease, the pool is known with a size or none is needed, that many are ready, and those
      who are ready have the fingerprint of the pool. */
  lemma ReadyExactly(c: ClientState, pool: Name, minimum: Option<int>, silent: bool, r: EpochResult)
    requires Finds(c, pool, minimum, silent, r) && (pool in c.cache ==> WellKeyed(c.cache[pool].roll))
    ensures r.status == Ready <==>
            && c.accepted && !silent && pool in c.cache
            && var p := c.cache[pool];
               && (minimum.Some? || p.size.Some?)
               && |ReadyIds(p.roll)| >= (if minimum.Some? then minimum.value else p.size.value)
               && RosterOf(ReadyOnly(p.roll)) == p.roster
    ensures r.status == Ready ==>
              r.found == |ReadyIds(c.cache[pool].roll)| &&
              r.target == if minimum.Some? then minimum.value else c.cache[pool].size.value
  {
    hide Sound, RosterOf, FoldRoster, ReadyOnly;
    if pool in c.cache {
      var roll := c.cache[pool].roll;
      assert WantedIds(roll, true) == ReadyIds(roll);
      ListedOccupants(roll);
    }
  }

  /** And otherwise it says what was missing, the first thing first. */
  lemma OtherwiseWhy(c: ClientState, pool: Name, minimum: Option<int>, silent: bool, r: EpochResult)
    requires Finds(c, pool, minimum, silent, r)
    ensures r.status == Fenced <==> !c.accepted
    ensures r.status == Stale <==> c.accepted && silent
    ensures r.status == NoSize <==> c.accepted && !silent && pool in c.cache && minimum.None? && c.cache[pool].size.None?
    ensures r.status in {Fenced, Stale, NoSize, Ready, Pending}
  {
    hide Sound, ListOf, FoldRoster;
  }

  /** Silence counts from a lease, as nearly as the interval tells it, and never from less
      than a second. */
  lemma LeaseIsTheLease(ttl: nat)
    ensures LeaseOf(ttl / 4) >= 1000 && (ttl < 1000 ==> LeaseOf(ttl / 4) == 1000)
    ensures ttl >= 1004 ==> ttl - 4 < LeaseOf(ttl / 4) <= ttl
  {
  }

  /** The two sets of occupants do not collide: if they are told apart by anything, their
      fingerprints tell them apart. */
  ghost predicate NoCollision(a: set<Occupant>, b: set<Occupant>) { Fingerprint(a) == Fingerprint(b) ==> a == b }

  function ReadyOnly(roll: Roll): Roll { map k | k in roll && roll[k].ready :: roll[k] }

  lemma ListedOccupants(roll: Roll)
    requires WellKeyed(roll)
    ensures FoldRoster(ListOf(roll, true)) == RosterOf(ReadyOnly(roll))
  {
    hide RosterHash, Fingerprint, ListOf, IdsOf;
    var list := ListOf(roll, true);
    ListOfIds(roll, true);
    AscendingDistinct(list);
    FoldRosterIsFingerprint(list);
    var listed := set m | m in list :: OccupantOf(m);
    forall o | o in listed ensures o in Occupants(ReadyOnly(roll)) {
      var m :| m in list && o == OccupantOf(m);
      ListedFromRoll(roll, m);
      assert ReadyOnly(roll)[m.id] == m;
    }
    forall o | o in Occupants(ReadyOnly(roll)) ensures o in listed {
      var k :| k in ReadyOnly(roll) && o == OccupantOf(ReadyOnly(roll)[k]);
      RollIsListed(roll, k);
    }
    assert listed == Occupants(ReadyOnly(roll));
  }

  lemma ListedFromRoll(roll: Roll, m: Member)
    requires WellKeyed(roll) && m in ListOf(roll, true)
    ensures m.id in roll && roll[m.id] == m && m.ready
  {
    ListedIdsArePresent(roll, Null, true);
    var ids := IdsOf(roll, true);
    var i :| 0 <= i < |ids| && ListOf(roll, true)[i] == m;
    assert ids[i] in ids;
  }

  lemma RollIsListed(roll: Roll, k: nat)
    requires k in roll && roll[k].ready
    ensures roll[k] in ListOf(roll, true)
  {
    ListedIdsArePresent(roll, Null, true);
    var ids := IdsOf(roll, true);
    assert k in WantedIds(roll, true) && k in ids;
    var i :| 0 <= i < |ids| && ids[i] == k;
    assert ListOf(roll, true)[i] == roll[k];
  }

  /** Epoch soundness. Where the ready occupants do not collide with the whole roster, a
      round is the whole roster: every member in it was ready, and the frozen list is all
      of them. */
  lemma RoundIsEveryone(c: ClientState, pool: Name, r: EpochResult)
    requires Sound(c, pool, r) && WellKeyed(c.cache[pool].roll) && c.cache[pool].roster == RosterOf(c.cache[pool].roll)
    requires NoCollision(Occupants(ReadyOnly(c.cache[pool].roll)), Occupants(c.cache[pool].roll))
    ensures forall k | k in c.cache[pool].roll :: c.cache[pool].roll[k].ready
    ensures r.view.value.members.members == ListOf(c.cache[pool].roll, false)
  {
    hide FreezesIds, FreezesSlots, ListOf, Fingerprint, IdsOf;
    var roll := c.cache[pool].roll;
    ListedOccupants(roll);
    assert Occupants(ReadyOnly(roll)) == Occupants(roll);
    forall k | k in roll ensures roll[k].ready {
      assert OccupantOf(roll[k]) in Occupants(roll);
      var j :| j in ReadyOnly(roll) && OccupantOf(ReadyOnly(roll)[j]) == OccupantOf(roll[k]);
      assert roll[j].id == j && roll[k].id == k;
    }
    AllReadyAllListed(roll);
  }

  lemma AllReadyAllListed(roll: Roll)
    requires forall k | k in roll :: roll[k].ready
    ensures ListOf(roll, true) == ListOf(roll, false)
  {
    assert WantedIds(roll, true) == WantedIds(roll, false);
  }

  /** Whatever a client has been told, its cache files every member under its own id. */
  ghost predicate CacheKeyed(c: ClientState) { forall n | n in c.cache :: WellKeyed(c.cache[n].roll) }

  lemma {:induction false} InsertedKeyed(roll: Roll, changed: seq<Member>)
    requires WellKeyed(roll)
    ensures WellKeyed(Inserted(roll, changed))
  {
    if changed != [] { InsertedKeyed(roll, changed[..|changed| - 1]); }
  }

  lemma AppliedKeyed(c: ClientState, ack: BeatAck)
    requires CacheKeyed(c)
    ensures CacheKeyed(Applied(c, ack))
  {
    forall n | n in ack.pools && ack.accepted
      ensures WellKeyed(Patched(EntryOf(Kept(c, ack), n).roll, ack.pools[n]))
    {
      InsertedKeyed(if ack.pools[n].full then map[] else EntryOf(Kept(c, ack), n).roll, ack.pools[n].changed);
    }
  }

  lemma {:induction false} CacheKeyedThroughout(states: seq<System>, steps: seq<Step>, guarded: bool, i: nat)
    requires IsRun(states, steps, guarded) && i < |states|
    ensures CacheKeyed(states[i].client)
  {
    hide Next, Applied;
    if i > 0 {
      CacheKeyedThroughout(states, steps, guarded, i - 1);
      if guarded { Unguarded(states[i - 1], steps[i - 1], states[i]); }
      OnlyDeliveryTouchesClient(states[i - 1], steps[i - 1], states[i]);
      if steps[i - 1].Deliver? { AppliedKeyed(states[i - 1].client, steps[i - 1].flight.ack); }
    }
  }

  /** Over every run of the whole system: a round any client freezes is the complete roster
      its registry had at some version, with every member ready. */
  lemma RoundIsARoster(states: seq<System>, steps: seq<Step>, i: nat, pool: Name, r: EpochResult)
    requires IsRun(states, steps, true) && i < |states| && Sound(states[i].client, pool, r)
    requires var roll := states[i].client.cache[pool].roll;
             NoCollision(Occupants(ReadyOnly(roll)), Occupants(roll))
    ensures var c := states[i].client;
            && c.seenEpoch in states[i].regs && pool in states[i].regs[c.seenEpoch].past
            && var h := states[i].regs[c.seenEpoch].past[pool];
               r.view.value.version < |h.snaps| &&
               var roster := h.snaps[r.view.value.version];
               (forall k | k in roster :: roster[k].ready) && r.view.value.members.members == ListOf(roster, false)
  {
    hide Inv, IsRun, ListOf, Freezes, Occupants, NoCollision, RosterOf;
    ReplicaAgreement(states, steps, i);
    CacheKeyedThroughout(states, steps, true, i);
    RoundIsEveryone(states[i].client, pool, r);
  }

  /** Two ranks that froze under the same fingerprint froze the same occupants in the same
      places, whatever versions they froze at. */
  lemma RanksAgree(a: ClientState, b: ClientState, pool: Name, ra: EpochResult, rb: EpochResult)
    requires Sound(a, pool, ra) && Sound(b, pool, rb) && WellKeyed(a.cache[pool].roll) && WellKeyed(b.cache[pool].roll)
    requires ra.view.value.members.roster == rb.view.value.members.roster
    requires var x, y := ReadyOnly(a.cache[pool].roll), ReadyOnly(b.cache[pool].roll);
             NoCollision(Occupants(x), Occupants(y))
    ensures var x, y := ra.view.value.members.members, rb.view.value.members.members;
            |x| == |y| && forall i | 0 <= i < |x| :: OccupantOf(x[i]) == OccupantOf(y[i])
  {
    hide FreezesIds, FreezesSlots, Fingerprint, ListOf;
    ListedOccupants(a.cache[pool].roll);
    ListedOccupants(b.cache[pool].roll);
    SameOccupantsSameRanks(a.cache[pool].roll, b.cache[pool].roll);
  }

  lemma SameOccupantsSameRanks(a: Roll, b: Roll)
    requires WellKeyed(a) && WellKeyed(b) && Occupants(ReadyOnly(a)) == Occupants(ReadyOnly(b))
    ensures |ListOf(a, true)| == |ListOf(b, true)|
    ensures forall i | 0 <= i < |ListOf(a, true)| :: OccupantOf(ListOf(a, true)[i]) == OccupantOf(ListOf(b, true)[i])
  {
    forall k | k in ReadyOnly(a) ensures k in ReadyOnly(b) && OccupantOf(a[k]) == OccupantOf(b[k]) { SeatedIn(a, b, k); }
    forall k | k in ReadyOnly(b) ensures k in ReadyOnly(a) { SeatedIn(b, a, k); }
    assert WantedIds(a, true) == ReadyOnly(a).Keys == ReadyOnly(b).Keys == WantedIds(b, true);
    ListedIdsArePresent(a, Null, true);
    var ids := IdsOf(a, true);
    forall i | 0 <= i < |ids| ensures OccupantOf(ListOf(a, true)[i]) == OccupantOf(ListOf(b, true)[i]) {
      assert ids[i] in ids;
    }
  }

  lemma SeatedIn(a: Roll, b: Roll, k: nat)
    requires WellKeyed(a) && WellKeyed(b) && Occupants(ReadyOnly(a)) == Occupants(ReadyOnly(b)) && k in ReadyOnly(a)
    ensures k in ReadyOnly(b) && OccupantOf(a[k]) == OccupantOf(b[k])
  {
    assert OccupantOf(ReadyOnly(a)[k]) in Occupants(ReadyOnly(b));
    var j :| j in ReadyOnly(b) && OccupantOf(ReadyOnly(b)[j]) == OccupantOf(a[k]);
    assert b[j].id == j;
  }

  /** A frozen round still stands. */
  predicate EpochValid(c: ClientState, pool: Name, roster: nat) {
    c.accepted && (pool in c.cache ==> c.cache[pool].roster == roster)
  }

  /** Over every guarded run, a round frozen at state i stands at state j exactly if the seat
      is still held and either nothing is cached of the pool, as after a restart, or its
      occupants are the same. Whatever they publish about themselves cannot end it, and any
      change of occupants that does not collide does, as soon as it is cached. */
  lemma RoundStandsWhileOccupantsDo(states: seq<System>, steps: seq<Step>, i: nat, j: nat, pool: Name)
    requires IsRun(states, steps, true) && i < |states| && j < |states| && pool in states[i].client.cache
    requires pool in states[j].client.cache ==>
               NoCollision(Occupants(states[j].client.cache[pool].roll), Occupants(states[i].client.cache[pool].roll))
    ensures var before, after := states[i].client, states[j].client;
            EpochValid(after, pool, before.cache[pool].roster) <==>
              after.accepted &&
              (pool !in after.cache || Occupants(after.cache[pool].roll) == Occupants(before.cache[pool].roll))
  {
    hide IsRun, Inv, Occupants, Fingerprint;
    ReplicaAgreement(states, steps, i);
    ReplicaAgreement(states, steps, j);
  }

  lemma ListedCount(roll: Roll, ids: set<nat>)
    requires roll.Keys == ids && forall k | k in roll :: roll[k].ready
    ensures |ListOf(roll, true)| == |ids|
  {
    assert WantedIds(roll, true) == ids;
    AscendingLength(IdsOf(roll, true), ids);
  }
}
