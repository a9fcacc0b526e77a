/** One pool of the registry as a value, and what a beat or a sweep does to it.

    These are the transitions the `Pool` and `Registry` classes are proved
    against, and the steps every whole-run property is stated over. */
module PoolModel {
  import opened Basics
  import opened Protocol

  const LOG_CAP: nat := 4096
  const MAX_INCARNATION: nat := 4_000_000_000_000 * 0x10_0000
  const MAX_NAME: nat := 512
  const MAX_STATE: nat := 16384
  const MAX_METHODS: nat := 256
  const MAX_WATCH: nat := 64

  /** A parked caller's bell. */
  type Bell = nat

  datatype Record = Record(member: Member, publication: Option<nat>, expiresAt: Time, stateBytes: nat)

  datatype Change = Change(version: nat, id: nat)

  datatype Goodbye = Goodbye(tenure: nat, forgetAt: Time)

  datatype PoolState = PoolState(
    version: nat,
    roster: nat,
    policy: string,
    methods: seq<string>,
    size: Option<nat>,
    members: map<nat, Record>,
    high: map<nat, nat>,
    gone: map<nat, Goodbye>,
    log: seq<Change>,
    waiters: seq<Bell>)

  /** A pool the moment somebody first names it. */
  const EMPTY_POOL: PoolState := PoolState(0, 0, "", [], None, map[], map[], map[], [], [])

  function RollOf(p: PoolState): Roll { map k | k in p.members :: p.members[k].member }

  // -------------------------------------------------------------- the invariant

  /** The log ends at the pool's version and misses nothing in between. */
  ghost predicate Contiguous(version: nat, log: seq<Change>) {
    |log| == Min(version, LOG_CAP) &&
    forall i | 0 <= i < |log| :: log[i].version == version - |log| + 1 + i
  }

  ghost predicate WellFormed(p: PoolState) {
    Contiguous(p.version, p.log) && Keyed(p.members) && p.roster == RosterOf(RollOf(p))
  }

  /** Every record sits under its member's id. */
  predicate Keyed(members: map<nat, Record>) { forall k | k in members :: members[k].member.id == k }

  lemma KeyedRoll(p: PoolState)
    requires Keyed(p.members)
    ensures WellKeyed(RollOf(p))
  {
  }

  /** Only these five fields matter to the invariant. */
  lemma WellFormedFields(p: PoolState, q: PoolState)
    requires WellFormed(p)
    requires Contiguous(q.version, q.log) && Keyed(q.members)
    requires q.roster == p.roster && RollOf(q) == RollOf(p)
    ensures WellFormed(q)
  {
  }

  // ----------------------------------------------------------------- the change log

  function Trimmed(log: seq<Change>): seq<Change> {
    if |log| > LOG_CAP then log[|log| - LOG_CAP..] else log
  }

  /** One more version, logged, with every parked caller off the list. */
  function Bumped(p: PoolState, id: nat): PoolState {
    p.(version := p.version + 1,
       log := Trimmed(p.log + [Change(p.version + 1, id)]),
       waiters := [])
  }

  function Without(p: PoolState, id: nat): PoolState
    requires id in p.members
  {
    p.(members := p.members - {id}, roster := Xor(p.roster, MemberHash(p.members[id].member)))
  }

  function With(p: PoolState, r: Record): PoolState {
    p.(members := p.members[r.member.id := r], roster := Xor(p.roster, MemberHash(r.member)))
  }

  // ------------------------------------------------------------------- one beat

  predicate Admissible(b: Beat) {
    && |b.pool| <= MAX_NAME
    && b.incarnation <= MAX_INCARNATION
    && |b.watch| <= MAX_WATCH
    && (forall w | w in b.watch :: |w| <= MAX_NAME)
    && (b.url.Some? ==> |b.url.value| <= MAX_NAME)
    && |b.methods| <= MAX_METHODS
    && (forall m | m in b.methods :: |m| <= MAX_NAME)
    && b.stateBytes <= MAX_STATE
  }

  /** What the beat says about the pool that the pool does not say about itself. */
  predicate Disagrees(p: PoolState, b: Beat) {
    p.policy != b.policy || (b.size.Some? && p.size != b.size)
  }

  /** A pool with members keeps its shape; an empty one takes the beat's. */
  predicate Misshapen(p: PoolState, b: Beat) { p.members != map[] && Disagrees(p, b) }

  function Shaped(p: PoolState, b: Beat): PoolState {
    if p.members == map[] then p.(policy := b.policy, size := b.size, methods := b.methods)
    else if p.methods == [] then p.(methods := b.methods)
    else p
  }

  function Stored(p: PoolState, id: nat): Option<nat> {
    if id in p.members then Some(p.members[id].member.incarnation) else None
  }

  function Watermark(p: PoolState, id: nat): nat { if id in p.high then p.high[id] else 0 }

  /** A beat sent before its tenure said goodbye, arriving after. */
  predicate Straggler(p: PoolState, b: Beat) {
    !b.leaving && b.id in p.gone && b.incarnation <= p.gone[b.id].tenure
  }

  predicate Superseded(p: PoolState, b: Beat) {
    var stored := Stored(p, b.id);
    || (b.exclusive && stored.Some? && stored.value != b.incarnation)
    || Straggler(p, b)
    || b.incarnation < Watermark(p, b.id)
    || (stored.Some? && stored.value > b.incarnation)
  }

  /** The lowest tenure a beat may have: not below the watermark or the tenure stored, and
      above the one that said goodbye unless it is itself a goodbye. */
  function Floor(p: PoolState, b: Beat): nat {
    var stored := Stored(p, b.id);
    var said := if !b.leaving && b.id in p.gone then p.gone[b.id].tenure + 1 else 0;
    Max(Watermark(p, b.id), Max(if stored.Some? then stored.value else 0, said))
  }

  /** A beat is superseded exactly if its tenure is below the floor, or it asks for the seat
      exclusively and another tenure holds it. */
  lemma SupersededBelowFloor(p: PoolState, b: Beat)
    ensures Superseded(p, b) <==>
            b.incarnation < Floor(p, b) || (b.exclusive && b.id in p.members && Stored(p, b.id) != Some(b.incarnation))
  {
  }

  predicate Accepts(p: PoolState, b: Beat) {
    Admissible(b) && !Misshapen(p, b) && !Superseded(p, b)
  }

  function Arrival(b: Beat): Member {
    Member(b.id, b.slot, b.incarnation, b.url, b.state, b.ready)
  }

  function Departed(p: PoolState, b: Beat, forgetAt: Time): PoolState {
    var q := if b.id in p.members then Bumped(Without(p, b.id), b.id) else p;
    q.(gone := q.gone[b.id := Goodbye(b.incarnation, forgetAt)])
  }

  /** A missing number renews but publishes nothing once a number has been seen. */
  predicate Newer(held: Option<nat>, incoming: Option<nat>) {
    held.None? || (incoming.Some? && incoming.value > held.value)
  }

  /** A beat that changes what subscribers are told. */
  predicate Republishes(r: Record, b: Beat) {
    Newer(r.publication, b.publication) &&
    (r.member.url != b.url || r.member.state != b.state || r.member.ready != b.ready)
  }

  function Refreshed(r: Record, b: Beat, expiresAt: Time): Record {
    if Republishes(r, b) then
      Record(r.member.(url := b.url, state := b.state, ready := b.ready), b.publication, expiresAt, b.stateBytes)
    else if Newer(r.publication, b.publication) then
      r.(publication := b.publication, expiresAt := expiresAt)
    else r.(expiresAt := expiresAt)
  }

  function Renewed(p: PoolState, b: Beat, expiresAt: Time): PoolState
    requires b.id in p.members
  {
    var r := p.members[b.id];
    var q := p.(members := p.members[b.id := Refreshed(r, b, expiresAt)]);
    if Republishes(r, b) then Bumped(q, b.id) else q
  }

  function Arrived(p: PoolState, b: Beat, expiresAt: Time): PoolState {
    var q := if b.id in p.members then Without(p, b.id) else p;
    Bumped(With(q, Record(Arrival(b), b.publication, expiresAt, b.stateBytes)), b.id)
  }

  /** Raising the seat's high-water mark. */
  function Raised(p: PoolState, b: Beat, watermark: nat): PoolState {
    if b.slot.Some? && b.incarnation > watermark then p.(high := p.high[b.id := b.incarnation]) else p
  }

  function Acted(p: PoolState, b: Beat, deadline: Time): PoolState {
    if b.leaving then Departed(p, b, deadline)
    else if Stored(p, b.id) == Some(b.incarnation) then Renewed(p, b, deadline)
    else Arrived(p, b, deadline)
  }

  /** A refusal can still leave the beat's shape behind on an empty pool. */
  function Refused(p: PoolState, b: Beat): PoolState {
    if !Admissible(b) || Misshapen(p, b) then p else Shaped(p, b)
  }

  function Taken(p: PoolState, b: Beat, deadline: Time): PoolState {
    Raised(Acted(Shaped(p, b), b, deadline), b, Watermark(p, b.id))
  }

  /** The pool named by a beat, after that beat; `deadline` is its arrival plus the lease. */
  function OnBeat(p: PoolState, b: Beat, deadline: Time): PoolState {
    if Accepts(p, b) then Taken(p, b, deadline) else Refused(p, b)
  }

  // ------------------------------------------------------------------ one sweep

  function Expired(p: PoolState, now: Time): set<nat> {
    set id | id in p.members && p.members[id].expiresAt <= now
  }

  /** Dropping members one by one, a version each, in the order the table yields them. */
  function Dropped(p: PoolState, order: seq<nat>): PoolState
    decreases |order|
  {
    if order == [] then p
    else if order[0] in p.members then Dropped(Bumped(Without(p, order[0]), order[0]), order[1..])
    else Dropped(p, order[1..])
  }

  function Rung(waiters: seq<Bell>, alive: set<Bell>): seq<Bell> {
    if waiters == [] then []
    else (if waiters[0] in alive then [waiters[0]] else []) + Rung(waiters[1..], alive)
  }

  function Tidied(p: PoolState, now: Time, alive: set<Bell>): PoolState {
    p.(gone := map id | id in p.gone && p.gone[id].forgetAt > now :: p.gone[id],
       waiters := Rung(p.waiters, alive))
  }

  /** A listing of a set in some order, each element once. */
  ghost predicate Lists(order: seq<nat>, ids: set<nat>) {
    (forall i, j | 0 <= i < j < |order| :: order[i] != order[j]) && IdSet(order) == ids
  }

  lemma ListsAppend(order: seq<nat>, ids: set<nat>, id: nat)
    requires Lists(order, ids) && id !in ids
    ensures Lists(order + [id], ids + {id})
  {
    assert forall i | 0 <= i < |order| :: order[i] in IdSet(order);
  }

  /** One sweep: old goodbyes and dead bells go, then the lapsed members one by one. */
  function Swept(p: PoolState, now: Time, alive: set<Bell>, order: seq<nat>): PoolState {
    Dropped(Tidied(p, now, alive), order)
  }

  // --------------------------------------------------------- the invariant is kept

  lemma BumpKeepsContiguous(p: PoolState, id: nat)
    requires Contiguous(p.version, p.log)
    ensures Contiguous(p.version + 1, Bumped(p, id).log)
  {
  }

  lemma WithoutKeepsRoster(p: PoolState, id: nat)
    requires WellFormed(p) && id in p.members
    ensures RollOf(Without(p, id)) == RollOf(p) - {id}
    ensures WellFormed(Without(p, id))
  {
    assert RollOf(Without(p, id)) == RollOf(p) - {id};
    KeyedRoll(p);
    RosterWithout(RollOf(p), id);
  }

  lemma WithKeepsRoster(p: PoolState, r: Record)
    requires WellFormed(p) && r.member.id !in p.members
    ensures RollOf(With(p, r)) == RollOf(p)[r.member.id := r.member]
    ensures WellFormed(With(p, r))
  {
    assert RollOf(With(p, r)) == RollOf(p)[r.member.id := r.member];
    KeyedRoll(p);
    RosterWith(RollOf(p), r.member);
  }

  lemma BumpKeepsWellFormed(p: PoolState, id: nat)
    requires WellFormed(p)
    ensures WellFormed(Bumped(p, id))
  {
    BumpKeepsContiguous(p, id);
    assert RollOf(Bumped(p, id)) == RollOf(p);
  }

  /** Rewriting a record in place, same seat and same tenure. */
  lemma RewriteKeepsRoster(p: PoolState, r: Record)
    requires WellFormed(p) && Stored(p, r.member.id) == Some(r.member.incarnation)
    ensures WellFormed(p.(members := p.members[r.member.id := r]))
  {
    var q := p.(members := p.members[r.member.id := r]);
    assert RollOf(q) == RollOf(p)[r.member.id := r.member];
    KeyedRoll(p);
    RosterSameTenure(RollOf(p), r.member);
  }

  lemma RenewalKeepsRoster(p: PoolState, b: Beat, deadline: Time)
    requires WellFormed(p) && Stored(p, b.id) == Some(b.incarnation)
    ensures WellFormed(Renewed(p, b, deadline)) && Renewed(p, b, deadline).roster == p.roster
    ensures Renewed(p, b, deadline).members.Keys == p.members.Keys
    ensures forall k | k in p.members ::
              OccupantOf(Renewed(p, b, deadline).members[k].member) == OccupantOf(p.members[k].member)
  {
    var r := Refreshed(p.members[b.id], b, deadline);
    var q := p.(members := p.members[b.id := r]);
    RewriteKeepsRoster(p, r);
    BumpKeepsWellFormed(q, b.id);
  }

  lemma ArrivalKeepsRoster(p: PoolState, b: Beat, deadline: Time)
    requires WellFormed(p)
    ensures WellFormed(Arrived(p, b, deadline))
  {
    var q := if b.id in p.members then Without(p, b.id) else p;
    if b.id in p.members { WithoutKeepsRoster(p, b.id); }
    var r := Record(Arrival(b), b.publication, deadline, b.stateBytes);
    WithKeepsRoster(q, r);
    BumpKeepsWellFormed(With(q, r), b.id);
  }

  lemma DepartureKeepsRoster(p: PoolState, b: Beat, deadline: Time)
    requires WellFormed(p)
    ensures WellFormed(Departed(p, b, deadline))
  {
    var q := if b.id in p.members then Bumped(Without(p, b.id), b.id) else p;
    if b.id in p.members {
      WithoutKeepsRoster(p, b.id);
      BumpKeepsWellFormed(Without(p, b.id), b.id);
    }
    assert RollOf(Departed(p, b, deadline)) == RollOf(q);
    WellFormedFields(q, Departed(p, b, deadline));
  }

  lemma ActKeepsWellFormed(p: PoolState, b: Beat, deadline: Time)
    requires WellFormed(p)
    ensures WellFormed(Acted(p, b, deadline))
  {
    if b.leaving { DepartureKeepsRoster(p, b, deadline); }
    else if Stored(p, b.id) == Some(b.incarnation) { RenewalKeepsRoster(p, b, deadline); }
    else { ArrivalKeepsRoster(p, b, deadline); }
  }

  lemma ShapeKeepsWellFormed(p: PoolState, b: Beat)
    requires WellFormed(p)
    ensures WellFormed(Shaped(p, b)) && RollOf(Shaped(p, b)) == RollOf(p)
  {
    assert RollOf(Shaped(p, b)) == RollOf(p);
  }

  /** Every beat, accepted or refused, keeps the log contiguous and the stored
      fingerprint equal to the exclusive or over whoever is there. */
  lemma BeatKeepsWellFormed(p: PoolState, b: Beat, deadline: Time)
    requires WellFormed(p)
    ensures WellFormed(OnBeat(p, b, deadline))
  {
    ShapeKeepsWellFormed(p, b);
    var r := Acted(Shaped(p, b), b, deadline);
    ActKeepsWellFormed(Shaped(p, b), b, deadline);
    var q := Raised(r, b, Watermark(p, b.id));
    assert RollOf(q) == RollOf(r);
    WellFormedFields(r, q);
  }

  lemma {:induction false} DroppingKeepsWellFormed(p: PoolState, order: seq<nat>)
    requires WellFormed(p)
    ensures WellFormed(Dropped(p, order))
    decreases |order|
  {
    if order != [] {
      if order[0] in p.members {
        var q := Without(p, order[0]);
        WithoutKeepsRoster(p, order[0]);
        BumpKeepsWellFormed(q, order[0]);
        DroppingKeepsWellFormed(Bumped(q, order[0]), order[1..]);
      } else {
        DroppingKeepsWellFormed(p, order[1..]);
      }
    }
  }

  lemma SweepKeepsWellFormed(p: PoolState, now: Time, alive: set<Bell>, order: seq<nat>)
    requires WellFormed(p)
    ensures WellFormed(Swept(p, now, alive, order))
  {
    assert RollOf(Tidied(p, now, alive)) == RollOf(p);
    DroppingKeepsWellFormed(Tidied(p, now, alive), order);
  }

  /** A refused beat changes nothing about who is here, who was, or what was logged. */
  lemma RefusalChangesNothing(p: PoolState, b: Beat, deadline: Time)
    requires !Accepts(p, b)
    ensures var q := OnBeat(p, b, deadline);
            q.members == p.members && q.roster == p.roster && q.version == p.version &&
            q.log == p.log && q.high == p.high && q.gone == p.gone && q.waiters == p.waiters
  {
  }

  lemma SameOccupants(a: Roll, b: Roll)
    requires a.Keys == b.Keys && forall k | k in a :: OccupantOf(a[k]) == OccupantOf(b[k])
    ensures Occupants(a) == Occupants(b)
  {
  }

  /** Publishing state, readiness or a url never touches the fingerprint: among
      accepted beats only an arrival, a replacement or a goodbye can. */
  lemma PublishingKeepsFingerprint(p: PoolState, b: Beat, deadline: Time)
    requires WellFormed(p) && Accepts(p, b) && !b.leaving && Stored(p, b.id) == Some(b.incarnation)
    ensures OnBeat(p, b, deadline).roster == p.roster
    ensures Occupants(RollOf(OnBeat(p, b, deadline))) == Occupants(RollOf(p))
  {
    var s := Shaped(p, b);
    ShapeKeepsWellFormed(p, b);
    RenewalKeepsRoster(s, b, deadline);
    SameOccupants(RollOf(p), RollOf(OnBeat(p, b, deadline)));
  }

  // ----------------------------------------------------------------- the deltas

  function Oldest(log: seq<Change>): nat { if log == [] then 0 else log[0].version }

  /** Which position a watcher's claim resolves to: none when it never synced, fell
      off the log, or counts in some other process's numbering. */
  function Cursor(p: PoolState, seen: Option<nat>): Option<nat> {
    if seen.Some? && seen.value < p.version && seen.value + 1 >= Oldest(p.log) then seen else None
  }

  /** Everyone a scan over the whole retained log finds changed after version v. */
  function TouchedSince(log: seq<Change>, v: nat): set<nat> {
    set c | c in log && c.version > v :: c.id
  }

  ghost predicate AscendingIds(members: seq<Member>) {
    forall i, j | 0 <= i < j < |members| :: members[i].id < members[j].id
  }

  lemma AscendingDistinct(members: seq<Member>)
    requires AscendingIds(members)
    ensures DistinctIds(members)
  {
  }

  /** Exactly these ids, sorted, each with its present record or as removed. */
  ghost predicate Reports(roll: Roll, touched: set<nat>, d: PoolDelta) {
    && AscendingIds(d.changed) && ChangedIds(d.changed) == touched * roll.Keys
    && (forall m | m in d.changed :: m.id in roll && m == roll[m.id])
    && StrictlyAscending(d.removed) && IdSet(d.removed) == touched - roll.Keys
  }

  /** The whole roster, in any order. */
  ghost predicate ReportsAll(roll: Roll, d: PoolDelta) {
    && DistinctIds(d.changed) && ChangedIds(d.changed) == roll.Keys
    && (forall m | m in d.changed :: m.id in roll && m == roll[m.id])
    && d.removed == []
  }

  /** What a delta from `since` must say: the pool's own numbers and shape, and
      either the whole roster or what a full scan of the log finds after `since`. */
  ghost predicate IsDelta(p: PoolState, since: Option<nat>, d: PoolDelta) {
    && d.version == p.version && d.roster == p.roster
    && d.policy == p.policy && d.methods == p.methods && d.size == p.size
    && d.full == since.None?
    && (since.Some? ==> Reports(RollOf(p), TouchedSince(p.log, since.value), d))
    && (since.None? ==> ReportsAll(RollOf(p), d))
  }

  /** The answer to a watcher: silence exactly when it is up to date. */
  ghost predicate Answers(p: PoolState, seen: Option<nat>, answer: Option<PoolDelta>) {
    match answer
    case None => seen == Some(p.version)
    case Some(d) => seen != Some(p.version) && IsDelta(p, Cursor(p, seen), d)
  }

  /** Where the fast path starts reading is inside the log, and what lies from there
      on is what the full scan finds. */
  lemma FastScanIsFullScan(version: nat, log: seq<Change>, v: nat)
    requires Contiguous(version, log) && v < version && v + 1 >= Oldest(log)
    ensures 0 <= v + 1 - Oldest(log) < |log|
    ensures (set c | c in log[v + 1 - Oldest(log)..] :: c.id) == TouchedSince(log, v)
  {
    var start := v + 1 - Oldest(log);
    forall c ensures c in log[start..] <==> c in log && c.version > v {
      if c in log && c.version > v {
        var i :| 0 <= i < |log| && log[i] == c;
        assert log[start..][i - start] == c;
      }
      if c in log[start..] {
        var i :| 0 <= i < |log[start..]| && log[start..][i] == c;
        assert log[start + i] == c;
      }
    }
  }
}
