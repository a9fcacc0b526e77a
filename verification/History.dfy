/** Everything a pool has ever been, kept on the side: which id each version
    changed, and who was there at each version. The bounded log is a window onto
    it, and a delta is a statement about two of its moments. */
module Histories {
  import opened Basics
  import opened Values
  import opened Protocol
  import opened PoolModel

  /** Version i + 1 changed `changes[i]`; `snaps[v]` is the roster at version v. */
  datatype History = History(changes: seq<nat>, snaps: seq<Roll>)

  const BEGINNING: History := History([], [map[]])

  /** Two rosters that differ at most at one id. */
  predicate SameOff(a: Roll, b: Roll, id: nat) { a - {id} == b - {id} }

  ghost predicate Continuous(h: History) {
    && |h.snaps| == |h.changes| + 1 && h.snaps[0] == map[]
    && forall i | 0 <= i < |h.changes| :: SameOff(h.snaps[i], h.snaps[i + 1], h.changes[i])
  }

  /** The log is the tail of the history. */
  ghost predicate Windows(h: History, version: nat, log: seq<Change>) {
    |h.changes| == version && |log| <= version &&
    forall i | 0 <= i < |log| :: log[i] == Change(version - |log| + i + 1, h.changes[version - |log| + i])
  }

  /** This is the history of that pool. */
  ghost predicate Chronicles(h: History, p: PoolState) {
    && Continuous(h) && Windows(h, p.version, p.log)
    && h.snaps[p.version] == RollOf(p)
  }

  predicate Extends(h: History, later: History) {
    h.changes <= later.changes && h.snaps <= later.snaps
  }

  // ------------------------------------------------------- between two versions

  function TouchedBetween(h: History, s: nat, w: nat): set<nat>
    requires w <= |h.changes|
  {
    set i | s <= i < w :: h.changes[i]
  }

  /** An id nobody touched between two versions reads the same at both. */
  lemma {:induction false} UntouchedStays(h: History, c: nat, w: nat, id: nat)
    requires Continuous(h) && c <= w <= |h.changes| && id !in TouchedBetween(h, c, w)
    ensures id in h.snaps[c] <==> id in h.snaps[w]
    ensures id in h.snaps[c] ==> h.snaps[c][id] == h.snaps[w][id]
    decreases w - c
  {
    if c < w {
      assert h.changes[c] in TouchedBetween(h, c, w);
      assert SameOff(h.snaps[c], h.snaps[c + 1], h.changes[c]);
      var a, b := h.snaps[c] - {h.changes[c]}, h.snaps[c + 1] - {h.changes[c]};
      assert id in h.snaps[c] <==> id in a;
      assert id in h.snaps[c + 1] <==> id in b;
      assert id in a ==> a[id] == b[id];
      assert TouchedBetween(h, c + 1, w) <= TouchedBetween(h, c, w);
      UntouchedStays(h, c + 1, w, id);
    }
  }

  /** Scanning the log for what came after v finds what the whole history says. */
  lemma LogTellsHistory(h: History, version: nat, log: seq<Change>, v: nat)
    requires Windows(h, version, log) && Contiguous(version, log)
    requires v < version && v + 1 >= Oldest(log)
    ensures TouchedSince(log, v) == TouchedBetween(h, v, version)
  {
    forall id ensures id in TouchedSince(log, v) <==> id in TouchedBetween(h, v, version) {
      if id in TouchedSince(log, v) {
        var c :| c in log && c.version > v && c.id == id;
        var i :| 0 <= i < |log| && log[i] == c;
        assert h.changes[version - |log| + i] == id;
      }
      if id in TouchedBetween(h, v, version) {
        var i :| v <= i < version && h.changes[i] == id;
        var c := log[i - (version - |log|)];
        assert c in log && c.version == i + 1 && c.id == id;
      }
    }
  }

  // -------------------------------------------------------- a delta in hindsight

  /** A delta once built stays a true statement about the history, whatever
      happens to the pool afterwards. */
  ghost predicate Recounts(h: History, since: Option<nat>, d: PoolDelta) {
    && |h.snaps| == |h.changes| + 1 && d.version <= |h.changes|
    && d.roster == RosterOf(h.snaps[d.version])
    && d.full == since.None?
    && (since.Some? ==> since.value < d.version &&
                        Reports(h.snaps[d.version], TouchedBetween(h, since.value, d.version), d))
    && (since.None? ==> ReportsAll(h.snaps[d.version], d))
  }

  lemma DeltaRecounts(h: History, p: PoolState, since: Option<nat>, d: PoolDelta)
    requires WellFormed(p) && Chronicles(h, p)
    requires Cursor(p, since) == since && IsDelta(p, since, d)
    ensures Recounts(h, since, d)
  {
    if since.Some? { LogTellsHistory(h, p.version, p.log, since.value); }
  }

  lemma RecountsForever(h: History, later: History, since: Option<nat>, d: PoolDelta)
    requires Recounts(h, since, d) && Extends(h, later) && |later.snaps| == |later.changes| + 1
    ensures Recounts(later, since, d)
  {
    assert later.snaps[d.version] == h.snaps[d.version];
    if since.Some? {
      assert TouchedBetween(later, since.value, d.version) == TouchedBetween(h, since.value, d.version);
    }
  }

  /** The whole roster lands right whatever was held before. */
  lemma FullLands(roll: Roll, snap: Roll, d: PoolDelta)
    requires d.full && ReportsAll(snap, d)
    ensures Patched(roll, d) == snap
  {
    InsertedContents(map[], d.changed);
    var r := Patched(roll, d);
    assert r.Keys == snap.Keys;
    forall k | k in snap ensures r[k] == snap[k] {
      assert k in ChangedIds(d.changed);
    }
  }

  /** The key step. A delta that says what changed in (s, w] takes a replica that
      stands at c to the roster at w, as long as s <= c <= w: what it retells of
      (s, c] it retells as of w. */
  lemma DeltaLands(h: History, since: Option<nat>, d: PoolDelta, c: nat)
    requires Continuous(h) && Recounts(h, since, d) && c <= d.version
    requires since.Some? ==> since.value <= c
    ensures Patched(h.snaps[c], d) == h.snaps[d.version]
  {
    var snap := h.snaps[d.version];
    if since.None? {
      FullLands(h.snaps[c], snap, d);
    } else {
      AscendingDistinct(d.changed);
      InsertedContents(h.snaps[c], d.changed);
      var touched := TouchedBetween(h, since.value, d.version);
      var r := Patched(h.snaps[c], d);
      forall k
        ensures k in r <==> k in snap
        ensures k in snap ==> r[k] == snap[k]
      {
        if k in touched {
          if k in snap { assert k in ChangedIds(d.changed); }
        } else {
          assert TouchedBetween(h, c, d.version) <= touched;
          UntouchedStays(h, c, d.version, k);
        }
      }
    }
  }

  // ----------------------------------------------- and when it would not land

  /** A pool that admits one newcomer per version: member v arrives at version v. */
  function Newcomer(id: nat): Member { Member(id, None, 1, None, Null, true) }

  function FirstN(n: nat): Roll { map k | 1 <= k <= n :: Newcomer(k) }

  function Growing(n: nat): History {
    History(seq(n, i => i + 1), seq(n + 1, i requires 0 <= i <= n => FirstN(i)))
  }

  lemma GrowingContinuous(n: nat)
    ensures Continuous(Growing(n))
  {
    var h := Growing(n);
    forall i | 0 <= i < n ensures SameOff(h.snaps[i], h.snaps[i + 1], h.changes[i]) {
      assert FirstN(i) - {i + 1} == FirstN(i);
      assert FirstN(i + 1) - {i + 1} == FirstN(i);
    }
  }

  /** The condition is exact: with the replica behind the delta's start, c < s < w,
      there is a history on which the very same step leaves the replica wrong while
      its version says it is right. */
  lemma DeltaMissesWhenBehind(c: nat, s: nat, w: nat)
    requires c < s < w
    ensures exists h: History, d: PoolDelta ::
              Continuous(h) && Recounts(h, Some(s), d) && d.version == w &&
              Patched(h.snaps[c], d) != h.snaps[w]
  {
    hide Recounts, Continuous, RosterOf, AscendingIds, DistinctIds;
    var h := Growing(w);
    GrowingContinuous(w);
    var changed := seq(w - s, i requires 0 <= i < w - s => Newcomer(s + 1 + i));
    var d := PoolDelta(w, RosterOf(h.snaps[w]), "", [], None, changed, [], false);
    GrowingDelta(w, s, d);
    NewcomersDistinct(changed, s);
    InsertedContents(h.snaps[c], changed);
    assert s in h.snaps[w] && s !in Patched(h.snaps[c], d);
  }

  /** Hence exactly: a delta from s to w lands on a replica at c, whatever happened
      to the pool, if and only if the replica is not behind the delta's start. */
  lemma LandsExactlyWhenNotBehind(c: nat, s: nat, w: nat)
    requires s < w && c <= w
    ensures s <= c <==>
            forall h: History, d: PoolDelta |
              Continuous(h) && Recounts(h, Some(s), d) && d.version == w :: Patched(h.snaps[c], d) == h.snaps[w]
  {
    hide Reports, RosterOf, Patched;
    if s <= c {
      forall h: History, d: PoolDelta | Continuous(h) && Recounts(h, Some(s), d) && d.version == w
        ensures Patched(h.snaps[c], d) == h.snaps[w]
      {
        DeltaLands(h, Some(s), d, c);
      }
    } else {
      DeltaMissesWhenBehind(c, s, w);
      var h: History, d: PoolDelta :|
        Continuous(h) && Recounts(h, Some(s), d) && d.version == w && Patched(h.snaps[c], d) != h.snaps[w];
      assert Continuous(h) && Recounts(h, Some(s), d);
    }
  }

  lemma NewcomersDistinct(changed: seq<Member>, s: nat)
    requires forall i | 0 <= i < |changed| :: changed[i] == Newcomer(s + 1 + i)
    ensures DistinctIds(changed)
  {
  }

  lemma GrowingDelta(w: nat, s: nat, d: PoolDelta)
    requires s < w && d.version == w && d.roster == RosterOf(FirstN(w)) && !d.full && d.removed == []
    requires d.changed == seq(w - s, i requires 0 <= i < w - s => Newcomer(s + 1 + i))
    ensures Recounts(Growing(w), Some(s), d)
    ensures forall k :: k in ChangedIds(d.changed) <==> s < k <= w
  {
    hide RosterOf;
    var h := Growing(w);
    var touched := TouchedBetween(h, s, w);
    forall k ensures k in touched <==> s < k <= w {
      if s < k <= w { assert h.changes[k - 1] == k; }
    }
    forall k ensures k in ChangedIds(d.changed) <==> s < k <= w {
      if s < k <= w { assert d.changed[k - s - 1].id == k; }
    }
    assert h.snaps[w] == FirstN(w);
    assert ChangedIds(d.changed) == touched * h.snaps[w].Keys;
    assert IdSet([]) == touched - h.snaps[w].Keys;
  }

  // --------------------------------------------------------- writing it down

  /** One more version. */
  function Noted(h: History, id: nat, roll: Roll): History {
    History(h.changes + [id], h.snaps + [roll])
  }

  lemma NotedWindow(h: History, p: PoolState, id: nat, roll: Roll)
    requires Windows(h, p.version, p.log) && Contiguous(p.version, p.log)
    ensures Windows(Noted(h, id, roll), p.version + 1, Bumped(p, id).log)
  {
  }

  lemma BumpChronicled(h: History, p: PoolState, q: PoolState, id: nat)
    requires Chronicles(h, p) && Contiguous(p.version, p.log)
    requires q.version == p.version && q.log == p.log && SameOff(RollOf(p), RollOf(q), id)
    ensures Chronicles(Noted(h, id, RollOf(q)), Bumped(q, id)) && Extends(h, Noted(h, id, RollOf(q)))
  {
    var later := Noted(h, id, RollOf(q));
    NotedWindow(h, q, id, RollOf(q));
    assert RollOf(Bumped(q, id)) == RollOf(q);
    forall i | 0 <= i < |later.changes| ensures SameOff(later.snaps[i], later.snaps[i + 1], later.changes[i]) {
      if i < |h.changes| { assert SameOff(h.snaps[i], h.snaps[i + 1], h.changes[i]); }
    }
  }

  /** The history after a step that changed at most `id`. */
  function After(h: History, p: PoolState, q: PoolState, id: nat): History {
    if q.version == p.version then h else Noted(h, id, RollOf(q))
  }

  /** At most one version, logged under `id`, and nobody else's record touched. */
  ghost predicate MovesOne(p: PoolState, q: PoolState, id: nat) {
    || (q.version == p.version && q.log == p.log && RollOf(q) == RollOf(p))
    || (q.version == p.version + 1 && q.log == Bumped(p, id).log && SameOff(RollOf(p), RollOf(q), id))
  }

  lemma RollPut(p: PoolState, q: PoolState, r: Record)
    requires q.members == p.members[r.member.id := r]
    ensures SameOff(RollOf(p), RollOf(q), r.member.id)
  {
  }

  lemma RollTake(p: PoolState, q: PoolState, id: nat)
    requires q.members == p.members - {id}
    ensures SameOff(RollOf(p), RollOf(q), id)
  {
  }

  lemma DepartureMovesOne(p: PoolState, b: Beat, deadline: Time)
    ensures MovesOne(p, Departed(p, b, deadline), b.id)
  {
    hide MemberHash, Trimmed;
    var q := Departed(p, b, deadline);
    if b.id in p.members {
      RollTake(p, q, b.id);
    } else {
      assert RollOf(q) == RollOf(p);
    }
  }

  lemma RenewalMovesOne(p: PoolState, b: Beat, deadline: Time)
    requires Keyed(p.members) && b.id in p.members
    ensures MovesOne(p, Renewed(p, b, deadline), b.id)
  {
    hide Trimmed;
    var q := Renewed(p, b, deadline);
    var r := Refreshed(p.members[b.id], b, deadline);
    if Republishes(p.members[b.id], b) {
      RollPut(p, q, r);
    } else {
      assert r.member == p.members[b.id].member;
      assert RollOf(q) == RollOf(p);
    }
  }

  lemma ArrivalMovesOne(p: PoolState, b: Beat, deadline: Time)
    ensures MovesOne(p, Arrived(p, b, deadline), b.id)
  {
    hide MemberHash, Trimmed;
    var q := Arrived(p, b, deadline);
    var r := Record(Arrival(b), b.publication, deadline, b.stateBytes);
    var mid := if b.id in p.members then Without(p, b.id) else p;
    assert q.members == mid.members[b.id := r] == p.members[b.id := r];
    RollPut(p, q, r);
  }

  lemma ActMovesOne(p: PoolState, b: Beat, deadline: Time)
    requires Keyed(p.members)
    ensures MovesOne(p, Acted(p, b, deadline), b.id)
  {
    hide MovesOne, Departed, Renewed, Arrived;
    if b.leaving { DepartureMovesOne(p, b, deadline); }
    else if Stored(p, b.id) == Some(b.incarnation) { RenewalMovesOne(p, b, deadline); }
    else { ArrivalMovesOne(p, b, deadline); }
  }

  lemma BeatMovesOne(p: PoolState, b: Beat, deadline: Time)
    requires Keyed(p.members)
    ensures MovesOne(p, OnBeat(p, b, deadline), b.id)
  {
    hide Acted, Trimmed, Accepts, Misshapen, Admissible, Watermark;
    var s := Shaped(p, b);
    assert RollOf(s) == RollOf(p);
    var r := Acted(s, b, deadline);
    ActMovesOne(s, b, deadline);
    assert MovesOne(p, r, b.id);
    var q := Raised(r, b, Watermark(p, b.id));
    assert RollOf(q) == RollOf(r);
  }

  lemma BeatChronicled(h: History, p: PoolState, b: Beat, deadline: Time)
    requires WellFormed(p) && Chronicles(h, p)
    ensures var q := OnBeat(p, b, deadline);
            var later := After(h, p, q, b.id);
            WellFormed(q) && Chronicles(later, q) && Extends(h, later)
  {
    hide OnBeat, WellFormed;
    var q := OnBeat(p, b, deadline);
    BeatKeepsWellFormed(p, b, deadline);
    WellFormedContiguous(p);
    BeatMovesOne(p, b, deadline);
    if q.version == p.version {
      assert Chronicles(h, q);
    } else {
      var mid := q.(version := p.version, log := p.log);
      assert RollOf(mid) == RollOf(q);
      BumpChronicled(h, p, mid, b.id);
    }
  }

  lemma WellFormedContiguous(p: PoolState)
    requires WellFormed(p)
    ensures Contiguous(p.version, p.log) && Keyed(p.members)
  {
  }

  /** The history after a sweep that dropped members in this order. */
  function AfterDrops(h: History, p: PoolState, order: seq<nat>): History
    decreases |order|
  {
    if order == [] then h
    else if order[0] in p.members then
      var q := Bumped(Without(p, order[0]), order[0]);
      AfterDrops(Noted(h, order[0], RollOf(q)), q, order[1..])
    else AfterDrops(h, p, order[1..])
  }

  lemma {:induction false} DropsChronicled(h: History, p: PoolState, order: seq<nat>)
    requires WellFormed(p) && Chronicles(h, p)
    ensures Chronicles(AfterDrops(h, p, order), Dropped(p, order)) && Extends(h, AfterDrops(h, p, order))
    decreases |order|
  {
    hide Contiguous, Chronicles;
    if order != [] {
      var id := order[0];
      if id in p.members {
        var w := Without(p, id);
        WithoutKeepsRoster(p, id);
        BumpKeepsWellFormed(w, id);
        assert SameOff(RollOf(p), RollOf(w), id);
        BumpChronicled(h, p, w, id);
        assert RollOf(Bumped(w, id)) == RollOf(w);
        DropsChronicled(Noted(h, id, RollOf(w)), Bumped(w, id), order[1..]);
      } else {
        DropsChronicled(h, p, order[1..]);
      }
    }
  }

  function AfterSweep(h: History, p: PoolState, now: Time, alive: set<Bell>, order: seq<nat>): History {
    AfterDrops(h, Tidied(p, now, alive), order)
  }

  lemma SweepChronicled(h: History, p: PoolState, now: Time, alive: set<Bell>, order: seq<nat>)
    requires WellFormed(p) && Chronicles(h, p)
    ensures var q := Swept(p, now, alive, order);
            var later := AfterSweep(h, p, now, alive, order);
            WellFormed(q) && Chronicles(later, q) && Extends(h, later)
  {
    var t := Tidied(p, now, alive);
    assert RollOf(t) == RollOf(p);
    WellFormedFields(p, t);
    SweepKeepsWellFormed(p, now, alive, order);
    DropsChronicled(h, t, order);
  }
}
