/** One pool that others join one after another, watched by a client of another pool: the
    pieces of the two runs that show where restarts bite. */
module Scenario {
  import opened Basics
  import opened Values
  import opened Protocol
  import opened PoolModel
  import opened Registries
  import opened Histories
  import opened Replicas
  import opened Systems

  const P: Name := "p"
  const TTL: nat := 200

  /** Member k says hello for the first time. */
  function Hello(k: nat): Beat {
    Beat(P, None, k, 1, None, "", None, None, Null, 4, true, false, false, [], [], map[], 0)
  }

  /** The pool once members 1 to v have said hello, in that order. */
  function Grown(v: nat): PoolState {
    if v == 0 then EMPTY_POOL else OnBeat(Grown(v - 1), Hello(v), TTL)
  }

  function RegOf(v: nat): Reg
  {
    if v == 0 then NEW_REG else Reg(map[P := Grown(v)], map[P := Growing(v)])
  }

  ghost predicate GrownTo(p: PoolState, v: nat) {
    && p.version == v && RollOf(p) == FirstN(v) && p.policy == "" && p.size == None && p.methods == []
    && p.gone == map[] && p.high == map[] && p.waiters == []
    && (forall k | k in p.members :: p.members[k] == Record(Newcomer(k), None, TTL, 4))
  }

  lemma RollKeys(p: PoolState, v: nat)
    requires RollOf(p) == FirstN(v)
    ensures forall k :: k in p.members <==> 1 <= k <= v
  {
    assert RollOf(p).Keys == p.members.Keys;
    assert forall k :: k in FirstN(v) <==> 1 <= k <= v;
  }

  lemma {:induction false} GrownIsGrown(v: nat)
    ensures GrownTo(Grown(v), v) && WellFormed(Grown(v)) && Chronicles(Growing(v), Grown(v))
  {
    if v == 0 {
      EmptyChronicled([]);
      assert RollOf(EMPTY_POOL) == FirstN(0);
      assert Growing(0) == BEGINNING;
    } else {
      GrownIsGrown(v - 1);
      GrowOne(v - 1, Grown(v - 1));
    }
  }

  function HelloRecord(k: nat): Record { Record(Newcomer(k), None, TTL, 4) }

  lemma HelloAccepted(v: nat, p: PoolState)
    requires GrownTo(p, v)
    ensures OnBeat(p, Hello(v + 1), TTL) == Bumped(With(p, HelloRecord(v + 1)), v + 1)
  {
    hide MemberHash, RosterOf, Trimmed;
    var b := Hello(v + 1);
    RollKeys(p, v);
    assert Arrival(b) == Newcomer(v + 1);
    assert Accepts(p, b);
    assert Shaped(p, b) == p;
    assert Stored(p, v + 1) == None;
  }

  lemma GrowOne(v: nat, p: PoolState)
    requires GrownTo(p, v) && WellFormed(p) && Chronicles(Growing(v), p)
    ensures var q := OnBeat(p, Hello(v + 1), TTL);
            GrownTo(q, v + 1) && WellFormed(q) && Chronicles(Growing(v + 1), q) &&
            After(Growing(v), p, q, v + 1) == Growing(v + 1)
  {
    hide OnBeat, MemberHash, RosterOf, Chronicles, WellFormed, Contiguous, Growing, Trimmed;
    var q := OnBeat(p, Hello(v + 1), TTL);
    HelloAccepted(v, p);
    BeatChronicled(Growing(v), p, Hello(v + 1), TTL);
    assert RollOf(q) == RollOf(p)[v + 1 := Newcomer(v + 1)];
    assert RollOf(q) == FirstN(v + 1);
    GrowingNoted(v);
  }

  lemma GrowingNoted(v: nat)
    ensures Noted(Growing(v), v + 1, FirstN(v + 1)) == Growing(v + 1)
  {
    var h, later := Noted(Growing(v), v + 1, FirstN(v + 1)), Growing(v + 1);
    assert h.changes == later.changes;
    assert h.snaps == later.snaps;
  }

  /** One more hello moves the whole registry along. */
  lemma HelloMovesOn(v: nat)
    ensures RegAfterBeat(RegOf(v), Hello(v + 1), 0, TTL) == RegOf(v + 1)
    ensures Recorded(RegOf(v))
  {
    hide OnBeat, Growing, WellFormed, Chronicles, After, GrownTo;
    GrownIsGrown(v);
    GrowOne(v, Grown(v));
    assert Growing(0) == BEGINNING by { GrowingZero(); }
    assert Admissible(Hello(v + 1));
  }

  lemma GrowingZero()
    ensures Growing(0) == BEGINNING
  {
  }

  // ----------------------------------------------------------------- the replies

  function Listing(from: nat, to: nat): seq<Member>
    requires from <= to
  {
    seq(to - from, i requires 0 <= i < to - from => Newcomer(from + 1 + i))
  }

  function FullDelta(v: nat): PoolDelta {
    PoolDelta(v, Grown(v).roster, "", [], None, Listing(0, v), [], true)
  }

  function LateDelta(s: nat, v: nat): PoolDelta
    requires s < v
  {
    PoolDelta(v, Grown(v).roster, "", [], None, Listing(s, v), [], false)
  }

  function Reply(epoch: nat, d: PoolDelta): BeatAck { BeatAck(epoch, TTL, true, false, map[P := d]) }

  lemma FullDeltaIsDelta(v: nat)
    ensures IsDelta(Grown(v), None, FullDelta(v))
  {
    hide RosterOf, Chronicles, Contiguous, Grown;
    GrownIsGrown(v);
    var changed := Listing(0, v);
    forall k ensures k in ChangedIds(changed) <==> 1 <= k <= v {
      if 1 <= k <= v { assert changed[k - 1].id == k; }
    }
    assert ChangedIds(changed) == FirstN(v).Keys;
  }

  lemma LateDeltaIsDelta(s: nat, v: nat)
    requires s < v <= LOG_CAP
    ensures Cursor(Grown(v), Some(s)) == Some(s) && IsDelta(Grown(v), Some(s), LateDelta(s, v))
  {
    hide RosterOf, Grown;
    GrownIsGrown(v);
    var p := Grown(v);
    GrownRoster(v);
    LogTellsHistory(Growing(v), p.version, p.log, s);
    GrowingDelta(v, s, LateDelta(s, v));
  }

  lemma GrownRoster(v: nat)
    ensures Grown(v).roster == RosterOf(FirstN(v))
  {
    hide RosterOf, Chronicles, Contiguous, Grown;
    GrownIsGrown(v);
  }

  lemma GrownVersion(v: nat)
    ensures Grown(v).version == v
  {
    GrownIsGrown(v);
  }

  lemma GrownRoll(v: nat)
    ensures RollOf(Grown(v)) == FirstN(v) && Grown(v).version == v
  {
    GrownIsGrown(v);
  }

  lemma NoCursor(v: nat)
    ensures Cursor(Grown(v), None) == None && (v < 2 ==> Cursor(Grown(v), Some(2)) == None)
  {
    hide Grown;
    GrownVersion(v);
  }

  // ------------------------------------------------------------------ the client's beats

  const Q: Name := "q"

  /** The client is member 7 of another pool and watches this one. */
  function Mine(seen: map<Name, nat>, hold: nat, leaving: bool): Beat {
    Beat(Q, None, 7, 1, None, "", None, None, Null, 4, true, leaving, false, [], [P], seen, hold)
  }

  lemma MineAccepted(seen: map<Name, nat>, hold: nat)
    ensures Admissible(Mine(seen, hold, false)) && Admissible(Mine(seen, hold, true))
    ensures Accepts(EMPTY_POOL, Mine(seen, hold, false))
    ensures Accepts(OnBeat(EMPTY_POOL, Mine(seen, hold, false), TTL), Mine(seen, 0, true))
  {
    hide MemberHash, Trimmed;
  }

  /** What a beat of the client's is told about the pool it watches. */
  lemma MineAnswered(r: Reg, v: nat, b: Beat, epoch: nat, d: PoolDelta)
    requires P in r.book && r.book[P] == Grown(v) && b.pool == Q && b.watch == [P] && SeenAt(b, P) != Some(v)
    requires Accepts(PoolAt(r.book, Q), b) && IsDelta(Grown(v), Cursor(Grown(v), SeenAt(b, P)), d)
    ensures Replies(r.book, b, 0, TTL, epoch, Reply(epoch, d))
    ensures var q := RegAfterBeat(r, b, 0, TTL);
            P in q.book && q.book[P] == Grown(v) && Q in q.book && q.book[Q] == OnBeat(PoolAt(r.book, Q), b, TTL)
  {
    hide Grown, OnBeat, IsDelta, Cursor, Superseded, After;
    GrownVersion(v);
    assert NameSet(b.watch) == {P};
  }

  // ---------------------------------------------------------------- the client's cache

  function Holding(epoch: nat, v: nat, roster: nat, roll: Roll): ClientState {
    ClientState(map[P := Replica(v, roster, roll, [], None)], epoch, true, false)
  }

  lemma FullReplyTaken(c: ClientState, epoch: nat, v: nat)
    requires c == NEW_CLIENT || (Restarted(c, Reply(epoch, FullDelta(v))) && c.accepted && !c.refused)
    ensures Applied(c, Reply(epoch, FullDelta(v))) == Holding(epoch, v, Grown(v).roster, FirstN(v))
  {
    hide Grown, Patched, IsDelta;
    FullDeltaIsDelta(v);
    GrownIsFull(v);
    FullLands(map[], FirstN(v), FullDelta(v));
    var d := FullDelta(v);
    assert Merged(map[], Restarted(c, Reply(epoch, d)), map[P := d]) == map[P := Updated(FRESH_REPLICA, d)];
  }

  lemma GrownIsFull(v: nat)
    ensures ReportsAll(FirstN(v), FullDelta(v))
  {
    hide Grown, Chronicles, WellFormed;
    FullDeltaIsDelta(v);
    GrownIsGrown(v);
  }

  /** After a restart an incremental delta is dropped, and the cache with it. */
  lemma LateReplyDropped(c: ClientState)
    requires c.seenEpoch == 1 && c.accepted && !c.refused
    ensures Applied(c, Reply(2, LateDelta(2, 3))) == ClientState(map[], 2, true, false)
  {
    hide Grown;
  }

  // -------------------------------------------------------------------- how both begin

  const FIRST: Sent := Sent(Mine(map[], 0, false), 1, 0)
  /** The beat the loop has out when the registry is restarted, composed at version 2. */
  const HELD: Sent := Sent(Mine(map[P := 2], 50, false), 2, 0)

  function FirstAck(): Flight { Flight(FIRST, Reply(1, FullDelta(2))) }

  function HeldAck(): Flight { Flight(HELD, Reply(2, LateDelta(2, 3))) }

  function Knows(): ClientState { Holding(1, 2, Grown(2).roster, FirstN(2)) }

  lemma KnowsOld()
    ensures Knows().seenEpoch == 1 && Knows().accepted && !Knows().refused
  {
    hide Grown;
  }

  /** The first process once the client has joined, and the second once it has. */
  function Old(): Reg { RegAfterBeat(RegOf(2), FIRST.beat, 0, TTL) }

  function New(): Reg { RegAfterBeat(RegOf(3), HELD.beat, 0, TTL) }

  lemma FirstAnswered()
    ensures Replies(RegOf(2).book, FIRST.beat, 0, TTL, 1, FirstAck().ack)
    ensures Applied(NEW_CLIENT, FirstAck().ack) == Knows() && SeenOf(Knows().cache, [P]) == map[P := 2]
    ensures NotBehind(NEW_CLIENT, FirstAck())
  {
    hide Grown, OnBeat, IsDelta, Cursor, Accepts, RegAfterBeat, Replies, Applied;
    FullDeltaIsDelta(2);
    NoCursor(2);
    MineAccepted(map[], 0);
    MineAnswered(RegOf(2), 2, FIRST.beat, 1, FullDelta(2));
    FullReplyTaken(NEW_CLIENT, 1, 2);
  }

  lemma HeldAnswered()
    ensures Replies(RegOf(3).book, HELD.beat, 0, TTL, 2, HeldAck().ack)
    ensures P in New().book && New().book[P] == Grown(3)
    ensures Q in New().book && New().book[Q] == OnBeat(EMPTY_POOL, HELD.beat, TTL)
  {
    hide Grown, OnBeat, IsDelta, Cursor, Accepts, RegAfterBeat, Replies, LateDelta;
    LateDeltaIsDelta(2, 3);
    MineAccepted(map[P := 2], 50);
    MineAnswered(RegOf(3), 3, HELD.beat, 2, LateDelta(2, 3));
  }
}
