/** Whole runs of one pool: what beats, sweeps and parked callers can do to it in
    any order, under a clock that never goes backwards. */
module PoolRuns {
  import opened Basics
  import opened Values
  import opened Protocol
  import opened PoolModel

  datatype Step =
    | Lands(beat: Beat, now: Time)
    | Sweep(now: Time, alive: set<Bell>, order: seq<nat>)
    | Wait(bell: Bell, now: Time)

  ghost predicate Next(p: PoolState, step: Step, q: PoolState, ttl: nat) {
    match step
    case Lands(b, now) => q == OnBeat(p, b, now + ttl)
    case Sweep(now, alive, order) => Lists(order, Expired(p, now)) && q == Swept(p, now, alive, order)
    case Wait(bell, now) => q == p.(waiters := p.waiters + [bell])
  }

  ghost predicate IsRun(states: seq<PoolState>, steps: seq<Step>, ttl: nat) {
    && |states| == |steps| + 1
    && (forall i | 0 <= i < |steps| :: Next(states[i], steps[i], states[i + 1], ttl))
    && (forall i, j | 0 <= i < j < |steps| :: steps[i].now <= steps[j].now)
  }

  /** Step i is a beat for `id` that the pool accepted. */
  predicate Accepted(states: seq<PoolState>, steps: seq<Step>, i: nat, id: nat)
    requires |states| == |steps| + 1
  {
    i < |steps| && steps[i].Lands? && steps[i].beat.id == id && Accepts(states[i], steps[i].beat)
  }

  // ------------------------------------------------- what one step does to a seat

  lemma {:induction false} DroppedSeats(p: PoolState, order: seq<nat>, id: nat)
    ensures var q := Dropped(p, order);
            q.high == p.high && q.gone == p.gone &&
            (id in q.members <==> id in p.members && id !in order) &&
            (id in q.members ==> q.members[id] == p.members[id])
    decreases |order|
  {
    hide MemberHash, Trimmed;
    if order != [] {
      var q := if order[0] in p.members then Bumped(Without(p, order[0]), order[0]) else p;
      DroppedSeats(q, order[1..], id);
      assert order == [order[0]] + order[1..];
    }
  }

  /** A sweep drops exactly the lapsed leases, forgets exactly the lapsed goodbyes,
      and keeps every high-water mark. */
  lemma SweepSeats(p: PoolState, now: Time, alive: set<Bell>, order: seq<nat>, id: nat)
    requires Lists(order, Expired(p, now))
    ensures var q := Swept(p, now, alive, order);
            q.high == p.high &&
            (id in q.members <==> id in p.members && p.members[id].expiresAt > now) &&
            (id in q.members ==> q.members[id] == p.members[id]) &&
            (id in q.gone <==> id in p.gone && p.gone[id].forgetAt > now) &&
            (id in q.gone ==> q.gone[id] == p.gone[id])
  {
    DroppedSeats(Tidied(p, now, alive), order, id);
    assert id in order <==> id in Expired(p, now) by { assert id in order <==> id in IdSet(order); }
  }

  /** Nothing about this seat is different. */
  predicate SameSeat(p: PoolState, q: PoolState, id: nat) {
    && (id in q.members <==> id in p.members) && (id in q.members ==> q.members[id] == p.members[id])
    && (id in q.gone <==> id in p.gone) && (id in q.gone ==> q.gone[id] == p.gone[id])
    && Watermark(q, id) == Watermark(p, id)
  }

  lemma ActElsewhere(p: PoolState, b: Beat, deadline: Time, id: nat)
    requires id != b.id
    ensures SameSeat(p, Acted(p, b, deadline), id)
  {
    hide MemberHash, Trimmed, Refreshed, Republishes;
    if b.leaving {
      assert SameSeat(p, Departed(p, b, deadline), id);
    } else if Stored(p, b.id) == Some(b.incarnation) {
      assert SameSeat(p, Renewed(p, b, deadline), id);
    } else {
      assert SameSeat(p, Arrived(p, b, deadline), id);
    }
  }

  /** A beat touches nobody else's seat. */
  lemma BeatElsewhere(p: PoolState, b: Beat, deadline: Time, id: nat)
    requires id != b.id
    ensures SameSeat(p, OnBeat(p, b, deadline), id)
  {
    hide Acted, Accepts, Admissible, Misshapen;
    ActElsewhere(Shaped(p, b), b, deadline, id);
  }

  lemma DepartedSeat(p: PoolState, b: Beat, deadline: Time)
    ensures var q := Departed(p, b, deadline);
            b.id !in q.members && q.high == p.high &&
            b.id in q.gone && q.gone[b.id] == Goodbye(b.incarnation, deadline)
  {
    hide MemberHash, Trimmed;
  }

  lemma RenewedSeat(p: PoolState, b: Beat, deadline: Time)
    requires Stored(p, b.id) == Some(b.incarnation)
    ensures var q := Renewed(p, b, deadline);
            q.gone == p.gone && q.high == p.high && b.id in q.members &&
            q.members[b.id] == Refreshed(p.members[b.id], b, deadline) &&
            Stored(q, b.id) == Some(b.incarnation) && q.members[b.id].expiresAt == deadline
  {
    hide Trimmed, Republishes, Newer;
  }

  lemma ArrivedSeat(p: PoolState, b: Beat, deadline: Time)
    ensures var q := Arrived(p, b, deadline);
            q.gone == p.gone && q.high == p.high && b.id in q.members &&
            q.members[b.id] == Record(Arrival(b), b.publication, deadline, b.stateBytes)
  {
    hide MemberHash, Trimmed;
  }

  /** What an accepted beat leaves at its own seat. */
  ghost predicate LeavesBehind(p: PoolState, b: Beat, deadline: Time, q: PoolState) {
    && (b.leaving ==> b.id !in q.members && b.id in q.gone && q.gone[b.id] == Goodbye(b.incarnation, deadline))
    && (!b.leaving ==> Stored(q, b.id) == Some(b.incarnation) && q.members[b.id].expiresAt == deadline && q.gone == p.gone)
    && (!b.leaving && Stored(p, b.id) == Some(b.incarnation) ==>
          q.members[b.id] == Refreshed(p.members[b.id], b, deadline))
    && (!b.leaving && Stored(p, b.id) != Some(b.incarnation) ==>
          q.members[b.id] == Record(Arrival(b), b.publication, deadline, b.stateBytes))
  }

  lemma ActAtSeat(p: PoolState, b: Beat, deadline: Time)
    ensures LeavesBehind(p, b, deadline, Acted(p, b, deadline)) && Acted(p, b, deadline).high == p.high
  {
    hide Departed, Renewed, Arrived, Refreshed;
    if b.leaving { DepartedSeat(p, b, deadline); }
    else if Stored(p, b.id) == Some(b.incarnation) { RenewedSeat(p, b, deadline); }
    else { ArrivedSeat(p, b, deadline); }
  }

  lemma BeatAtSeat(p: PoolState, b: Beat, deadline: Time)
    requires Accepts(p, b)
    ensures LeavesBehind(p, b, deadline, OnBeat(p, b, deadline))
    ensures Watermark(OnBeat(p, b, deadline), b.id) ==
            if b.slot.Some? then Max(Watermark(p, b.id), b.incarnation) else Watermark(p, b.id)
  {
    hide Acted, Accepts, Refreshed;
    ActAtSeat(Shaped(p, b), b, deadline);
  }

  lemma RefusedAtSeat(p: PoolState, b: Beat, deadline: Time)
    requires !Accepts(p, b)
    ensures var q := OnBeat(p, b, deadline);
            q.members == p.members && q.gone == p.gone && q.high == p.high
  {
    hide Accepts;
  }

  lemma AcceptanceBounds(p: PoolState, b: Beat)
    requires Accepts(p, b)
    ensures b.incarnation >= Watermark(p, b.id)
    ensures Stored(p, b.id).Some? ==> b.incarnation >= Stored(p, b.id).value
    ensures b.exclusive && Stored(p, b.id).Some? ==> b.incarnation == Stored(p, b.id).value
    ensures !b.leaving && b.id in p.gone ==> b.incarnation > p.gone[b.id].tenure
  {
    hide Admissible, Misshapen;
  }

  // --------------------------------------------------------------- who comes in, and as what

  /** A record just as the beat sent it. */
  predicate AsSent(r: Record, b: Beat, deadline: Time) {
    && r.member.id == b.id && r.member.slot == b.slot && r.member.incarnation == b.incarnation
    && r.member.url == b.url && r.member.state == b.state && r.member.ready == b.ready
    && r.publication == b.publication && r.stateBytes == b.stateBytes && r.expiresAt == deadline
  }

  /** A tenure that is taken in is stored as it came. */
  lemma StoredAsSent(p: PoolState, b: Beat, deadline: Time)
    requires Accepts(p, b) && !b.leaving && Stored(p, b.id) != Some(b.incarnation)
    ensures var q := OnBeat(p, b, deadline);
            b.id in q.members && AsSent(q.members[b.id], b, deadline)
  {
    hide Accepts, OnBeat;
    BeatAtSeat(p, b, deadline);
  }

  /** Step c brought in the tenure stored for this id at j, where it has been ever since. */
  ghost predicate BroughtIn(states: seq<PoolState>, steps: seq<Step>, c: nat, j: nat, id: nat)
    requires |states| == |steps| + 1 && j <= |steps| && id in states[j].members
  {
    && c < j && Accepted(states, steps, c, id) && !steps[c].beat.leaving
    && Stored(states[c], id) != Some(steps[c].beat.incarnation)
    && forall m | c < m <= j :: Stored(states[m], id) == Some(steps[c].beat.incarnation)
  }

  /** What a step leaves of a record that was there before it. */
  lemma StepKeepsOrigin(p: PoolState, step: Step, q: PoolState, ttl: nat, id: nat)
    requires Next(p, step, q, ttl) && id in q.members
    ensures if Stored(p, id) == Stored(q, id)
            then id in p.members && q.members[id].member.slot == p.members[id].member.slot &&
                 q.members[id].member.id == p.members[id].member.id
            else step.Lands? && step.beat.id == id && Accepts(p, step.beat) && !step.beat.leaving &&
                 Stored(p, id) != Some(step.beat.incarnation) && AsSent(q.members[id], step.beat, step.now + ttl)
  {
    hide OnBeat, Swept, Expired, Accepts;
    match step {
      case Lands(b, now) =>
        if b.id != id { BeatElsewhere(p, b, now + ttl, id); }
        else if Accepts(p, b) { BeatAtSeat(p, b, now + ttl); }
        else { RefusedAtSeat(p, b, now + ttl); }
      case Sweep(now, alive, order) => SweepSeats(p, now, alive, order, id);
      case Wait(_, _) =>
    }
  }

  /** Over every run of a pool that began empty, whoever is stored was brought in by one
      accepted beat, and sits in the seat and under the id that beat named. Renewals, other
      members and sweeps in between change neither. */
  lemma {:induction false} SeatOfOrigin(states: seq<PoolState>, steps: seq<Step>, ttl: nat, j: nat, id: nat)
    returns (c: nat)
    requires IsRun(states, steps, ttl) && states[0].members == map[] && j < |states| && id in states[j].members
    ensures BroughtIn(states, steps, c, j, id)
    ensures states[j].members[id].member.slot == steps[c].beat.slot && states[j].members[id].member.id == id
    decreases j
  {
    hide Next, Accepts;
    StepKeepsOrigin(states[j - 1], steps[j - 1], states[j], ttl, id);
    if Stored(states[j - 1], id) == Stored(states[j], id) {
      c := SeatOfOrigin(states, steps, ttl, j - 1, id);
    } else {
      c := j - 1;
    }
  }

  // ------------------------------------------------------- what a version stands for

  lemma ActMovesVersion(p: PoolState, b: Beat, deadline: Time)
    ensures Acted(p, b, deadline).version == p.version <==> RollOf(Acted(p, b, deadline)) == RollOf(p)
  {
    hide MemberHash, Trimmed;
    var q := Acted(p, b, deadline);
    if b.leaving {
      DepartedSeat(p, b, deadline);
      if b.id in p.members {
        assert b.id in RollOf(p) && b.id !in RollOf(q);
      } else {
        assert RollOf(q) == RollOf(p);
      }
    } else if Stored(p, b.id) == Some(b.incarnation) {
      assert RollOf(q)[b.id] == q.members[b.id].member && RollOf(p)[b.id] == p.members[b.id].member;
      if !Republishes(p.members[b.id], b) { assert RollOf(q) == RollOf(p); }
    } else {
      ArrivedSeat(p, b, deadline);
      assert RollOf(q)[b.id] == q.members[b.id].member;
      if b.id in p.members {
        assert RollOf(p)[b.id] == p.members[b.id].member;
      } else {
        assert b.id in RollOf(q) && b.id !in RollOf(p);
      }
      assert q.version == p.version + 1;
    }
  }

  /** A beat takes a version exactly when it changes what subscribers are told of the members:
      renewing a lease, or saying again what is already out, takes none. */
  lemma BeatMovesVersionExactly(p: PoolState, b: Beat, deadline: Time)
    ensures OnBeat(p, b, deadline).version == p.version <==> RollOf(OnBeat(p, b, deadline)) == RollOf(p)
    ensures OnBeat(p, b, deadline).version <= p.version + 1
  {
    hide Acted, Accepts, Admissible, Misshapen;
    var s := Shaped(p, b);
    assert RollOf(s) == RollOf(p);
    ActMovesVersion(s, b, deadline);
    var r := Acted(s, b, deadline);
    assert r.version <= s.version + 1 by { hide MemberHash, Trimmed; ActAtMostOne(s, b, deadline); }
    assert RollOf(Raised(r, b, Watermark(p, b.id))) == RollOf(r);
    if !Accepts(p, b) { assert RollOf(OnBeat(p, b, deadline)) == RollOf(p); }
  }

  lemma ActAtMostOne(p: PoolState, b: Beat, deadline: Time)
    ensures Acted(p, b, deadline).version <= p.version + 1
  {
    hide MemberHash, Trimmed;
  }

  /** What a renewal leaves of a record. The lease always runs anew. Payload, number and size
      move together, when the number rises or none has been seen; a beat without a number
      renews and no more once one has. */
  lemma RenewalExactly(r: Record, b: Beat, deadline: Time)
    ensures var q := Refreshed(r, b, deadline);
            var moves := r.publication.None? || (b.publication.Some? && b.publication.value > r.publication.value);
            && q.expiresAt == deadline && q.member.id == r.member.id && q.member.slot == r.member.slot
            && q.member.incarnation == r.member.incarnation
            && q.publication == (if moves then b.publication else r.publication)
            && (moves ==> q.member.state == b.state && q.member.ready == b.ready && q.member.url == b.url)
            && (!moves ==> q.member == r.member && q.stateBytes == r.stateBytes)
            && (q.member == r.member ==> q.stateBytes == r.stateBytes)
            && (q.member != r.member ==> q.stateBytes == b.stateBytes)
  {
  }

  /** Every beat says truly how long its state is. */
  ghost predicate Measured(steps: seq<Step>, length: Value -> nat) {
    forall i | 0 <= i < |steps| && steps[i].Lands? :: steps[i].beat.stateBytes == length(steps[i].beat.state)
  }

  /** Then so does every record, over every run: what a delta is reckoned to cost is reckoned
      from the states it really carries. */
  lemma {:induction false} StoredLengthIsTrue(states: seq<PoolState>, steps: seq<Step>, ttl: nat, j: nat, id: nat,
                                              length: Value -> nat)
    requires IsRun(states, steps, ttl) && states[0].members == map[] && Measured(steps, length)
    requires j < |states| && id in states[j].members
    ensures states[j].members[id].stateBytes == length(states[j].members[id].member.state)
    decreases j
  {
    hide Next, Accepts;
    var p, step, q := states[j - 1], steps[j - 1], states[j];
    if id in p.members { StoredLengthIsTrue(states, steps, ttl, j - 1, id, length); }
    RecordAfter(p, step, q, ttl, id);
    if step.Lands? && id in p.members { RenewalExactly(p.members[id], step.beat, step.now + ttl); }
  }

  /** Where a record comes from: the one before it, that one renewed, or the beat. */
  lemma RecordAfter(p: PoolState, step: Step, q: PoolState, ttl: nat, id: nat)
    requires Next(p, step, q, ttl) && id in q.members
    ensures || (id in p.members && q.members[id] == p.members[id])
            || (step.Lands? && id in p.members && q.members[id] == Refreshed(p.members[id], step.beat, step.now + ttl))
            || (step.Lands? && AsSent(q.members[id], step.beat, step.now + ttl))
  {
    hide OnBeat, Swept, Expired, Accepts, Refreshed;
    match step {
      case Lands(b, now) =>
        if b.id != id { BeatElsewhere(p, b, now + ttl, id); }
        else if Accepts(p, b) { BeatAtSeat(p, b, now + ttl); }
        else { RefusedAtSeat(p, b, now + ttl); }
      case Sweep(now, alive, order) => SweepSeats(p, now, alive, order, id);
      case Wait(_, _) =>
    }
  }

  /** A sweep takes one version for each lease that has run out. */
  lemma {:induction false} DropsMoveVersion(p: PoolState, order: seq<nat>)
    requires (forall i, j | 0 <= i < j < |order| :: order[i] != order[j]) && forall id | id in order :: id in p.members
    ensures Dropped(p, order).version == p.version + |order|
    decreases |order|
  {
    hide MemberHash, Trimmed;
    if order != [] {
      var q := Bumped(Without(p, order[0]), order[0]);
      forall id | id in order[1..] ensures id in q.members { assert id in order; }
      DropsMoveVersion(q, order[1..]);
    }
  }

  lemma SweepMovesVersionExactly(p: PoolState, now: Time, alive: set<Bell>, order: seq<nat>)
    requires Lists(order, Expired(p, now))
    ensures Swept(p, now, alive, order).version == p.version + |order| && (order == [] <==> Expired(p, now) == {})
  {
    hide Dropped;
    forall id | id in order ensures id in p.members { assert id in IdSet(order); }
    DropsMoveVersion(Tidied(p, now, alive), order);
    if order != [] { assert order[0] in IdSet(order); }
  }

  // ------------------------------------------------------------------ who is still parked

  lemma ActTakesWaiters(p: PoolState, b: Beat, deadline: Time)
    ensures var q := Acted(p, b, deadline);
            q.waiters == if q.version == p.version then p.waiters else []
  {
    hide MemberHash, Trimmed;
  }

  /** A beat that moves the version takes every parked caller off the list, to be rung; any
      other leaves the list alone. */
  lemma BeatTakesWaitersExactly(p: PoolState, b: Beat, deadline: Time)
    ensures var q := OnBeat(p, b, deadline);
            q.waiters == if q.version == p.version then p.waiters else []
  {
    hide Acted, Accepts, Admissible, Misshapen;
    ActTakesWaiters(Shaped(p, b), b, deadline);
  }

  lemma {:induction false} RungKeepsLiving(waiters: seq<Bell>, alive: set<Bell>)
    ensures forall bell :: bell in Rung(waiters, alive) <==> bell in waiters && bell in alive
    ensures (forall bell | bell in waiters :: bell in alive) ==> Rung(waiters, alive) == waiters
  {
    if waiters != [] {
      RungKeepsLiving(waiters[1..], alive);
      assert waiters == [waiters[0]] + waiters[1..];
    }
  }

  lemma {:induction false} DropsTakeWaiters(p: PoolState, order: seq<nat>)
    ensures Dropped(p, order).waiters == if Dropped(p, order).version == p.version then p.waiters else []
    ensures Dropped(p, order).version >= p.version
    decreases |order|
  {
    hide MemberHash, Trimmed;
    if order != [] {
      DropsTakeWaiters(if order[0] in p.members then Bumped(Without(p, order[0]), order[0]) else p, order[1..]);
    }
  }

  /** A sweep that drops somebody empties the list; one that drops nobody leaves on it exactly
      the callers who are still there, in the order they came. */
  lemma SweepTakesWaitersExactly(p: PoolState, now: Time, alive: set<Bell>, order: seq<nat>)
    requires Lists(order, Expired(p, now))
    ensures var q := Swept(p, now, alive, order);
            && (Expired(p, now) != {} ==> q.waiters == [])
            && (Expired(p, now) == {} ==> forall bell :: bell in q.waiters <==> bell in p.waiters && bell in alive)
            && (Expired(p, now) == {} && (forall bell | bell in p.waiters :: bell in alive) ==> q.waiters == p.waiters)
  {
    hide Dropped, Rung;
    SweepMovesVersionExactly(p, now, alive, order);
    DropsTakeWaiters(Tidied(p, now, alive), order);
    RungKeepsLiving(p.waiters, alive);
  }

  /** A position is answered with what changed since exactly when the log still has all of it:
      every version after that one, up to now. */
  lemma CursorExactly(p: PoolState, v: nat)
    requires Contiguous(p.version, p.log)
    ensures Cursor(p, Some(v)) == if v < p.version <= v + |p.log| then Some(v) else None
    ensures Cursor(p, None) == None
  {
  }
}
