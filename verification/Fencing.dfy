/** Who may hold a seat, over whole runs of one pool. */
module Fencing {
  import opened Basics
  import opened Values
  import opened Protocol
  import opened PoolModel
  import opened PoolRuns

  // --------------------------------------------------------- tenures go forward

  lemma WatermarkRises(p: PoolState, step: Step, q: PoolState, ttl: nat, id: nat)
    requires Next(p, step, q, ttl)
    ensures Watermark(q, id) >= Watermark(p, id)
  {
    hide OnBeat, Swept, Expired, LeavesBehind;
    match step {
      case Lands(b, now) =>
        if b.id != id { BeatElsewhere(p, b, now + ttl, id); }
        else if Accepts(p, b) { BeatAtSeat(p, b, now + ttl); }
        else { RefusedAtSeat(p, b, now + ttl); }
      case Sweep(now, alive, order) => SweepSeats(p, now, alive, order, id);
      case Wait(_, _) =>
    }
  }

  lemma {:induction false} WatermarkRisesOver(states: seq<PoolState>, steps: seq<Step>, ttl: nat, i: nat, j: nat, id: nat)
    requires IsRun(states, steps, ttl) && i <= j < |states|
    ensures Watermark(states[i], id) <= Watermark(states[j], id)
    decreases j
  {
    hide Next, Watermark;
    if i < j {
      WatermarkRisesOver(states, steps, ttl, i, j - 1, id);
      WatermarkRises(states[j - 1], steps[j - 1], states[j], ttl, id);
    }
  }

  /** A seat never goes back to an earlier tenure: whatever happens in between,
      replacement, goodbye or expiry, once a seated beat has been accepted no beat of
      a smaller tenure is ever accepted for that id again. */
  lemma TenuresNeverDecrease(states: seq<PoolState>, steps: seq<Step>, ttl: nat, i: nat, j: nat, id: nat)
    requires IsRun(states, steps, ttl) && i < j
    requires Accepted(states, steps, i, id) && Accepted(states, steps, j, id) && steps[i].beat.slot.Some?
    ensures steps[i].beat.incarnation <= steps[j].beat.incarnation
  {
    hide OnBeat, Swept, Accepts, LeavesBehind;
    assert Next(states[i], steps[i], states[i + 1], ttl);
    BeatAtSeat(states[i], steps[i].beat, steps[i].now + ttl);
    WatermarkRisesOver(states, steps, ttl, i + 1, j, id);
    AcceptanceBounds(states[j], steps[j].beat);
  }

  // ---------------------------------------------------------- goodbyes are kept

  /** Nothing between k and j makes the pool forget: no sweep from `until` on, and no
      further goodbye for the id. */
  ghost predicate Undisturbed(states: seq<PoolState>, steps: seq<Step>, k: nat, j: nat, id: nat, until: Time)
    requires |states| == |steps| + 1 && j <= |steps|
  {
    forall m | k <= m < j ::
      && (steps[m].Sweep? ==> steps[m].now < until)
      && !(Accepted(states, steps, m, id) && steps[m].beat.leaving)
  }

  lemma GoodbyeStays(p: PoolState, step: Step, q: PoolState, ttl: nat, id: nat)
    requires Next(p, step, q, ttl) && id in p.gone
    requires step.Sweep? ==> step.now < p.gone[id].forgetAt
    requires step.Lands? && step.beat.id == id && step.beat.leaving ==> !Accepts(p, step.beat)
    ensures id in q.gone && q.gone[id] == p.gone[id]
  {
    hide OnBeat, Swept, Expired, Accepts;
    match step {
      case Lands(b, now) =>
        if b.id != id { BeatElsewhere(p, b, now + ttl, id); }
        else if Accepts(p, b) { BeatAtSeat(p, b, now + ttl); }
        else { RefusedAtSeat(p, b, now + ttl); }
      case Sweep(now, alive, order) => SweepSeats(p, now, alive, order, id);
      case Wait(_, _) =>
    }
  }

  /** After a goodbye is accepted, and until the next one or a sweep at or after its
      time plus one lease, the pool remembers exactly that goodbye. */
  lemma {:induction false} GoodbyeRemembered(states: seq<PoolState>, steps: seq<Step>, ttl: nat, i: nat, j: nat, id: nat)
    requires IsRun(states, steps, ttl) && i < j < |states|
    requires Accepted(states, steps, i, id) && steps[i].beat.leaving
    requires Undisturbed(states, steps, i + 1, j, id, steps[i].now + ttl)
    ensures id in states[j].gone && states[j].gone[id] == Goodbye(steps[i].beat.incarnation, steps[i].now + ttl)
    decreases j
  {
    hide OnBeat, Swept, Accepts, Expired;
    if j == i + 1 {
      assert Next(states[i], steps[i], states[i + 1], ttl);
      BeatAtSeat(states[i], steps[i].beat, steps[i].now + ttl);
    } else {
      GoodbyeRemembered(states, steps, ttl, i, j - 1, id);
      assert Next(states[j - 1], steps[j - 1], states[j], ttl);
      GoodbyeStays(states[j - 1], steps[j - 1], states[j], ttl, id);
    }
  }

  /** A delayed beat is fenced off exactly when its tenure is not above the one that
      said goodbye last, and is then refused. */
  lemma StragglersRefused(states: seq<PoolState>, steps: seq<Step>, ttl: nat, i: nat, j: nat, id: nat, late: Beat)
    requires IsRun(states, steps, ttl) && i < j < |states|
    requires Accepted(states, steps, i, id) && steps[i].beat.leaving
    requires Undisturbed(states, steps, i + 1, j, id, steps[i].now + ttl)
    requires late.id == id && !late.leaving
    ensures Straggler(states[j], late) <==> late.incarnation <= steps[i].beat.incarnation
    ensures late.incarnation <= steps[i].beat.incarnation ==> !Accepts(states[j], late)
  {
    hide IsRun, Undisturbed, Accepted;
    GoodbyeRemembered(states, steps, ttl, i, j, id);
  }

  /** No sweep from `until` on between k and j. */
  ghost predicate NoLateSweep(steps: seq<Step>, k: nat, j: nat, until: Time)
    requires j <= |steps|
  {
    forall m | k <= m < j && steps[m].Sweep? :: steps[m].now < until
  }

  /** The last accepted goodbye for the id in i .. j. */
  lemma {:induction false} LastGoodbye(states: seq<PoolState>, steps: seq<Step>, i: nat, j: nat, id: nat) returns (l: nat)
    requires |states| == |steps| + 1 && i < j < |states| && Accepted(states, steps, i, id) && steps[i].beat.leaving
    ensures i <= l < j && Accepted(states, steps, l, id) && steps[l].beat.leaving
    ensures forall m | l < m < j :: !(Accepted(states, steps, m, id) && steps[m].beat.leaving)
    decreases j
  {
    hide Accepts;
    if j == i + 1 {
      l := i;
    } else if Accepted(states, steps, j - 1, id) && steps[j - 1].beat.leaving {
      l := j - 1;
    } else {
      l := LastGoodbye(states, steps, i, j - 1, id);
    }
  }

  /** Seat fencing. For an id whose beats are all seated: after an accepted goodbye of
      tenure T, every non-leaving beat of tenure T or less is refused until a sweep at
      or after the goodbye's time plus one lease, repeated goodbyes or not. */
  lemma SeatFencing(states: seq<PoolState>, steps: seq<Step>, ttl: nat, i: nat, j: nat, id: nat, late: Beat)
    requires IsRun(states, steps, ttl) && i < j < |states|
    requires forall m | 0 <= m < |steps| && steps[m].Lands? && steps[m].beat.id == id :: steps[m].beat.slot.Some?
    requires Accepted(states, steps, i, id) && steps[i].beat.leaving
    requires NoLateSweep(steps, i + 1, j, steps[i].now + ttl)
    requires late.id == id && !late.leaving && late.incarnation <= steps[i].beat.incarnation
    ensures !Accepts(states[j], late)
  {
    hide Next, Accepts;
    var l := LastGoodbye(states, steps, i, j, id);
    if i < l { TenuresNeverDecrease(states, steps, ttl, i, l, id); }
    StragglersRefused(states, steps, ttl, l, j, id, late);
  }

  // ---------------------------------- and without a seat the memory can be lowered

  function Plain(incarnation: nat, leaving: bool): Beat {
    Beat("p", None, 7, incarnation, None, "", None, None, Null, 4, true, leaving, false, [], [], map[], 0)
  }

  /** The memory of a goodbye is of the last one accepted, not of the highest: for an
      unseated id a late goodbye of tenure 3 after one of tenure 5 lets a beat of
      tenure 4 back in. */
  lemma UnseatedGoodbyeCanBeLowered(ttl: nat)
    ensures var p1 := OnBeat(EMPTY_POOL, Plain(5, true), 10 + ttl);
            var p2 := OnBeat(p1, Plain(3, true), 11 + ttl);
            Accepts(EMPTY_POOL, Plain(5, true)) && Accepts(p1, Plain(3, true)) &&
            !Accepts(p1, Plain(4, false)) && Accepts(p2, Plain(4, false))
  {
    hide Trimmed, MemberHash;
  }

  // ------------------------------------------------------------ the election

  /** A renewal of the holder's own tenure. */
  predicate Renews(step: Step, id: nat, tenure: nat) {
    step.Lands? && step.beat.id == id && step.beat.incarnation == tenure && !step.beat.leaving
  }

  predicate OwnGoodbye(step: Step, id: nat, tenure: nat) {
    step.Lands? && step.beat.id == id && step.beat.incarnation == tenure && step.beat.leaving
  }

  /** The lease covers every renewal that was accepted since k. */
  ghost predicate LeaseCovers(states: seq<PoolState>, steps: seq<Step>, ttl: nat, k: nat, j: nat, id: nat, tenure: nat)
    requires |states| == |steps| + 1 && j <= |steps|
  {
    Stored(states[j], id) == Some(tenure) &&
    forall m | k <= m < j && Renews(steps[m], id, tenure) && Accepts(states[m], steps[m].beat) ::
      steps[m].now + ttl <= states[j].members[id].expiresAt
  }

  /** While a tenure is stored, an exclusive beat of any other tenure is refused,
      goodbyes included, and leaves the holder's record alone. */
  lemma OthersAreRefused(p: PoolState, b: Beat, deadline: Time, id: nat, tenure: nat)
    requires Stored(p, id) == Some(tenure) && b.id == id && b.exclusive && b.incarnation != tenure
    ensures !Accepts(p, b) && OnBeat(p, b, deadline).members == p.members
  {
    hide OnBeat;
    RefusedAtSeat(p, b, deadline);
  }

  lemma HolderStep(p: PoolState, step: Step, q: PoolState, ttl: nat, id: nat, tenure: nat)
    requires Next(p, step, q, ttl) && Stored(p, id) == Some(tenure)
    requires step.Lands? && step.beat.id == id ==> step.beat.exclusive || step.beat.incarnation == tenure
    requires !OwnGoodbye(step, id, tenure)
    requires step.Sweep? ==> step.now < p.members[id].expiresAt
    ensures Stored(q, id) == Some(tenure)
    ensures if Renews(step, id, tenure) && Accepts(p, step.beat) then q.members[id].expiresAt == step.now + ttl
            else q.members[id] == p.members[id]
  {
    hide OnBeat, Swept, Expired, Accepts, Refreshed;
    match step {
      case Lands(b, now) =>
        if b.id != id { BeatElsewhere(p, b, now + ttl, id); }
        else if b.incarnation != tenure { OthersAreRefused(p, b, now + ttl, id, tenure); }
        else if Accepts(p, b) { BeatAtSeat(p, b, now + ttl); }
        else { RefusedAtSeat(p, b, now + ttl); }
      case Sweep(now, alive, order) => SweepSeats(p, now, alive, order, id);
      case Wait(_, _) =>
    }
  }

  /** What can end a hold: the holder's own goodbye, or a sweep at or after the time
      of every renewal it had accepted, plus one lease. */
  ghost predicate Displaces(states: seq<PoolState>, steps: seq<Step>, ttl: nat, k: nat, m: nat, id: nat, tenure: nat)
    requires |states| == |steps| + 1 && m < |steps|
  {
    || OwnGoodbye(steps[m], id, tenure)
    || (steps[m].Sweep? &&
        forall r | k <= r < m && Renews(steps[r], id, tenure) && Accepts(states[r], steps[r].beat) ::
          steps[r].now + ttl <= steps[m].now)
  }

  /** Exclusive election. If every beat for an id that is not the holder's own is
      exclusive, a tenure whose beat was accepted at k stays stored until something that
      may displace it happens. */
  lemma {:induction false} HolderKeepsSeat(states: seq<PoolState>, steps: seq<Step>, ttl: nat, k: nat, j: nat,
                                           id: nat, tenure: nat)
    requires IsRun(states, steps, ttl) && k < j < |states|
    requires forall m | k <= m < j && steps[m].Lands? && steps[m].beat.id == id ::
               steps[m].beat.exclusive || steps[m].beat.incarnation == tenure
    requires Renews(steps[k], id, tenure) && Accepts(states[k], steps[k].beat)
    requires forall m | k < m < j :: !Displaces(states, steps, ttl, k, m, id, tenure)
    ensures LeaseCovers(states, steps, ttl, k, j, id, tenure)
    decreases j
  {
    hide OnBeat, Swept, Expired, Accepts;
    var p, step, q := states[j - 1], steps[j - 1], states[j];
    assert Next(p, step, q, ttl);
    if k == j - 1 {
      BeatAtSeat(p, step.beat, step.now + ttl);
    } else {
      HolderKeepsSeat(states, steps, ttl, k, j - 1, id, tenure);
      assert !Displaces(states, steps, ttl, k, j - 1, id, tenure);
      HolderStep(p, step, q, ttl, id, tenure);
    }
  }

  /** So while it is held, nobody else gets in: of all accepted beats for the id since
      k, every one is of the holder's tenure. */
  lemma NobodyElseGetsIn(states: seq<PoolState>, steps: seq<Step>, ttl: nat, k: nat, j: nat, id: nat, tenure: nat)
    requires IsRun(states, steps, ttl) && k < j < |steps|
    requires forall m | k <= m <= j && steps[m].Lands? && steps[m].beat.id == id :: steps[m].beat.exclusive
    requires Renews(steps[k], id, tenure) && Accepts(states[k], steps[k].beat)
    requires forall m | k < m < j :: !Displaces(states, steps, ttl, k, m, id, tenure)
    ensures Accepted(states, steps, j, id) ==> steps[j].beat.incarnation == tenure
  {
    hide Next, Accepts;
    HolderKeepsSeat(states, steps, ttl, k, j, id, tenure);
    if Accepted(states, steps, j, id) { AcceptanceBounds(states[j], steps[j].beat); }
  }
}
