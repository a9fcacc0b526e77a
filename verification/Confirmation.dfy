/** What a confirmed publication means. */
module Confirmations {
  import opened Basics
  import opened Values
  import opened Protocol
  import opened PoolModel
  import opened Registries
  import opened Histories
  import opened Replicas
  import opened Systems
  import PoolRuns
  import Publications

  /** Step a is the accepted arrival that launched this answer, given at once or held back
      and released with news later. */
  predicate Launches(states: seq<System>, steps: seq<Step>, a: nat, f: Flight)
    requires |states| == |steps| + 1
  {
    && a < |steps| && steps[a].Arrive? && steps[a].sent == f.sent && steps[a].ack.accepted
    && states[a].live == f.ack.epoch && f.ack == steps[a].ack.(pools := f.ack.pools)
  }

  /** Every accepted answer goes back to an accepted arrival, held or not. */
  lemma {:induction false} AnswersArrived(states: seq<System>, steps: seq<Step>, i: nat, f: Flight) returns (a: nat)
    requires IsRun(states, steps, false) && i < |states| && f in states[i].acks && f.ack.accepted
    ensures a < i && Launches(states, steps, a, f)
  {
    hide Next;
    if f in states[i - 1].acks {
      a := AnswersArrived(states, steps, i - 1, f);
    } else {
      NewAnswer(states[i - 1], steps[i - 1], states[i], f);
      if steps[i - 1].Arrive? {
        a := i - 1;
      } else {
        a := AnswersArrived(states, steps, i - 1, steps[i - 1].held);
      }
    }
  }

  lemma NewAnswer(s: System, step: Step, t: System, f: Flight)
    requires s.live in s.regs && Next(s, step, t, false) && f in t.acks && f !in s.acks
    ensures step.Arrive? || step.Release?
    ensures step.Arrive? ==> f == Flight(step.sent, step.ack) && f.ack.epoch == s.live
    ensures step.Release? ==>
              step.held in s.acks && step.held.sent == f.sent && step.held.ack.accepted &&
              f.ack == step.held.ack.(pools := f.ack.pools)
  {
    hide RegAfterBeat, RegAfterPark, RegAfterSweep, Tells, Accepts, Misshapen, Admissible, Applied;
  }

  lemma OnlyDeliveryConfirms(s: System, step: Step, t: System)
    requires s.live in s.regs && Next(s, step, t, false)
    ensures t.confirmed ==
            if step.Deliver? then Confirming(s.confirmed, step.flight.ack.accepted, step.flight.sent.beat.publication)
            else s.confirmed
    ensures step.Deliver? ==> step.flight in s.acks
  {
    hide RegAfterBeat, RegAfterPark, RegAfterSweep, Tells, Replies, Applied;
  }

  /** Delivery j raised the confirmed number to v, with an answer that arrival a launched. */
  predicate Confirms(states: seq<System>, steps: seq<Step>, a: nat, j: nat, v: nat)
    requires |states| == |steps| + 1
  {
    && a < j < |steps| && steps[j].Deliver? && states[j].confirmed < v == states[j + 1].confirmed
    && Launches(states, steps, a, steps[j].flight) && steps[j].flight.sent.beat.publication == Some(v)
  }

  /** A confirmed number was raised to by one delivery, whose answer goes back to an arrival
      that some process accepted. */
  lemma {:induction false} ConfirmedWasAccepted(states: seq<System>, steps: seq<Step>, i: nat) returns (a: nat, j: nat)
    requires IsRun(states, steps, false) && i < |states| && states[i].confirmed > 0
    ensures j < i && Confirms(states, steps, a, j, states[i].confirmed)
  {
    hide Next;
    OnlyDeliveryConfirms(states[i - 1], steps[i - 1], states[i]);
    if states[i].confirmed == states[i - 1].confirmed {
      a, j := ConfirmedWasAccepted(states, steps, i - 1);
    } else {
      j := i - 1;
      a := AnswersArrived(states, steps, j, steps[j].flight);
    }
  }

  /** Delivery j took an accepted answer to a beat that showed v or a later publication. */
  predicate Showed(steps: seq<Step>, j: nat, v: nat)
    requires j < |steps|
  {
    steps[j].Deliver? && steps[j].flight.ack.accepted &&
    steps[j].flight.sent.beat.publication.Some? && steps[j].flight.sent.beat.publication.value >= v
  }

  /** The other way round: what an accepted answer has shown is confirmed at once, however
      many publications it skips, and from then on. */
  lemma {:induction false} AcceptedIsConfirmed(states: seq<System>, steps: seq<Step>, j: nat, i: nat, v: nat)
    requires IsRun(states, steps, false) && j < i < |states| && Showed(steps, j, v)
    ensures states[i].confirmed >= v
    decreases i
  {
    hide Next;
    OnlyDeliveryConfirms(states[i - 1], steps[i - 1], states[i]);
    if j < i - 1 { AcceptedIsConfirmed(states, steps, j, i - 1, v); }
  }

  /** Over every run, v is confirmed exactly from the first delivery that showed v or later. */
  lemma ConfirmedExactly(states: seq<System>, steps: seq<Step>, i: nat, v: nat)
    requires IsRun(states, steps, false) && i < |states| && v > 0
    ensures states[i].confirmed >= v <==> exists j | 0 <= j < i :: Showed(steps, j, v)
  {
    hide Next;
    if states[i].confirmed >= v {
      var a, j := ConfirmedWasAccepted(states, steps, i);
      assert Showed(steps, j, v);
    }
    if j: nat :| j < i && Showed(steps, j, v) { AcceptedIsConfirmed(states, steps, j, i, v); }
  }

  // -------------------------------------------------------- and stored, and stays so

  /** The process stores this tenure. */
  predicate Stores(s: System, epoch: nat, b: Beat) {
    epoch in s.regs && b.pool in s.regs[epoch].book && Stored(s.regs[epoch].book[b.pool], b.id) == Some(b.incarnation)
  }

  /** It shows publication v, or a later one. */
  predicate Shows(s: System, epoch: nat, b: Beat, v: nat) {
    Stores(s, epoch, b) &&
    var shown := s.regs[epoch].book[b.pool].members[b.id].publication;
    shown.Some? && shown.value >= v
  }

  /** An accepted arrival leaves its publication, or a later one, shown exactly if it is not
      a goodbye. */
  lemma ArrivalStores(s: System, x: Sent, now: Time, ack: BeatAck, t: System)
    requires s.live in s.regs && Next(s, Arrive(x, now, ack), t, false) && ack.accepted && x.beat.publication.Some?
    ensures Shows(t, s.live, x.beat, x.beat.publication.value) <==> !x.beat.leaving
  {
    hide Tells, OnBeat, Admissible, Misshapen, Superseded, After, Republishes;
    var b, p := x.beat, PoolAt(s.regs[s.live].book, x.beat.pool);
    PoolRuns.BeatAtSeat(p, b, now + s.ttl);
  }

  /** While the record stays, its number does not fall. */
  lemma RecordNeverFalls(s: System, step: Step, t: System, epoch: nat, b: Beat, v: nat)
    requires s.live in s.regs && Next(s, step, t, false) && Shows(s, epoch, b, v) && Stores(t, epoch, b)
    ensures Shows(t, epoch, b, v)
  {
    hide Tells, Replies, OnBeat, Swept, Admissible, Accepts, Misshapen, After, AfterSweep, Took, RegAfterPark, Expired, Lists;
    var p, q := s.regs[epoch].book[b.pool], t.regs[epoch].book[b.pool];
    match step {
      case Stranger(c, now) => if epoch == s.live { BeatKeepsNumber(s.regs[epoch], c, now, s.ttl, b, v); }
      case Arrive(x, now, ack) => if epoch == s.live { BeatKeepsNumber(s.regs[epoch], x.beat, now, s.ttl, b, v); }
      case Sweep(now, alive, orders) =>
        if epoch == s.live {
          assert PoolRuns.Next(p, PoolRuns.Sweep(now, alive, orders[b.pool]), q, s.ttl);
          Publications.ResidentStep(p, PoolRuns.Sweep(now, alive, orders[b.pool]), q, s.ttl, b.id, b.incarnation);
        }
      case ParkBell(watch, bell) => if epoch == s.live { ParkKeepsRecord(s.regs[epoch], watch, bell, b); }
      case Deliver(f) => assert t.regs == s.regs by { TookRises(s, f); }
      case _ =>
    }
  }

  lemma ParkKeepsRecord(r: Reg, watch: seq<Name>, bell: Bell, b: Beat)
    requires b.pool in r.book
    ensures b.pool in RegAfterPark(r, watch, bell).book &&
            RegAfterPark(r, watch, bell).book[b.pool].members == r.book[b.pool].members
  {
    hide BookAfterPark;
    ParkedBook(r.book, watch, bell, b.pool);
  }

  lemma NumberNeverFalls(r: Record, b: Beat, deadline: Time)
    requires r.publication.Some?
    ensures var shown := Refreshed(r, b, deadline).publication;
            shown.Some? && shown.value >= r.publication.value
  {
  }

  lemma BeatKeepsNumber(r: Reg, c: Beat, now: Time, ttl: nat, b: Beat, v: nat)
    requires b.pool in r.book && Stored(r.book[b.pool], b.id) == Some(b.incarnation)
    requires r.book[b.pool].members[b.id].publication.Some? && r.book[b.pool].members[b.id].publication.value >= v
    requires var q := RegAfterBeat(r, c, now, ttl);
             b.pool in q.book && Stored(q.book[b.pool], b.id) == Some(b.incarnation)
    ensures var shown := RegAfterBeat(r, c, now, ttl).book[b.pool].members[b.id].publication;
            shown.Some? && shown.value >= v
  {
    hide OnBeat, Admissible, Accepts, After, Refreshed;
    if Admissible(c) && c.pool == b.pool {
      var p := r.book[b.pool];
      NumberNeverFalls(p.members[b.id], c, now + ttl);
      var q := OnBeat(p, c, now + ttl);
      Publications.ResidentStep(p, PoolRuns.Lands(c, now), q, ttl, b.id, b.incarnation);
    }
  }

  /** The process has kept the record since step a. */
  predicate KeptSince(states: seq<System>, a: nat, j: nat, epoch: nat, b: Beat)
    requires j < |states|
  {
    forall m | a < m <= j :: Stores(states[m], epoch, b)
  }

  lemma {:induction false} ShownSince(states: seq<System>, steps: seq<Step>, a: nat, j: nat)
    requires IsRun(states, steps, false) && a < j < |states| && steps[a].Arrive? && steps[a].ack.accepted
    requires !steps[a].sent.beat.leaving && steps[a].sent.beat.publication.Some?
    requires KeptSince(states, a, j, states[a].live, steps[a].sent.beat)
    ensures Shows(states[j], states[a].live, steps[a].sent.beat, steps[a].sent.beat.publication.value)
    decreases j
  {
    hide Next, Shows, Stores;
    var x := steps[a].sent;
    if j == a + 1 {
      ArrivalStores(states[a], x, steps[a].now, steps[a].ack, states[j]);
    } else {
      ShownSince(states, steps, a, j - 1);
      RecordNeverFalls(states[j - 1], steps[j - 1], states[j], states[a].live, x.beat, x.beat.publication.value);
    }
  }

  /** The process shows v right after step a, and for as long as it keeps the record. */
  ghost predicate HoldsOn(states: seq<System>, a: nat, epoch: nat, b: Beat, v: nat)
    requires a + 1 < |states|
  {
    && Shows(states[a + 1], epoch, b, v)
    && forall m | a < m < |states| && KeptSince(states, a, m, epoch, b) :: Shows(states[m], epoch, b, v)
  }

  lemma ArrivalHoldsOn(states: seq<System>, steps: seq<Step>, a: nat)
    requires IsRun(states, steps, false) && a < |steps| && steps[a].Arrive? && steps[a].ack.accepted
    requires steps[a].sent.beat.publication.Some?
    ensures HoldsOn(states, a, states[a].live, steps[a].sent.beat, steps[a].sent.beat.publication.value) <==>
            !steps[a].sent.beat.leaving
  {
    hide Next, KeptSince, Shows;
    var b := steps[a].sent.beat;
    ArrivalStores(states[a], steps[a].sent, steps[a].now, steps[a].ack, states[a + 1]);
    if !b.leaving {
      forall m | a < m < |states| && KeptSince(states, a, m, states[a].live, b)
        ensures Shows(states[m], states[a].live, b, b.publication.value)
      {
        ShownSince(states, steps, a, m);
      }
    }
  }

  /** Confirmed means stored, goodbyes apart. In every state of every run, a confirmed
      publication v was confirmed by one delivery j, whose answer one arrival a launched;
      and the process that accepted it there stored v or later, and shows it for as long as
      it keeps the record, if and only if that beat was not a goodbye. */
  lemma ConfirmedIsStored(states: seq<System>, steps: seq<Step>, i: nat) returns (a: nat, j: nat)
    requires IsRun(states, steps, false) && i < |states| && states[i].confirmed > 0
    ensures j < i && Confirms(states, steps, a, j, states[i].confirmed)
    ensures HoldsOn(states, a, steps[j].flight.ack.epoch, steps[j].flight.sent.beat, states[i].confirmed) <==>
            !steps[j].flight.sent.beat.leaving
  {
    hide Next, HoldsOn;
    a, j := ConfirmedWasAccepted(states, steps, i);
    ArrivalHoldsOn(states, steps, a);
  }

  // ------------------------------------------------------------------ what a restart does

  predicate OfTenure(c: Beat, b: Beat) { c.pool == b.pool && c.id == b.id && c.incarnation == b.incarnation }

  /** A step that could store this tenure in the live process, or replace that process. */
  predicate Revives(step: Step, b: Beat) {
    || (step.Stranger? && OfTenure(step.beat, b))
    || (step.Arrive? && OfTenure(step.sent.beat, b))
    || step.Restart?
  }

  lemma BeatStoresNobodyElse(r: Reg, c: Beat, now: Time, ttl: nat, b: Beat)
    requires !OfTenure(c, b) && (b.pool in r.book ==> Stored(r.book[b.pool], b.id) != Some(b.incarnation))
    ensures var q := RegAfterBeat(r, c, now, ttl);
            b.pool in q.book ==> Stored(q.book[b.pool], b.id) != Some(b.incarnation)
  {
    hide OnBeat, Admissible, Accepts, After, Refreshed;
    if Admissible(c) && c.pool == b.pool {
      var p := PoolAt(r.book, b.pool);
      if c.id != b.id { PoolRuns.BeatElsewhere(p, c, now + ttl, b.id); }
      else if Accepts(p, c) { PoolRuns.BeatAtSeat(p, c, now + ttl); }
      else { PoolRuns.RefusedAtSeat(p, c, now + ttl); }
    }
  }

  lemma ParkStoresNobody(r: Reg, watch: seq<Name>, bell: Bell, b: Beat)
    requires b.pool in r.book ==> Stored(r.book[b.pool], b.id) != Some(b.incarnation)
    ensures var q := RegAfterPark(r, watch, bell);
            b.pool in q.book ==> Stored(q.book[b.pool], b.id) != Some(b.incarnation)
  {
    hide BookAfterPark;
    ParkedBook(r.book, watch, bell, b.pool);
  }

  lemma StaysGone(s: System, step: Step, t: System, b: Beat)
    requires s.live in s.regs && Next(s, step, t, false) && !Stores(s, s.live, b) && !Revives(step, b)
    ensures t.live == s.live && !Stores(t, t.live, b) && t.confirmed >= s.confirmed
  {
    hide Tells, Replies, RegAfterBeat, RegAfterPark, Swept, AfterSweep, Took, Expired, Lists;
    match step {
      case Stranger(c, now) => BeatStoresNobodyElse(s.regs[s.live], c, now, s.ttl, b);
      case Arrive(x, now, ack) => BeatStoresNobodyElse(s.regs[s.live], x.beat, now, s.ttl, b);
      case Sweep(now, alive, orders) =>
        if b.pool in s.regs[s.live].book {
          PoolRuns.SweepSeats(s.regs[s.live].book[b.pool], now, alive, orders[b.pool], b.id);
        }
      case ParkBell(watch, bell) => ParkStoresNobody(s.regs[s.live], watch, bell, b);
      case Deliver(f) => TookRises(s, f);
      case _ =>
    }
  }

  lemma TookRises(s: System, f: Flight)
    ensures Took(s, f).regs == s.regs && Took(s, f).live == s.live && Took(s, f).confirmed >= s.confirmed
  {
  }

  /** A restart leaves the confirmation standing and its object gone: over every run, from
      the restart until a beat of that tenure reaches the new process, nothing of it is
      stored there, and the confirmed number does not fall. */
  lemma {:induction false} RestartForgets(states: seq<System>, steps: seq<Step>, i: nat, j: nat, b: Beat)
    requires IsRun(states, steps, false) && i < j < |states| && steps[i].Restart?
    requires forall m | i < m < j :: !Revives(steps[m], b)
    ensures states[j].live == steps[i].epoch && !Stores(states[j], states[j].live, b)
    ensures states[j].confirmed >= states[i].confirmed
    decreases j
  {
    hide Next, Stores;
    if j == i + 1 {
      RestartIsEmpty(states[i], steps[i].epoch, states[j], b);
    } else {
      RestartForgets(states, steps, i, j - 1, b);
      StaysGone(states[j - 1], steps[j - 1], states[j], b);
    }
  }

  lemma RestartIsEmpty(s: System, e: nat, t: System, b: Beat)
    requires s.live in s.regs && Next(s, Restart(e), t, false)
    ensures t.live == e && t.confirmed == s.confirmed && !Stores(t, t.live, b)
  {
  }

  // -------------------------------------------------------------- the case of a goodbye

  const Q: Name := "q"
  const TTL: nat := 200

  /** One member's beats, with publications 1 and then 2. */
  function Mine(leaving: bool): Beat {
    Beat(Q, None, 7, 1, Some(if leaving then 2 else 1), "", None, None, Null, 4, true, leaving, false, [], [], map[], 0)
  }

  const HELLO: Sent := Sent(Mine(false), 1, 0)
  const GOODBYE: Sent := Sent(Mine(true), 2, 0)
  const QUIET: BeatAck := BeatAck(1, TTL, true, false, map[])

  lemma Joins()
    ensures Accepts(EMPTY_POOL, Mine(false))
    ensures var p := OnBeat(EMPTY_POOL, Mine(false), TTL);
            Accepts(p, Mine(true)) && OnBeat(p, Mine(true), TTL).members == map[] &&
            p.members.Keys == {7} && p.members[7].publication == Some(1)
  {
    hide MemberHash, Trimmed;
  }

  lemma QuietReply(r: Reg, b: Beat)
    requires b.watch == [] && Admissible(b) && Accepts(PoolAt(r.book, b.pool), b)
    ensures Replies(r.book, b, 0, TTL, 1, QUIET)
  {
    hide Accepts, Admissible, OnBeat;
    AcceptedIsShaped(PoolAt(r.book, b.pool), b);
    assert NameSet(b.watch) == {};
  }

  lemma AcceptedIsShaped(p: PoolState, b: Beat)
    requires Accepts(p, b)
    ensures !Misshapen(p, b)
  {
  }

  function Joined(): Reg { RegAfterBeat(NEW_REG, Mine(false), 0, TTL) }

  function Gone(): Reg { RegAfterBeat(Joined(), Mine(true), 0, TTL) }

  /** Join, publish once more, leave. */
  function StepAt(i: nat): Step {
    if i == 0 then Compose(HELLO)
    else if i == 1 then Arrive(HELLO, 0, QUIET)
    else if i == 2 then Deliver(Flight(HELLO, QUIET))
    else if i == 3 then Compose(GOODBYE)
    else if i == 4 then Arrive(GOODBYE, 0, QUIET)
    else Deliver(Flight(GOODBYE, QUIET))
  }

  function StateAt(i: nat): System {
    System(TTL, map[1 := if i < 2 then NEW_REG else if i < 5 then Joined() else Gone()], 1,
           if i == 0 then {} else if i < 4 then {HELLO} else {HELLO, GOODBYE},
           if i < 2 then {} else if i < 5 then {Flight(HELLO, QUIET)} else {Flight(HELLO, QUIET), Flight(GOODBYE, QUIET)},
           if i < 3 then NEW_CLIENT else ClientState(map[], 1, true, false),
           if i < 3 then 0 else if i < 6 then 1 else 2, 0)
  }

  lemma StepTaken(i: nat)
    requires i < 6
    ensures Next(StateAt(i), StepAt(i), StateAt(i + 1), true)
  {
    hide Next, RegAfterBeat, Replies;
    var s := StateAt(i);
    JoinsAndLeaves();
    if i == 0 || i == 3 {
      ComposeStep(s, StepAt(i).sent, true);
      assert s.sent + {StepAt(i).sent} == StateAt(i + 1).sent;
    } else if i == 1 || i == 4 {
      ArriveStep(s, StepAt(i).sent, 0, QUIET, true);
      assert s.acks + {Flight(StepAt(i).sent, QUIET)} == StateAt(i + 1).acks;
      assert s.regs[1 := StateAt(i + 1).regs[1]] == StateAt(i + 1).regs;
    } else {
      DeliverStep(s, StepAt(i).flight, true);
      assert Took(s, StepAt(i).flight) == StateAt(i + 1);
    }
  }

  /** The goodbye is the exception: it can carry a new publication, be accepted and
      confirmed, and leave nothing stored that ever showed it. */
  lemma GoodbyeConfirmsUnstored()
    ensures exists states: seq<System>, steps: seq<Step> ::
              IsRun(states, steps, true) && |steps| == 6 && states[6].confirmed == 2 && NeverShown(states, 2)
  {
    hide Next, Shows, RegAfterBeat, Replies, StepAt, IsRun;
    var states, steps := seq(7, (i: nat) => StateAt(i)), seq(6, (i: nat) => StepAt(i));
    forall i | 0 <= i < 6 ensures Next(states[i], steps[i], states[i + 1], true) { StepTaken(i); }
    IsRunOf(states, steps, true);
    JoinsAndLeaves();
    forall s | s in states ensures Shyly(s, 2) { NotShownBy(s, Joined(), Gone()); }
    assert NeverShown(states, 2);
  }

  /** No process shows publication v of anything. */
  ghost predicate Shyly(s: System, v: nat) { forall e, b :: !Shows(s, e, b, v) }

  ghost predicate NeverShown(states: seq<System>, v: nat) { forall s | s in states :: Shyly(s, v) }

  lemma JoinsAndLeaves()
    ensures Replies(NEW_REG.book, Mine(false), 0, TTL, 1, QUIET) && Replies(Joined().book, Mine(true), 0, TTL, 1, QUIET)
    ensures Joined().book.Keys == {Q} && Joined().book[Q].members.Keys == {7}
    ensures Joined().book[Q].members[7].publication == Some(1)
    ensures Gone().book.Keys == {Q} && Gone().book[Q].members == map[]
  {
    hide OnBeat, Accepts, After, Replies;
    Joins();
    assert Admissible(Mine(false)) && Admissible(Mine(true));
    QuietReply(NEW_REG, Mine(false));
    QuietReply(Joined(), Mine(true));
  }

  lemma NotShownBy(s: System, r1: Reg, r2: Reg)
    requires s.regs == map[1 := NEW_REG] || s.regs == map[1 := r1] || s.regs == map[1 := r2]
    requires r1.book.Keys == {Q} && r1.book[Q].members.Keys == {7} && r1.book[Q].members[7].publication == Some(1)
    requires r2.book.Keys == {Q} && r2.book[Q].members == map[]
    ensures Shyly(s, 2)
  {
  }
}
