/** Waiting for a beat: to be registered at all, or for a publication to be confirmed. The
    state is written by whoever takes a reply, the bell rung after it; one waiter at a time
    holds the revision's lock. */
module Flushing {
  import opened Basics
  import opened Replicas
  import Systems

  datatype Goal = Registered | Published(wanted: nat)

  /** Where a waiter stands. Between `AtGoal` and `AtSleep` it holds the lock. */
  datatype Place = Outside | AtGoal | AtSeat | AtSleep | Asleep | Done(met: bool)

  datatype Waiter = Waiter(goal: Goal, place: Place)

  /** A reply being taken: whether the seat is still held, and the publication it showed. */
  datatype Reply = Reply(alive: bool, showing: nat)

  /** `judged` replies have been applied, `tallied` ones counted as well; `owed` rings have
      not taken the lock yet; `bumped` ones have, and have still to wake everybody. */
  datatype Desk = Desk(accepted: bool, beatsOk: nat, confirmed: nat, waiters: map<nat, Waiter>, lock: Option<nat>,
                       judged: multiset<Reply>, tallied: multiset<Reply>, owed: nat, bumped: nat)

  datatype Step =
    | Join(w: nat, goal: Goal)
    | Enter(w: nat)
    | ReadGoal(w: nat)
    | ReadSeat(w: nat)
    | Sleep(w: nat)
    | GiveUp(w: nat)               // the deadline has passed
    | Rouse(w: nat)                // the wait timed out, or was woken for no reason
    | Judge(reply: Reply)
    | Tally(reply: Reply)
    | Confirm(reply: Reply)
    | Fail                         // a beat that got no reply rings too
    | BumpRevision
    | NotifyAll

  predicate Inside(p: Place) { p.AtGoal? || p.AtSeat? || p.AtSleep? }

  /** What a wait is for. A lost seat ends the wait for a publication too. */
  predicate Met(d: Desk, goal: Goal) {
    match goal
    case Registered => d.beatsOk > 0
    case Published(wanted) => d.confirmed >= wanted || !d.accepted
  }

  /** As far as the first of the two reads can tell. */
  predicate Reached(d: Desk, goal: Goal) {
    match goal
    case Registered => d.beatsOk > 0
    case Published(wanted) => d.confirmed >= wanted
  }

  function Moved(d: Desk, w: nat, place: Place): Desk
    requires w in d.waiters
  {
    d.(waiters := d.waiters[w := d.waiters[w].(place := place)], lock := if Inside(place) then Some(w) else None)
  }

  function Roused(waiters: map<nat, Waiter>): map<nat, Waiter> {
    map w | w in waiters :: if waiters[w].place.Asleep? then waiters[w].(place := Outside) else waiters[w]
  }

  predicate Stands(d: Desk, w: nat, place: Place) { w in d.waiters && d.waiters[w].place == place }

  ghost predicate Next(d: Desk, step: Step, e: Desk) {
    match step
    case Join(w, goal) => w !in d.waiters && e == d.(waiters := d.waiters[w := Waiter(goal, Outside)])
    case Enter(w) => Stands(d, w, Outside) && d.lock.None? && e == Moved(d, w, AtGoal)
    case ReadGoal(w) =>
      Stands(d, w, AtGoal) &&
      var goal := d.waiters[w].goal;
      e == Moved(d, w, if Reached(d, goal) then Done(true) else if goal.Registered? then AtSleep else AtSeat)
    case ReadSeat(w) => Stands(d, w, AtSeat) && e == Moved(d, w, if d.accepted then AtSleep else Done(true))
    case Sleep(w) => Stands(d, w, AtSleep) && e == Moved(d, w, Asleep)
    case GiveUp(w) => Stands(d, w, AtSleep) && e == Moved(d, w, Done(false))
    case Rouse(w) => Stands(d, w, Asleep) && e == d.(waiters := d.waiters[w := d.waiters[w].(place := Outside)])
    case Judge(reply) => e == d.(accepted := d.accepted && reply.alive, judged := d.judged + multiset{reply})
    case Tally(reply) =>
      reply in d.judged &&
      e == d.(beatsOk := d.beatsOk + 1, judged := d.judged - multiset{reply}, tallied := d.tallied + multiset{reply})
    case Confirm(reply) =>
      reply in d.tallied &&
      e == d.(confirmed := Confirming(d.confirmed, reply.alive, Some(reply.showing)),
              tallied := d.tallied - multiset{reply}, owed := d.owed + 1)
    case Fail => e == d.(owed := d.owed + 1)
    case BumpRevision => d.owed > 0 && d.lock.None? && e == d.(owed := d.owed - 1, bumped := d.bumped + 1)
    case NotifyAll => d.bumped > 0 && e == d.(bumped := d.bumped - 1, waiters := Roused(d.waiters))
  }

  ghost predicate Init(d: Desk) { d == Desk(true, 0, 0, map[], None, multiset{}, multiset{}, 0, 0) }

  ghost predicate IsRun(states: seq<Desk>, steps: seq<Step>) {
    && |states| == |steps| + 1 && Init(states[0])
    && forall i | 0 <= i < |steps| :: Next(states[i], steps[i], states[i + 1])
  }

  // ---------------------------------------------------------- the replies, and the system

  /** The reply an acknowledgement is to whoever takes it. */
  function ReplyOf(f: Systems.Flight): Reply
    requires f.sent.beat.publication.Some?
  {
    Reply(f.ack.accepted, f.sent.beat.publication.value)
  }

  /** With nothing in between, judging, counting and confirming a reply do to the seat and to
      the confirmed number what taking the acknowledgement does, and leave a ring owed. */
  lemma TakenIsTook(s: Systems.System, f: Systems.Flight, a: Desk, b: Desk, c: Desk, d: Desk)
    requires f.sent.beat.publication.Some? && a.accepted == s.client.accepted && a.confirmed == s.confirmed
    requires Next(a, Judge(ReplyOf(f)), b) && Next(b, Tally(ReplyOf(f)), c) && Next(c, Confirm(ReplyOf(f)), d)
    ensures var t := Systems.Took(s, f);
            d.accepted == t.client.accepted && d.confirmed == t.confirmed && d.beatsOk == a.beatsOk + 1
    ensures d.judged == a.judged && d.tallied == a.tallied && d.owed == a.owed + 1 && d.waiters == a.waiters
  {
    hide Merged, Kept;
  }

  /** A reply once confirmed has every publication up to the one it showed confirmed for good:
      a wait for one of them is met. */
  lemma {:induction false} ConfirmedForGood(states: seq<Desk>, steps: seq<Step>, i: nat, j: nat, wanted: nat)
    requires IsRun(states, steps) && i < j < |states| && steps[i].Confirm? && steps[i].reply.alive
    requires wanted <= steps[i].reply.showing
    ensures Reached(states[j], Published(wanted)) && Met(states[j], Published(wanted))
    decreases j
  {
    hide Next;
    NumberRises(states[j - 1], steps[j - 1], states[j]);
    if i < j - 1 { ConfirmedForGood(states, steps, i, j - 1, wanted); }
  }

  lemma NumberRises(d: Desk, step: Step, e: Desk)
    requires Next(d, step, e)
    ensures e.confirmed >= d.confirmed
    ensures step.Confirm? && step.reply.alive ==> e.confirmed >= step.reply.showing
  {
  }

  // -------------------------------------------------------------------- the invariant

  /** Rings owed, or bound to be once a reply is fully taken. */
  function Due(d: Desk): nat { d.owed + |d.judged| + |d.tallied| }

  /** Whatever a waiter inside has read is still so, or a ring is due that cannot get the
      lock before the waiter sleeps; a sleeper has one coming or nothing to wake for; and who
      is done is done. */
  predicate Rests(x: Waiter, reached: bool, met: bool, due: nat, bumped: nat) {
    && (x.place.AtSeat? ==> x.goal.Published? && (!reached || due > 0))
    && (x.place.AtSleep? ==> !met || due > 0)
    && (x.place.Asleep? ==> !met || due + bumped > 0)
    && (x.place == Done(true) ==> met)
  }

  ghost predicate Safe(d: Desk, w: nat)
    requires w in d.waiters
  {
    && (Inside(d.waiters[w].place) <==> d.lock == Some(w))
    && Rests(d.waiters[w], Reached(d, d.waiters[w].goal), Met(d, d.waiters[w].goal), Due(d), d.bumped)
  }

  ghost predicate Inv(d: Desk) {
    (d.lock.Some? ==> d.lock.value in d.waiters) && forall w | w in d.waiters :: Safe(d, w)
  }

  /** What is met stays met. */
  lemma MetStays(d: Desk, step: Step, e: Desk, goal: Goal)
    requires Next(d, step, e)
    ensures (Met(d, goal) ==> Met(e, goal)) && (!d.accepted ==> !e.accepted)
  {
    hide Roused;
  }

  /** Taking a reply keeps a ring due throughout. */
  lemma TakingIsDue(d: Desk, step: Step, e: Desk)
    requires Next(d, step, e) && (step.Judge? || step.Tally? || step.Confirm? || step.Fail?)
    ensures Due(e) > 0 && e.waiters == d.waiters && e.lock == d.lock
  {
    hide Reached;
  }

  lemma TakeKeepsInv(d: Desk, step: Step, e: Desk)
    requires Inv(d) && Next(d, step, e) && (step.Judge? || step.Tally? || step.Confirm? || step.Fail?)
    ensures Inv(e)
  {
    hide Next, Met, Reached, Due;
    TakingIsDue(d, step, e);
    forall w | w in e.waiters ensures Safe(e, w) {
      assert Safe(d, w);
      MetStays(d, step, e, d.waiters[w].goal);
    }
  }

  lemma RingKeepsInv(d: Desk, step: Step, e: Desk)
    requires Inv(d) && Next(d, step, e) && (step.Join? || step.Rouse? || step.BumpRevision? || step.NotifyAll?)
    ensures Inv(e)
  {
    forall w | w in e.waiters ensures Safe(e, w) {
      if w in d.waiters { assert Safe(d, w); }
    }
  }

  /** A waiter's own move. */
  lemma MoveKeepsInv(d: Desk, step: Step, e: Desk)
    requires Inv(d) && Next(d, step, e)
    requires step.Enter? || step.ReadGoal? || step.ReadSeat? || step.Sleep? || step.GiveUp?
    ensures Inv(e)
  {
    forall w | w in e.waiters ensures Safe(e, w) { assert Safe(d, w) && Safe(d, step.w); }
  }

  lemma {:induction false} InvThroughout(states: seq<Desk>, steps: seq<Step>, i: nat)
    requires IsRun(states, steps) && i < |states|
    ensures Inv(states[i])
  {
    hide Next, Safe;
    if i > 0 {
      InvThroughout(states, steps, i - 1);
      var d, step, e := states[i - 1], steps[i - 1], states[i];
      if step.Judge? || step.Tally? || step.Confirm? || step.Fail? { TakeKeepsInv(d, step, e); }
      else if step.Join? || step.Rouse? || step.BumpRevision? || step.NotifyAll? { RingKeepsInv(d, step, e); }
      else { MoveKeepsInv(d, step, e); }
    }
  }

  // ------------------------------------------------------------------- what it is for

  /** No lost wakeup. In every interleaving, while no ring is due or half delivered, whoever
      is asleep waits for something that has not happened. */
  lemma NoLostWakeup(states: seq<Desk>, steps: seq<Step>, i: nat, w: nat)
    requires IsRun(states, steps) && i < |states| && Stands(states[i], w, Asleep)
    requires Due(states[i]) == 0 && states[i].bumped == 0
    ensures !Met(states[i], states[i].waiters[w].goal)
  {
    hide IsRun, Met, Reached;
    InvThroughout(states, steps, i);
    assert Safe(states[i], w);
  }

  lemma StaysKnown(d: Desk, step: Step, e: Desk, w: nat)
    requires Next(d, step, e) && w in d.waiters
    ensures w in e.waiters && e.waiters[w].goal == d.waiters[w].goal
    ensures d.waiters[w].place.Done? ==> e.waiters[w] == d.waiters[w]
  {
    hide Reached;
  }

  /** A wait that says so is right, then and ever after. */
  lemma {:induction false} DoneMeansMet(states: seq<Desk>, steps: seq<Step>, i: nat, j: nat, w: nat)
    requires IsRun(states, steps) && i <= j < |states| && Stands(states[i], w, Done(true))
    ensures Stands(states[j], w, Done(true)) && Met(states[j], states[i].waiters[w].goal)
    decreases j
  {
    hide Next, Met, Reached;
    if i == j {
      InvThroughout(states, steps, i);
      assert Safe(states[i], w);
    } else {
      DoneMeansMet(states, steps, i, j - 1, w);
      StaysKnown(states[j - 1], steps[j - 1], states[j], w);
      MetStays(states[j - 1], steps[j - 1], states[j], states[i].waiters[w].goal);
    }
  }

  /** Met, and the waiter has still to look: nothing it goes through can miss it. */
  ghost predicate BoundToSee(d: Desk, w: nat) {
    && w in d.waiters && Met(d, d.waiters[w].goal)
    && match d.waiters[w].place
       case Outside => true
       case AtGoal => true
       case AtSeat => !d.accepted
       case AtSleep => false
       case Asleep => true
       case Done(met) => met
  }

  lemma StepSees(d: Desk, step: Step, e: Desk, w: nat)
    requires Inv(d) && Next(d, step, e) && BoundToSee(d, w)
    ensures BoundToSee(e, w)
  {
    StaysKnown(d, step, e, w);
    MetStays(d, step, e, d.waiters[w].goal);
  }

  /** A goal met before a waiter's last look is never reported missed, however late it is:
      after its deadline a waiter looks once more. */
  lemma {:induction false} MetIsNeverMissed(states: seq<Desk>, steps: seq<Step>, i: nat, j: nat, w: nat)
    requires IsRun(states, steps) && i <= j < |states| && w in states[i].waiters && Met(states[i], states[i].waiters[w].goal)
    requires !states[i].waiters[w].place.AtSeat? && !states[i].waiters[w].place.AtSleep? &&
             states[i].waiters[w].place != Done(false)
    ensures BoundToSee(states[j], w) && !Stands(states[j], w, Done(false))
    decreases j
  {
    hide Next, Met, Inv;
    if i < j {
      MetIsNeverMissed(states, steps, i, j - 1, w);
      InvThroughout(states, steps, j - 1);
      StepSees(states[j - 1], steps[j - 1], states[j], w);
    }
  }
}
