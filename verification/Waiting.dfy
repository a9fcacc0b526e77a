/** Waiting on the cache. A waiter looks while holding the revision lock and gives it up
    only by going to sleep; whoever changes the cache, fences the member or closes the
    waiter rings afterwards, and a ring needs that lock. */
module Waiting {
  import opened Basics
  import opened Values
  import opened Protocol
  import opened Replicas
  import opened CachedPools
  import opened Identities
  import opened Epochs

  // ------------------------------------------------------------------ conditions

  /** The occupant a replacement is measured against: captured at the first look, or given. */
  datatype Baseline = Capture | Watching(previous: Option<string>)

  datatype Condition =
    | Count(filter: Value, target: int)
    | Departure(identity: string)
    | Replacement(slot: nat, baseline: Baseline)

  /** Who holds the slot: of everyone sitting there, the lowest id. */
  function Holder(roll: Roll, slot: nat): Option<Member> {
    if Sitting(roll, slot) == {} then None else Some(roll[Least(Sitting(roll, slot))])
  }

  predicate Replaces(pool: Name, holder: Option<Member>, previous: Option<string>) {
    holder.Some? && (previous.Some? ==> !IdentityMatches(pool, holder.value, previous.value))
  }

  predicate Satisfied(c: Condition, pool: Name, cache: Cache) {
    pool in cache &&
    match c
    case Count(filter, target) => |ScanOf(cache[pool].roll, filter, true)| >= target
    case Departure(identity) => forall k | k in cache[pool].roll :: !IdentityMatches(pool, cache[pool].roll[k], identity)
    case Replacement(slot, baseline) =>
      baseline.Watching? && Replaces(pool, Holder(cache[pool].roll, slot), baseline.previous)
  }

  function IdentityOf(pool: Name, m: Option<Member>): Option<string> {
    if m.Some? then Some(MemberIdentity(pool, m.value)) else None
  }

  /** Looking for the first time fixes the baseline. */
  function Observed(c: Condition, pool: Name, cache: Cache): Condition {
    if pool in cache && c.Replacement? && c.baseline.Capture?
    then Replacement(c.slot, Watching(IdentityOf(pool, Holder(cache[pool].roll, c.slot)))) else c
  }

  predicate RollFits(roll: Roll) { forall k | k in roll :: Fits64(roll[k]) }

  predicate CacheFits(cache: Cache) { forall n | n in cache :: RollFits(cache[n].roll) }

  predicate AckFits(ack: BeatAck) { forall n | n in ack.pools :: forall m | m in ack.pools[n].changed :: Fits64(m) }

  lemma {:induction false} InsertedFits(roll: Roll, changed: seq<Member>)
    requires RollFits(roll) && forall m | m in changed :: Fits64(m)
    ensures RollFits(Inserted(roll, changed))
  {
    if changed != [] {
      InsertedFits(roll, changed[..|changed| - 1]);
      assert changed[|changed| - 1] in changed;
    }
  }

  lemma MergedFits(cache: Cache, restarted: bool, ack: BeatAck)
    requires CacheFits(cache) && AckFits(ack)
    ensures CacheFits(Merged(cache, restarted, ack.pools))
  {
    forall n | n in Merged(cache, restarted, ack.pools) ensures RollFits(Merged(cache, restarted, ack.pools)[n].roll) {
      if n in ack.pools {
        var d, e := ack.pools[n], EntryOf(cache, n);
        InsertedFits(if d.full then map[] else e.roll, d.changed);
      }
    }
  }

  /** The occupant just captured is not its own replacement. */
  lemma CapturedIsNotReplaced(c: Condition, pool: Name, cache: Cache)
    requires CacheFits(cache) && !Satisfied(c, pool, cache)
    ensures !Satisfied(Observed(c, pool, cache), pool, cache)
  {
    if pool in cache && c.Replacement? && c.baseline.Capture? {
      var holder := Holder(cache[pool].roll, c.slot);
      if holder.Some? { IdentityNamesOne(pool, holder.value, pool, holder.value); }
    }
  }

  // ------------------------------------------------------------------ interleavings

  /** Where a waiter stands. Between `AtClosed` and `AtSleep` it holds the lock. */
  datatype Place = Outside | AtClosed | AtAccepted | AtObserve | AtSleep | Asleep | Done(status: Status)

  datatype Waiter = Waiter(pool: Name, condition: Condition, closed: bool, initial: bool, place: Place)

  /** An acknowledgement is applied in steps: the epoch is noted; after a restart the cache
      is emptied; then the seat is lost or the deltas are merged. In between it is half
      applied, and the others go on. */
  datatype Half = Half(ack: BeatAck, restarted: bool)

  function Noted(c: ClientState, ack: BeatAck): ClientState { c.(seenEpoch := ack.epoch) }

  function Emptied(c: ClientState): ClientState { c.(cache := map[]) }

  function Landed(c: ClientState, half: Half): ClientState {
    if !half.ack.accepted then c.(accepted := false, refused := c.refused || half.ack.refused)
    else c.(cache := Merged(c.cache, half.restarted, half.ack.pools))
  }

  predicate Stirring(c: ClientState, half: Half) {
    if !half.ack.accepted then c.accepted
    else exists n | n in half.ack.pools :: Takes(c.cache, half.restarted, n, half.ack.pools[n])
  }

  /** With nothing in between, the steps are the whole. */
  lemma StepsAreApplied(c: ClientState, ack: BeatAck)
    ensures var noted, half := Noted(c, ack), Half(ack, Restarted(c, ack));
            var begun := if half.restarted then Emptied(noted) else noted;
            && Landed(begun, half) == Applied(c, ack)
            && (Stirs(c, ack) <==> (half.restarted && noted.cache != map[]) || Stirring(begun, half))
  {
    hide Merged;
  }

  /** A half that stirs nothing changes nothing a waiter reads. */
  lemma QuietHalf(c: ClientState, half: Half)
    requires !Stirring(c, half)
    ensures Landed(c, half).cache == c.cache && Landed(c, half).accepted == c.accepted
  {
  }

  /** `noted`, `quiet` and `loud` acknowledgements are half applied: the noted ones have the
      cache still to empty, and the loud ones have changed something already. `owed` rings have
      not taken the lock yet; `bumped` ones have, and have still to wake everybody. */
  datatype Hub = Hub(client: ClientState, waiters: map<nat, Waiter>, lock: Option<nat>,
                     noted: multiset<Half>, quiet: multiset<Half>, loud: multiset<Half>, owed: nat, bumped: nat)

  datatype Step =
    | Join(w: nat, waiter: Waiter)
    | Enter(w: nat)
    | ReadClosed(w: nat)
    | ReadAccepted(w: nat)
    | Observe(w: nat)
    | Sleep(w: nat)
    | Expire(w: nat)
    | Rouse(w: nat)                // woken for no reason
    | NoteEpoch(ack: BeatAck)
    | EmptyCache(half: Half)
    | LandQuiet(half: Half)
    | LandLoud(half: Half)
    | Close(w: nat)
    | Nudge
    | BumpRevision
    | NotifyAll

  predicate Inside(p: Place) { p.AtClosed? || p.AtAccepted? || p.AtObserve? || p.AtSleep? }

  function Moved(h: Hub, w: nat, waiter: Waiter): Hub {
    h.(waiters := h.waiters[w := waiter], lock := if Inside(waiter.place) then Some(w) else None)
  }

  function Finished(h: Hub, w: nat, status: Status): Hub
    requires w in h.waiters
  {
    Moved(h, w, h.waiters[w].(place := Done(status)))
  }

  function Roused(waiters: map<nat, Waiter>): map<nat, Waiter> {
    map w | w in waiters :: if waiters[w].place.Asleep? then waiters[w].(place := Outside) else waiters[w]
  }

  /** The first pass looks before asking whether it was fenced; every later one asks first. */
  ghost predicate Next(h: Hub, step: Step, k: Hub) {
    match step
    case Join(w, x) =>
      w !in h.waiters && x.place.Outside? && !x.closed && k == h.(waiters := h.waiters[w := x])
    case Enter(w) =>
      w in h.waiters && h.waiters[w].place.Outside? && h.lock.None? &&
      k == Moved(h, w, h.waiters[w].(place := AtClosed))
    case ReadClosed(w) =>
      w in h.waiters && h.waiters[w].place.AtClosed? &&
      k == if h.waiters[w].closed then Finished(h, w, Closed)
           else Moved(h, w, h.waiters[w].(place := if h.waiters[w].initial then AtObserve else AtAccepted))
    case ReadAccepted(w) =>
      w in h.waiters && h.waiters[w].place.AtAccepted? &&
      k == if !h.client.accepted then Finished(h, w, Fenced)
           else if h.waiters[w].initial then Moved(h, w, h.waiters[w].(place := AtSleep, initial := false))
           else Moved(h, w, h.waiters[w].(place := AtObserve))
    case Observe(w) =>
      w in h.waiters && h.waiters[w].place.AtObserve? &&
      var x := h.waiters[w];
      k == if Satisfied(x.condition, x.pool, h.client.cache) then Finished(h, w, Ready)
           else Moved(h, w, x.(condition := Observed(x.condition, x.pool, h.client.cache),
                               place := if x.initial then AtAccepted else AtSleep))
    case Sleep(w) =>
      w in h.waiters && h.waiters[w].place.AtSleep? && k == Moved(h, w, h.waiters[w].(place := Asleep))
    case Expire(w) =>
      w in h.waiters && (Inside(h.waiters[w].place) || h.waiters[w].place.Asleep?) &&
      k == if Inside(h.waiters[w].place) then Finished(h, w, Timeout)
           else h.(waiters := h.waiters[w := h.waiters[w].(place := Done(Timeout))])
    case Rouse(w) =>
      w in h.waiters && h.waiters[w].place.Asleep? && k == h.(waiters := h.waiters[w := h.waiters[w].(place := Outside)])
    case NoteEpoch(ack) =>
      AckFits(ack) &&
      var half := Half(ack, Restarted(h.client, ack));
      k == if half.restarted then h.(client := Noted(h.client, ack), noted := h.noted + multiset{half})
           else h.(client := Noted(h.client, ack), quiet := h.quiet + multiset{half})
    case EmptyCache(half) =>
      half in h.noted &&
      k == if h.client.cache != map[]
           then h.(client := Emptied(h.client), noted := h.noted - multiset{half}, loud := h.loud + multiset{half})
           else h.(noted := h.noted - multiset{half}, quiet := h.quiet + multiset{half})
    case LandQuiet(half) =>
      half in h.quiet &&
      k == h.(client := Landed(h.client, half), quiet := h.quiet - multiset{half},
              owed := h.owed + if Stirring(h.client, half) then 1 else 0)
    case LandLoud(half) =>
      half in h.loud && k == h.(client := Landed(h.client, half), loud := h.loud - multiset{half}, owed := h.owed + 1)
    case Close(w) =>
      w in h.waiters &&
      k == h.(waiters := h.waiters[w := h.waiters[w].(closed := true)],
              owed := h.owed + if h.waiters[w].closed then 0 else 1)
    case Nudge => k == h.(owed := h.owed + 1)
    case BumpRevision =>
      h.owed > 0 && h.lock.None? && k == h.(owed := h.owed - 1, bumped := h.bumped + 1)
    case NotifyAll =>
      h.bumped > 0 && k == h.(bumped := h.bumped - 1, waiters := Roused(h.waiters))
  }

  ghost predicate Init(h: Hub) { h == Hub(NEW_CLIENT, map[], None, multiset{}, multiset{}, multiset{}, 0, 0) }

  ghost predicate IsRun(states: seq<Hub>, steps: seq<Step>) {
    && |states| == |steps| + 1 && Init(states[0])
    && forall i | 0 <= i < |steps| :: Next(states[i], steps[i], states[i + 1])
  }

  // -------------------------------------------------------------------- the invariant

  predicate Idle(x: Waiter, c: ClientState) { !Satisfied(x.condition, x.pool, c.cache) }

  /** Rings owed, or bound to be once an acknowledgement is fully applied. */
  function Due(h: Hub): nat { h.owed + |h.loud| }

  /** Whatever a waiter inside has already read is still so, or a ring is due that
      cannot get the lock before the waiter sleeps. */
  predicate Reads(x: Waiter, c: ClientState, owed: nat) {
    && (x.place.AtAccepted? || x.place.AtObserve? || x.place.AtSleep? ==> !x.closed || owed > 0)
    && ((x.place.AtObserve? && !x.initial) || x.place.AtSleep? ==> c.accepted || owed > 0)
    && ((x.place.AtAccepted? && x.initial) || x.place.AtSleep? ==> Idle(x, c) || owed > 0)
  }

  predicate Sleeps(x: Waiter, c: ClientState, ringing: nat) {
    x.place.Asleep? ==> ringing > 0 || (!x.closed && c.accepted && Idle(x, c))
  }

  ghost predicate Safe(h: Hub, w: nat)
    requires w in h.waiters
  {
    && (Inside(h.waiters[w].place) <==> h.lock == Some(w))
    && Reads(h.waiters[w], h.client, Due(h))
    && Sleeps(h.waiters[w], h.client, Due(h) + h.bumped)
  }

  ghost predicate HalvesFit(halves: multiset<Half>) { forall half | half in halves :: AckFits(half.ack) }

  ghost predicate Inv(h: Hub) {
    && CacheFits(h.client.cache) && (h.lock.Some? ==> h.lock.value in h.waiters)
    && HalvesFit(h.noted) && HalvesFit(h.quiet) && HalvesFit(h.loud)
    && forall w | w in h.waiters :: Safe(h, w)
  }

  /** Nothing this waiter reads is different, or a ring is due. */
  lemma SafeStill(h: Hub, k: Hub, w: nat)
    requires w in h.waiters && w in k.waiters && k.waiters[w] == h.waiters[w] && Safe(h, w)
    requires h.lock == Some(w) <==> k.lock == Some(w)
    requires Due(k) > 0 ||
             (Due(h) == 0 && h.bumped <= k.bumped && k.client.cache == h.client.cache && k.client.accepted == h.client.accepted)
    ensures Safe(k, w)
  {
    hide Satisfied, Due;
  }

  lemma NothingFits()
    ensures CacheFits(map[])
  {
  }

  lemma OneMoreFits(halves: multiset<Half>, half: Half)
    requires HalvesFit(halves) && AckFits(half.ack)
    ensures HalvesFit(halves + multiset{half})
  {
  }

  lemma OneLessFits(halves: multiset<Half>, half: Half)
    requires HalvesFit(halves) && half in halves
    ensures HalvesFit(halves - multiset{half}) && AckFits(half.ack)
  {
  }

  lemma NoteKeepsInv(h: Hub, ack: BeatAck, k: Hub)
    requires Inv(h) && Next(h, NoteEpoch(ack), k)
    ensures Inv(k)
  {
    hide AckFits, CacheFits, Safe, Restarted, HalvesFit;
    var half := Half(ack, Restarted(h.client, ack));
    OneMoreFits(h.noted, half);
    OneMoreFits(h.quiet, half);
    forall w | w in k.waiters ensures Safe(k, w) { SafeStill(h, k, w); }
  }

  lemma EmptyKeepsInv(h: Hub, half: Half, k: Hub)
    requires Inv(h) && Next(h, EmptyCache(half), k)
    ensures Inv(k)
  {
    hide AckFits, CacheFits, Safe, HalvesFit;
    NothingFits();
    OneLessFits(h.noted, half);
    OneMoreFits(h.loud, half);
    OneMoreFits(h.quiet, half);
    forall w | w in k.waiters ensures Safe(k, w) { SafeStill(h, k, w); }
  }

  lemma LandKeepsInv(h: Hub, step: Step, k: Hub)
    requires Inv(h) && Next(h, step, k) && (step.LandQuiet? || step.LandLoud?)
    ensures Inv(k)
  {
    hide CacheFits, AckFits, Safe, Landed, Stirring;
    LandedFits(h.client, step.half);
    LoudCount(h, step.half);
    if !Stirring(h.client, step.half) { QuietHalf(h.client, step.half); }
    forall w | w in k.waiters ensures Safe(k, w) { SafeStill(h, k, w); }
  }

  lemma LandedFits(c: ClientState, half: Half)
    requires CacheFits(c.cache) && AckFits(half.ack)
    ensures CacheFits(Landed(c, half).cache)
  {
    hide CacheFits, AckFits, Merged;
    MergedFits(c.cache, half.restarted, half.ack);
  }

  lemma LoudCount(h: Hub, half: Half)
    ensures half in h.loud ==> |h.loud - multiset{half}| + 1 == |h.loud|
  {
  }

  lemma ObserveKeepsInv(h: Hub, w: nat, k: Hub)
    requires Inv(h) && Next(h, Observe(w), k)
    ensures Inv(k)
  {
    hide CacheFits, AckFits, Satisfied, Observed;
    forall v | v in k.waiters ensures Safe(k, v) {
      assert Safe(h, v) && Safe(h, w);
      var x := h.waiters[w];
      if v == w && !Satisfied(x.condition, x.pool, h.client.cache) {
        CapturedIsNotReplaced(x.condition, x.pool, h.client.cache);
      }
    }
  }

  /** A waiter's own move. */
  lemma MoveKeepsInv(h: Hub, step: Step, k: Hub)
    requires Inv(h) && Next(h, step, k)
    requires step.Enter? || step.ReadClosed? || step.ReadAccepted? || step.Sleep? || step.Expire? || step.Rouse?
    ensures Inv(k)
  {
    hide CacheFits, HalvesFit, Satisfied, Observed, Landed, Stirring, Safe;
    MoverAlone(h, step, k);
    if step.ReadClosed? || step.ReadAccepted? { ReaderIsSafe(h, step, k); } else { MoverIsSafe(h, step, k); }
    forall v | v in k.waiters ensures Safe(k, v) {
      if v != step.w {
        LockOnlyInside(h, v);
        LockOnlyInside(h, step.w);
        SafeStill(h, k, v);
      }
    }
  }

  lemma LockOnlyInside(h: Hub, w: nat)
    requires w in h.waiters && Safe(h, w)
    ensures Inside(h.waiters[w].place) <==> h.lock == Some(w)
  {
  }

  lemma MoverAlone(h: Hub, step: Step, k: Hub)
    requires Next(h, step, k)
    requires step.Enter? || step.ReadClosed? || step.ReadAccepted? || step.Sleep? || step.Expire? || step.Rouse?
    ensures step.w in h.waiters && step.w in k.waiters && k.client == h.client && Due(k) == Due(h) && k.bumped == h.bumped
    ensures k.noted == h.noted && k.quiet == h.quiet && k.loud == h.loud
    ensures forall v | v != step.w :: (v in k.waiters <==> v in h.waiters) && (v in k.waiters ==> k.waiters[v] == h.waiters[v])
  {
    hide Satisfied, Observed, Landed, Stirring, AckFits, Restarted, Roused;
  }

  lemma MoverIsSafe(h: Hub, step: Step, k: Hub)
    requires Next(h, step, k) && (step.Enter? || step.Sleep? || step.Expire? || step.Rouse?) && step.w in h.waiters
    requires Safe(h, step.w)
    ensures step.w in k.waiters && Safe(k, step.w)
  {
    hide Satisfied, Observed, Landed, Stirring, AckFits, Restarted, Roused;
  }

  lemma ReaderIsSafe(h: Hub, step: Step, k: Hub)
    requires Next(h, step, k) && (step.ReadClosed? || step.ReadAccepted?) && step.w in h.waiters && Safe(h, step.w)
    ensures step.w in k.waiters && Safe(k, step.w)
  {
    hide Satisfied, Observed, Landed, Stirring, AckFits, Restarted, Roused;
  }

  lemma RingKeepsInv(h: Hub, step: Step, k: Hub)
    requires Inv(h) && Next(h, step, k)
    requires step.Join? || step.Close? || step.Nudge? || step.BumpRevision? || step.NotifyAll?
    ensures Inv(k)
  {
    hide CacheFits, HalvesFit, Satisfied, Observed, Landed, Stirring;
    forall v | v in k.waiters ensures Safe(k, v) {
      if v in h.waiters { assert Safe(h, v); }
    }
  }

  lemma {:induction false} InvThroughout(states: seq<Hub>, steps: seq<Step>, i: nat)
    requires IsRun(states, steps) && i < |states|
    ensures Inv(states[i])
  {
    hide Next, Safe;
    if i > 0 {
      InvThroughout(states, steps, i - 1);
      var h, step, k := states[i - 1], steps[i - 1], states[i];
      match step {
        case NoteEpoch(ack) => NoteKeepsInv(h, ack, k);
        case EmptyCache(half) => EmptyKeepsInv(h, half, k);
        case LandQuiet(half) => LandKeepsInv(h, step, k);
        case LandLoud(half) => LandKeepsInv(h, step, k);
        case Observe(w) => ObserveKeepsInv(h, w, k);
        case _ =>
          if step.Join? || step.Close? || step.Nudge? || step.BumpRevision? || step.NotifyAll? {
            RingKeepsInv(h, step, k);
          } else {
            MoveKeepsInv(h, step, k);
          }
      }
    }
  }

  /** No lost wakeup. In every interleaving, a waiter asleep while no ring is due or half
      delivered has nothing to wake for: its condition is false on the cache as it is, it
      is not closed, and the member is not fenced. */
  lemma NoLostWakeup(states: seq<Hub>, steps: seq<Step>, i: nat, w: nat)
    requires IsRun(states, steps) && i < |states| && w in states[i].waiters && states[i].waiters[w].place.Asleep?
    requires Due(states[i]) == 0 && states[i].bumped == 0
    ensures var x := states[i].waiters[w];
            !x.closed && states[i].client.accepted && !Satisfied(x.condition, x.pool, states[i].client.cache)
  {
    hide IsRun, Satisfied;
    InvThroughout(states, steps, i);
    assert Safe(states[i], w);
  }

  // ------------------------------------------------------------------ fenced for good

  lemma AcceptedNeverReturns(h: Hub, step: Step, k: Hub)
    requires Next(h, step, k) && !h.client.accepted
    ensures !k.client.accepted
  {
    hide Satisfied, Observed, Stirring, AckFits, Merged;
  }

  /** What a waiter reports it reports for good. */
  lemma DoneIsFinal(h: Hub, step: Step, k: Hub, w: nat)
    requires Next(h, step, k) && w in h.waiters && h.waiters[w].place.Done?
    ensures w in k.waiters && k.waiters[w].place == h.waiters[w].place
  {
    hide Satisfied, Observed, Stirring, AckFits, Landed;
  }

  /** A later pass has read the flag as it stood at its last read; while the lock is
      held the flag can only fall. */
  ghost predicate PassedAccepted(h: Hub, w: nat)
    requires w in h.waiters
  {
    h.waiters[w].place.AtObserve? && !h.waiters[w].initial
  }

  /** After the first look, a pass that finds the member fenced reports Fenced and never
      Ready: with the flag down, no step takes a later pass to the point of looking. */
  lemma FencedPassNeverLooks(h: Hub, step: Step, k: Hub, w: nat)
    requires Next(h, step, k) && w in h.waiters && w in k.waiters
    requires !h.client.accepted && !h.waiters[w].initial && !PassedAccepted(h, w)
    ensures !PassedAccepted(k, w)
    ensures k.waiters[w].place == Done(Ready) ==> h.waiters[w].place == Done(Ready)
    ensures !k.waiters[w].initial
  {
    hide Satisfied, Observed, Stirring, AckFits, Landed;
  }

  /** Hence: once fenced between passes, a waiter past its first look can end in any way
      but Ready. */
  lemma {:induction false} FencedNeverReady(states: seq<Hub>, steps: seq<Step>, i: nat, j: nat, w: nat)
    requires IsRun(states, steps) && i <= j < |states| && w in states[i].waiters
    requires !states[i].client.accepted && !states[i].waiters[w].initial
    requires !PassedAccepted(states[i], w) && states[i].waiters[w].place != Done(Ready)
    ensures w in states[j].waiters && states[j].waiters[w].place != Done(Ready)
    ensures !states[j].client.accepted && !states[j].waiters[w].initial && !PassedAccepted(states[j], w)
    decreases j
  {
    hide Next;
    if i < j {
      FencedNeverReady(states, steps, i, j - 1, w);
      AcceptedNeverReturns(states[j - 1], steps[j - 1], states[j]);
      StaysKnown(states[j - 1], steps[j - 1], states[j], w);
      FencedPassNeverLooks(states[j - 1], steps[j - 1], states[j], w);
    }
  }

  lemma StaysKnown(h: Hub, step: Step, k: Hub, w: nat)
    requires Next(h, step, k) && w in h.waiters
    ensures w in k.waiters
  {
    hide Satisfied, Observed, Stirring, AckFits, Landed;
  }

  // ----------------------------------------------------------------- closed for good

  /** A pass that has already read the flag may still answer. */
  ghost predicate PassedClosed(h: Hub, w: nat)
    requires w in h.waiters
  {
    h.waiters[w].place.AtAccepted? || h.waiters[w].place.AtObserve? || h.waiters[w].place.AtSleep?
  }

  lemma ClosedPassNeverLooks(h: Hub, step: Step, k: Hub, w: nat)
    requires Next(h, step, k) && w in h.waiters && w in k.waiters && h.waiters[w].closed && !PassedClosed(h, w)
    ensures k.waiters[w].closed && !PassedClosed(k, w)
    ensures k.waiters[w].place == Done(Ready) ==> h.waiters[w].place == Done(Ready)
  {
    hide Satisfied, Observed, Stirring, AckFits, Landed;
  }

  /** Once closed between passes, a waiter never reports Ready: its next pass says Closed, if
      its deadline does not come first. */
  lemma {:induction false} ClosedNeverReady(states: seq<Hub>, steps: seq<Step>, i: nat, j: nat, w: nat)
    requires IsRun(states, steps) && i <= j < |states| && w in states[i].waiters
    requires states[i].waiters[w].closed && !PassedClosed(states[i], w) && states[i].waiters[w].place != Done(Ready)
    ensures w in states[j].waiters && states[j].waiters[w].place != Done(Ready)
    ensures states[j].waiters[w].closed && !PassedClosed(states[j], w)
    decreases j
  {
    hide Next;
    if i < j {
      ClosedNeverReady(states, steps, i, j - 1, w);
      StaysKnown(states[j - 1], steps[j - 1], states[j], w);
      ClosedPassNeverLooks(states[j - 1], steps[j - 1], states[j], w);
    }
  }
}
