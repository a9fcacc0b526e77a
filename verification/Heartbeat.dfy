/** The beat loop against the lease: how long a member can stay unheard, whatever its
    publishers and the network do. */
module Heartbeats {
  import opened Basics
  import opened Values
  import opened Protocol
  import opened PoolModel
  import opened PoolRuns
  import opened Fencing
  import opened Shapes

  const MIN_TTL_MS: nat := 200

  // ------------------------------------------------------------------- the numbers

  /** `coalesce_gap` */
  function CoalesceGap(requestedMs: nat, intervalMs: nat): nat { Min(Min(requestedMs, intervalMs), 30_000) }

  /** `beat_timeout` */
  function BeatTimeout(intervalMs: nat, holdMs: nat): nat {
    if holdMs == 0 then Clamp(intervalMs, 50, 30_000) * 3 / 4
    else holdMs + holdMs / 2 + Min(holdMs / 2, 200)
  }

  /** What the first acknowledgement sets: beat every quarter lease, and ask to be held
      that long. */
  function IntervalOf(ttl: nat): nat { ttl / 4 }

  function HoldOf(ttl: nat): nat { Clamp(ttl / 4, 50, 30_000) }

  /** How long the registry sits on an answer: the caller's hold, at most half a lease, and
      a jitter of up to an eighth keyed off the caller. */
  function ParkLimit(holdMs: nat, ttl: nat, id: nat): nat {
    var budget := Min(holdMs, ttl / 2);
    if budget == 0 then 0 else budget + id % (budget / 8 + 1)
  }

  /** A quiet hold is an answer on time: it is over before the loop gives up, and the loop
      gives up with half the lease left for a retry. */
  lemma HoldFitsTimeoutFitsLease(ttl: nat, id: nat)
    requires ttl >= MIN_TTL_MS
    ensures HoldOf(ttl) <= ParkLimit(HoldOf(ttl), ttl, id) < BeatTimeout(IntervalOf(ttl), HoldOf(ttl))
    ensures 2 * BeatTimeout(IntervalOf(ttl), HoldOf(ttl)) <= ttl
    ensures ParkLimit(HoldOf(ttl), ttl, id) <= HoldOf(ttl) + HoldOf(ttl) / 8
    ensures BeatTimeout(IntervalOf(ttl), 0) <= HoldOf(ttl) && 4 * HoldOf(ttl) <= ttl
  {
  }

  /** However long a caller asks to be held, it is for half a lease at most and an eighth of
      that; up to half a lease, for no less than it asked. */
  lemma HeldWithinHalfLease(holdMs: nat, ttl: nat, id: nat)
    ensures ParkLimit(holdMs, ttl, id) <= ttl / 2 + ttl / 16
    ensures Min(holdMs, ttl / 2) <= ParkLimit(holdMs, ttl, id) <= holdMs + holdMs / 8
  {
  }

  /** Callers held alike are not let go alike: as many as an eighth of the hold has
      milliseconds, numbered from zero, come back one after another; and any two at the same
      moment only if their ids agree up to that number. */
  lemma JitterSpreads(holdMs: nat, ttl: nat, a: nat, b: nat)
    requires Min(holdMs, ttl / 2) > 0
    ensures var spread := Min(holdMs, ttl / 2) / 8 + 1;
            && (a < spread ==> ParkLimit(holdMs, ttl, a) == Min(holdMs, ttl / 2) + a)
            && (ParkLimit(holdMs, ttl, a) == ParkLimit(holdMs, ttl, b) <==> a % spread == b % spread)
  {
    var spread := Min(holdMs, ttl / 2) / 8 + 1;
    if a < spread { Jittered(spread, a); }
  }

  lemma Jittered(spread: nat, id: nat)
    requires id < spread
    ensures id % spread == id
  {
  }

  /** The gap is the one asked for, unless that is over a quarter of the lease, or thirty
      seconds. */
  lemma GapIsAsAsked(c: Config)
    ensures GapOf(c) <= c.ttl / 4 && GapOf(c) <= 30_000 && GapOf(c) <= c.coalesceMs
    ensures c.coalesceMs <= c.ttl / 4 && c.coalesceMs <= 30_000 ==> GapOf(c) == c.coalesceMs
  {
  }

  // ---------------------------------------------------------------------- the loop

  /** What the world does to one request. `arrival`: how long it takes to reach the
      registry, if it ever does. `parked`, `reply`: how long it is held there and how long
      the answer takes. `broken`: when the connection fails, if it does. `wake`: when a
      publisher wants the loop's attention. `pause`: how much of the gap after an answer
      passes before something wakes the loop. `refused`: the answer is that the seat is
      lost. `leaving`: the member had left before the request was to be sent. */
  datatype Event = Event(arrival: Option<nat>, parked: nat, reply: nat, broken: Option<nat>, wake: Option<nat>,
                         pause: nat, refused: bool, leaving: bool)

  datatype Round = Round(start: Time, hold: nat, arrivesAt: Option<Time>, cancelled: bool, end: Time, next: Time)

  datatype Config = Config(ttl: nat, coalesceMs: nat, id: nat)

  /** When the exchange is over, if nobody cancels it: answered, failed or given up on. */
  function ExchangeLength(intervalMs: nat, hold: nat, e: Event): nat {
    var budget := BeatTimeout(intervalMs, hold);
    var working := if e.broken.Some? then Min(e.broken.value, budget) else budget;
    if e.arrival.Some? then Min(e.arrival.value + e.parked + e.reply, working) else working
  }

  /** An answer comes before the exchange is given up on. */
  predicate IsAnswered(intervalMs: nat, hold: nat, e: Event) {
    e.arrival.Some? && e.arrival.value + e.parked + e.reply <= BeatTimeout(intervalMs, hold) &&
    (e.broken.Some? ==> e.arrival.value + e.parked + e.reply <= e.broken.value)
  }

  function GapOf(c: Config): nat { CoalesceGap(c.coalesceMs, IntervalOf(c.ttl)) }

  /** One turn. Only a held request can be cancelled, and the one after a cancelled one is
      not held. */
  function Turn(c: Config, cancelledLast: bool, start: Time, e: Event): Round {
    var hold := if cancelledLast then 0 else HoldOf(c.ttl);
    var length := ExchangeLength(IntervalOf(c.ttl), hold, e);
    var cancelled := hold > 0 && e.wake.Some? && e.wake.value < length;
    var end := start + if cancelled then e.wake.value else length;
    var rested := start + GapOf(c);
    var next := if cancelled then Max(end, rested) else Max(end, Min(rested, end + e.pause));
    Round(start, hold, if e.arrival.Some? then Some(start + e.arrival.value) else None, cancelled, end, next)
  }

  /** Round i is one turn of the loop, begun where the one before it left off. */
  ghost predicate Turns(c: Config, events: seq<Event>, rounds: seq<Round>, i: nat)
    requires i < |rounds| == |events|
  {
    && rounds[i] == Turn(c, i > 0 && rounds[i - 1].cancelled, rounds[i].start, events[i])
    && (i > 0 ==> rounds[i].start == rounds[i - 1].next)
  }

  ghost predicate Loops(c: Config, events: seq<Event>, rounds: seq<Round>) {
    |rounds| == |events| && forall i: nat | i < |rounds| :: Turns(c, events, rounds, i)
  }

  /** The answer to this round is that the seat is lost. */
  predicate Refuses(c: Config, e: Event, r: Round) {
    !r.cancelled && IsAnswered(IntervalOf(c.ttl), r.hold, e) && e.refused
  }

  /** The loop turns until it is refused or the member has left: not a turn further, and not
      a turn less. */
  ghost predicate UntilStopped(c: Config, events: seq<Event>, rounds: seq<Round>) {
    && |rounds| <= |events| && Loops(c, events[..|rounds|], rounds)
    && (forall i | 0 <= i < |rounds| ::
          !events[i].leaving && (Refuses(c, events[i], rounds[i]) ==> i == |rounds| - 1))
    && (|rounds| < |events| ==>
          events[|rounds|].leaving || (rounds != [] && Refuses(c, events[|rounds| - 1], rounds[|rounds| - 1])))
  }

  /** The loop once a first acknowledgement has set its hold. It never cancels two requests
      in a row. */
  method BeatLoop(c: Config, begin: Time, events: seq<Event>) returns (rounds: seq<Round>)
    requires c.ttl >= MIN_TTL_MS
    ensures UntilStopped(c, events, rounds) && (rounds != [] ==> rounds[0].start == begin)
    ensures forall i, j | 0 <= i < j < |rounds| && j == i + 1 :: !(rounds[i].cancelled && rounds[j].cancelled)
  {
    hide ExchangeLength, IsAnswered, GapOf, HoldOf;
    rounds := [];
    var cancelledLast := false;
    var now := begin;
    var i := 0;
    while i < |events| && !events[i].leaving
      invariant 0 <= i <= |events| && Loops(c, events[..i], rounds)
      invariant i > 0 ==> rounds[0].start == begin && now == rounds[i - 1].next
      invariant i == 0 ==> now == begin
      invariant cancelledLast == (i > 0 && rounds[i - 1].cancelled)
      invariant forall j | 0 <= j < i :: !events[j].leaving && !Refuses(c, events[j], rounds[j])
      invariant forall j, k | 0 <= j < k < |rounds| && k == j + 1 :: !(rounds[j].cancelled && rounds[k].cancelled)
    {
      var e, started := events[i], now;
      var hold := if cancelledLast then 0 else HoldOf(c.ttl);
      var length := ExchangeLength(IntervalOf(c.ttl), hold, e);
      cancelledLast := hold > 0 && e.wake.Some? && e.wake.value < length;
      now := started + if cancelledLast then e.wake.value else length;
      var ended := now;
      if now < started + GapOf(c) {
        // Nothing may cut short the gap after a cancelled request.
        now := if cancelledLast then started + GapOf(c) else Min(started + GapOf(c), now + e.pause);
      }
      var arrives := if e.arrival.Some? then Some(started + e.arrival.value) else None;
      var round := Round(started, hold, arrives, cancelledLast, ended, now);
      LoopsOn(c, events, rounds, i, round);
      rounds := rounds + [round];
      i := i + 1;
      if Refuses(c, e, round) { return; }
    }
  }

  /** The loop stops at a refusal it has taken and not at one it has dropped or missed: after
      any other round it goes on, unless the member has left. */
  lemma LoopStopsExactly(c: Config, events: seq<Event>, rounds: seq<Round>, i: nat)
    requires UntilStopped(c, events, rounds) && i < |rounds|
    ensures rounds[i].cancelled || !IsAnswered(IntervalOf(c.ttl), rounds[i].hold, events[i]) || !events[i].refused ==>
              i + 1 < |rounds| || i + 1 == |events| || events[i + 1].leaving
    ensures !rounds[i].cancelled && IsAnswered(IntervalOf(c.ttl), rounds[i].hold, events[i]) && events[i].refused ==>
              i + 1 == |rounds|
  {
    hide IsAnswered, Loops;
  }

  // -------------------------------------------------------------- before the first answer

  const FIRST_INTERVAL_MS: nat := 1000

  /** Until the registry has answered nothing is held and nothing can be cancelled; an
      unanswered request is followed by a nap of an interval at most. */
  function Poll(start: Time, e: Event): Round {
    var end := start + ExchangeLength(FIRST_INTERVAL_MS, 0, e);
    Round(start, 0, if e.arrival.Some? then Some(start + e.arrival.value) else None, false, end,
          end + Min(e.pause, Clamp(FIRST_INTERVAL_MS, 50, 30_000)))
  }

  ghost predicate Polls(events: seq<Event>, rounds: seq<Round>, begin: Time) {
    && |rounds| <= |events|
    && (forall i | 0 <= i < |rounds| ::
          rounds[i] == Poll(rounds[i].start, events[i]) && !IsAnswered(FIRST_INTERVAL_MS, 0, events[i]))
    && (rounds != [] ==> rounds[0].start == begin)
    && (forall i, j | 0 <= i < j < |rounds| && j == i + 1 :: rounds[j].start == rounds[i].next)
  }

  lemma PollWithin(start: Time, e: Event)
    ensures var r := Poll(start, e);
            r.start == start && r.hold == 0 && r.next <= start + 1750
  {
  }

  /** The whole loop: polls until a first answer, leaving or not; then, unless that answer
      refuses, the held beats above until they are stopped. `first` is the event answered first, if any is, and `late` the rounds
      after it. Unanswered polls are at most 1750ms apart. */
  method Spawn(c: Config, begin: Time, events: seq<Event>)
    returns (early: seq<Round>, first: Option<Round>, late: seq<Round>)
    requires c.ttl >= MIN_TTL_MS
    ensures Polls(events, early, begin)
    ensures first.None? ==> |early| == |events| && late == []
    ensures first.Some? ==>
              |early| < |events| && IsAnswered(FIRST_INTERVAL_MS, 0, events[|early|]) && first.value.hold == 0 &&
              first.value.start == (if early == [] then begin else early[|early| - 1].next)
    ensures first.Some? && events[|early|].refused ==> late == []
    ensures first.Some? && !events[|early|].refused ==>
              var rest := events[|early| + 1..];
              UntilStopped(c, rest, late) && (late != [] ==> late[0].start == first.value.next)
    ensures forall i | 0 <= i < |early| :: early[i].next <= early[i].start + 1750
  {
    hide Poll, IsAnswered, GapOf, UntilStopped;
    early, first, late := [], None, [];
    var now := begin;
    var i := 0;
    while i < |events|
      invariant 0 <= i <= |events| && |early| == i && Polls(events, early, begin)
      invariant now == if i == 0 then begin else early[i - 1].next
      invariant forall j | 0 <= j < i :: early[j].next <= early[j].start + 1750
    {
      var e := events[i];
      var poll := Poll(now, e);
      PollWithin(now, e);
      if IsAnswered(FIRST_INTERVAL_MS, 0, e) {
        var rested := now + GapOf(c);
        first := Some(poll.(next := Max(poll.end, Min(rested, poll.end + e.pause))));
        if !e.refused { late := BeatLoop(c, first.value.next, events[i + 1..]); }
        return;
      }
      early := early + [poll];
      now := poll.next;
      i := i + 1;
    }
  }

  /** Before the first answer a failed poll is over as soon as it breaks, or after 750ms; and
      whatever is new by then cuts the nap after it short. */
  lemma PollsSoon(events: seq<Event>, rounds: seq<Round>, begin: Time, i: nat)
    requires Polls(events, rounds, begin) && i < |rounds|
    ensures var e := events[i];
            && rounds[i].hold == 0 && !rounds[i].cancelled
            && rounds[i].end == rounds[i].start + (if e.broken.Some? then Min(e.broken.value, 750) else 750)
            && (if e.pause < 1000 then rounds[i].next == rounds[i].end + e.pause else rounds[i].next == rounds[i].end + 1000)
  {
  }

  lemma LoopsOn(c: Config, events: seq<Event>, rounds: seq<Round>, i: nat, round: Round)
    requires i < |events| && Loops(c, events[..i], rounds)
    requires round == Turn(c, i > 0 && rounds[i - 1].cancelled, round.start, events[i])
    requires i > 0 ==> round.start == rounds[i - 1].next
    ensures Loops(c, events[..i + 1], rounds + [round])
  {
    hide Turn;
    var more, upTo := rounds + [round], events[..i + 1];
    forall j: nat | j < |more| ensures Turns(c, upTo, more, j) {
      if j < i { assert Turns(c, events[..i], rounds, j); }
    }
  }

  /** A cancelled beat is never followed by another cancelled one. */
  lemma NoTwoCancelled(c: Config, events: seq<Event>, rounds: seq<Round>, i: nat)
    requires Loops(c, events, rounds) && 0 < i < |rounds|
    ensures !(rounds[i - 1].cancelled && rounds[i].cancelled)
  {
    assert Turns(c, events, rounds, i);
  }

  // --------------------------------------------------------------- a publish gets out

  /** How long the exchange of round i would last if nobody cancelled it. */
  function Lasts(c: Config, events: seq<Event>, rounds: seq<Round>, i: nat): nat
    requires i < |rounds| == |events|
  {
    ExchangeLength(IntervalOf(c.ttl), rounds[i].hold, events[i])
  }

  /** A held request is dropped the moment a publish wakes the loop, if that is before the
      exchange is over. The next one begins there and then, or once the gap has passed; it is
      not held and so cannot be dropped in its turn. */
  lemma WokenEndsAtWake(c: Config, events: seq<Event>, rounds: seq<Round>, i: nat, w: nat)
    requires Loops(c, events, rounds) && i + 1 < |rounds| && rounds[i].hold > 0
    requires events[i].wake == Some(w) && w < Lasts(c, events, rounds, i)
    ensures rounds[i].cancelled && rounds[i].end == rounds[i].start + w
    ensures rounds[i + 1].start == Max(rounds[i].start + w, rounds[i].start + GapOf(c))
    ensures rounds[i + 1].hold == 0 && !rounds[i + 1].cancelled
  {
    hide ExchangeLength, GapOf, HoldOf;
    assert Turns(c, events, rounds, i) && Turns(c, events, rounds, i + 1);
  }

  /** Nothing else cuts an exchange short: it ends with its answer, or as soon as it breaks
      or has taken too long. */
  lemma EndsWhenOver(c: Config, events: seq<Event>, rounds: seq<Round>, i: nat)
    requires Loops(c, events, rounds) && i < |rounds|
    requires rounds[i].hold == 0 || events[i].wake.None? || events[i].wake.value >= Lasts(c, events, rounds, i)
    ensures !rounds[i].cancelled
    ensures var e, budget := events[i], BeatTimeout(IntervalOf(c.ttl), rounds[i].hold);
            if IsAnswered(IntervalOf(c.ttl), rounds[i].hold, e)
            then rounds[i].end == rounds[i].start + e.arrival.value + e.parked + e.reply
            else rounds[i].end == rounds[i].start + if e.broken.Some? then Min(e.broken.value, budget) else budget
  {
    hide BeatTimeout, GapOf, HoldOf;
    assert Turns(c, events, rounds, i);
  }

  /** A publish at time t, during round i or the pause after it: if a request is being held
      then, this wakes the loop, or something has already. */
  ghost predicate PublishedIn(c: Config, events: seq<Event>, rounds: seq<Round>, i: nat, t: Time)
    requires i < |rounds| == |events|
  {
    && rounds[i].start <= t <= rounds[i].next
    && (rounds[i].hold > 0 && t < rounds[i].start + Lasts(c, events, rounds, i) ==>
          events[i].wake.Some? && rounds[i].start + events[i].wake.value <= t)
  }

  /** The longest a publish waits for the beat that carries it to be sent. */
  function PublishDelay(c: Config): nat { Max(GapOf(c), BeatTimeout(IntervalOf(c.ttl), 0)) }

  /** Whenever it comes, the next request begins after it and so carries it, and begins within
      the gap, or within the one unheld exchange that may not be dropped. */
  lemma PublishGetsOut(c: Config, events: seq<Event>, rounds: seq<Round>, i: nat, t: Time)
    requires Loops(c, events, rounds) && i + 1 < |rounds| && PublishedIn(c, events, rounds, i, t)
    ensures t <= rounds[i + 1].start <= t + PublishDelay(c)
    ensures rounds[i].hold > 0 ==> rounds[i + 1].start <= t + GapOf(c)
  {
    hide BeatTimeout, GapOf, HoldOf;
    assert Turns(c, events, rounds, i) && Turns(c, events, rounds, i + 1);
  }

  /** Which is never more than a hold, itself at most a quarter of the lease. */
  lemma PublishDelayIsShort(c: Config)
    requires c.ttl >= MIN_TTL_MS
    ensures PublishDelay(c) <= HoldOf(c.ttl) <= c.ttl / 4
  {
  }

  /** And the loop does not spin: the request after a dropped one keeps the gap, and the one
      after any other keeps it too unless something new cuts the pause short. */
  lemma KeepsTheGap(c: Config, events: seq<Event>, rounds: seq<Round>, i: nat)
    requires Loops(c, events, rounds) && i + 1 < |rounds|
    ensures rounds[i + 1].start >= rounds[i].end
    ensures rounds[i + 1].start >= rounds[i].start + GapOf(c) ||
            (!rounds[i].cancelled && rounds[i + 1].start == rounds[i].end + events[i].pause)
  {
    hide ExchangeLength, GapOf, HoldOf;
    assert Turns(c, events, rounds, i) && Turns(c, events, rounds, i + 1);
  }

  // ------------------------------------------------------------------ lease survival

  predicate Lost(r: Round) { r.arrivesAt.None? }

  /** Every request that arrives does so within D, is held no longer than the registry
      holds, and is answered within D. */
  ghost predicate Timely(c: Config, events: seq<Event>, rounds: seq<Round>, d: nat) {
    forall i | 0 <= i < |events| && i < |rounds| && events[i].arrival.Some? ::
      events[i].arrival.value <= d && events[i].reply <= d && events[i].parked <= ParkLimit(rounds[i].hold, c.ttl, c.id)
  }

  /** Never more than n requests in a row are lost. */
  ghost predicate AtMostLost(rounds: seq<Round>, n: nat) {
    forall i: nat | i + n < |rounds| :: HeardWithin(rounds, i, n)
  }

  ghost predicate HeardWithin(rounds: seq<Round>, i: nat, n: nat)
    requires i + n < |rounds|
  {
    exists j | i <= j <= i + n :: !Lost(rounds[j])
  }

  /** The longest the loop stays quiet after an arrival, and the longest it waits on one
      request. */
  function Quiet(c: Config, d: nat): nat {
    Min(ParkLimit(HoldOf(c.ttl), c.ttl, c.id) + d, Patience(c))
  }

  function Patience(c: Config): nat { BeatTimeout(IntervalOf(c.ttl), HoldOf(c.ttl)) }

  /** The network is fast enough for n losses in a row: an answered request, the lost ones
      and the arrival of the next fit strictly within the lease, since a sweep at the very
      moment it ends drops the member. */
  predicate Slack(c: Config, d: nat, n: nat) { Quiet(c, d) + n * Patience(c) + d < c.ttl }

  /** One loss in a row fits whenever delays stay below seven sixteenths of the hold. */
  lemma SmallDelaysSuffice(c: Config, d: nat)
    requires c.ttl >= MIN_TTL_MS && 16 * d < 7 * HoldOf(c.ttl)
    ensures Slack(c, d, 1)
  {
    hide ParkLimit, HoldOf;
    HoldFitsTimeoutFitsLease(c.ttl, c.id);
  }

  /** From a request that arrived to the next one sent. */
  lemma TurnAfterArrival(c: Config, cancelledLast: bool, start: Time, e: Event, d: nat)
    requires c.ttl >= MIN_TTL_MS && e.arrival.Some? && e.reply <= d
    requires e.parked <= ParkLimit(Turn(c, cancelledLast, start, e).hold, c.ttl, c.id)
    ensures Turn(c, cancelledLast, start, e).next <= start + e.arrival.value + Quiet(c, d)
  {
    hide ParkLimit, BeatTimeout;
    HoldFitsTimeoutFitsLease(c.ttl, c.id);
    NothingHeldNothingParked(c.ttl, c.id);
  }

  lemma NothingHeldNothingParked(ttl: nat, id: nat)
    ensures ParkLimit(0, ttl, id) == 0
  {
  }

  /** From any request to the next, lost or not. */
  lemma TurnAtMost(c: Config, cancelledLast: bool, start: Time, e: Event)
    requires c.ttl >= MIN_TTL_MS
    ensures Turn(c, cancelledLast, start, e).next <= start + Patience(c)
  {
    hide ParkLimit, BeatTimeout;
    HoldFitsTimeoutFitsLease(c.ttl, c.id);
  }

  lemma OneMore(n: nat, p: nat)
    ensures (n + 1) * p == n * p + p
  {
  }

  lemma NoMore(m: nat, n: nat, p: nat)
    requires m <= n
    ensures m * p <= n * p
  {
  }

  lemma {:induction false} StartsWithin(c: Config, events: seq<Event>, rounds: seq<Round>, d: nat, i: nat, j: nat)
    requires c.ttl >= MIN_TTL_MS && Loops(c, events, rounds) && Timely(c, events, rounds, d)
    requires i < j < |rounds| && !Lost(rounds[i])
    ensures rounds[j].start <= rounds[i].arrivesAt.value + Quiet(c, d) + (j - i - 1) * Patience(c)
    decreases j
  {
    hide ParkLimit, HoldOf, Turn, Quiet, Patience;
    assert Turns(c, events, rounds, j - 1) && Turns(c, events, rounds, j);
    if j == i + 1 {
      TurnShape(c, events, rounds, i);
      TurnAfterArrival(c, i > 0 && rounds[i - 1].cancelled, rounds[i].start, events[i], d);
    } else {
      StartsWithin(c, events, rounds, d, i, j - 1);
      TurnAtMost(c, rounds[j - 2].cancelled, rounds[j - 1].start, events[j - 1]);
      OneMore(j - i - 2, Patience(c));
    }
  }

  /** Two requests that arrive with at most n between them arrive less than a lease apart. */
  lemma ArrivalsWithinLease(c: Config, events: seq<Event>, rounds: seq<Round>, d: nat, n: nat, i: nat, j: nat)
    requires c.ttl >= MIN_TTL_MS && Loops(c, events, rounds) && Timely(c, events, rounds, d) && Slack(c, d, n)
    requires i < j < |rounds| && j <= i + n + 1 && !Lost(rounds[i]) && !Lost(rounds[j])
    ensures rounds[j].arrivesAt.value < rounds[i].arrivesAt.value + c.ttl
  {
    hide ParkLimit, HoldOf, Turn, Quiet, Patience;
    StartsWithin(c, events, rounds, d, i, j);
    TurnShape(c, events, rounds, j);
    NoMore(j - i - 1, n, Patience(c));
  }

  lemma TurnShape(c: Config, events: seq<Event>, rounds: seq<Round>, i: nat)
    requires Loops(c, events, rounds) && i < |rounds|
    ensures rounds[i].arrivesAt == if events[i].arrival.Some? then Some(rounds[i].start + events[i].arrival.value) else None
  {
    assert Turns(c, events, rounds, i);
  }

  /** The lease runs at time t, even if whatever arrives at t itself comes too late: some
      request arrived before, less than a lease ago. */
  ghost predicate Covered(rounds: seq<Round>, ttl: nat, t: Time) {
    exists k | 0 <= k < |rounds| :: !Lost(rounds[k]) && rounds[k].arrivesAt.value < t < rounds[k].arrivesAt.value + ttl
  }

  lemma NextHeard(rounds: seq<Round>, n: nat, i: nat, last: nat) returns (j: nat)
    requires AtMostLost(rounds, n) && i < last < |rounds| && !Lost(rounds[last])
    ensures i < j <= last && j <= i + n + 1 && !Lost(rounds[j])
  {
    if last <= i + n + 1 { return last; }
    assert HeardWithin(rounds, i + 1, n);
    j :| i + 1 <= j <= i + 1 + n && !Lost(rounds[j]);
  }

  lemma {:induction false} CoveredFrom(c: Config, events: seq<Event>, rounds: seq<Round>, d: nat, n: nat,
                                       i: nat, last: nat, t: Time)
    requires c.ttl >= MIN_TTL_MS && Loops(c, events, rounds) && Timely(c, events, rounds, d)
    requires Slack(c, d, n) && AtMostLost(rounds, n) && Between(rounds, i, last, t)
    ensures Covered(rounds, c.ttl, t)
    decreases last - i
  {
    hide Loops, Timely, Slack, AtMostLost;
    var j := NextHeard(rounds, n, i, last);
    if rounds[j].arrivesAt.value < t {
      CoveredFrom(c, events, rounds, d, n, j, last, t);
    } else {
      ArrivalsWithinLease(c, events, rounds, d, n, i, j);
    }
  }

  ghost predicate Between(rounds: seq<Round>, first: nat, last: nat, t: Time) {
    && first <= last < |rounds| && !Lost(rounds[first]) && !Lost(rounds[last])
    && rounds[first].arrivesAt.value < t <= rounds[last].arrivesAt.value
  }

  ghost predicate AlwaysCovered(rounds: seq<Round>, ttl: nat) {
    forall first: nat, last: nat, t: Time | Between(rounds, first, last, t) :: Covered(rounds, ttl, t)
  }

  /** Lease survival. For every lease of at least 200ms, any coalescing setting, any member
      and any publisher: if at most n requests in a row are lost and the network leaves
      slack for that, then from the first arrival to the last there is no moment at which
      the lease is not running. */
  lemma LeaseSurvival(c: Config, events: seq<Event>, rounds: seq<Round>, d: nat, n: nat)
    requires c.ttl >= MIN_TTL_MS && Loops(c, events, rounds) && Timely(c, events, rounds, d)
    requires Slack(c, d, n) && AtMostLost(rounds, n)
    ensures AlwaysCovered(rounds, c.ttl)
  {
    hide Loops, Timely, Slack, AtMostLost, Covered;
    forall first: nat, last: nat, t: Time | Between(rounds, first, last, t) ensures Covered(rounds, c.ttl, t) {
      CoveredFrom(c, events, rounds, d, n, first, last, t);
    }
  }

  const MISSED: Event := Event(None, 0, 0, None, None, 0, false, false)

  function Answered(c: Config, d: nat): Event {
    Event(Some(0), ParkLimit(HoldOf(c.ttl), c.ttl, c.id), d, None, None, 0, false, false)
  }

  lemma MissedTurn(c: Config, start: Time)
    requires c.ttl >= MIN_TTL_MS
    ensures Turn(c, false, start, MISSED) ==
            Round(start, HoldOf(c.ttl), None, false, start + Patience(c), start + Patience(c))
  {
    hide ParkLimit, BeatTimeout;
    HoldFitsTimeoutFitsLease(c.ttl, c.id);
  }

  lemma AnsweredTurn(c: Config, d: nat, start: Time)
    requires c.ttl >= MIN_TTL_MS
    ensures Turn(c, false, start, Answered(c, d)) ==
            Round(start, HoldOf(c.ttl), Some(start), false, start + Quiet(c, d), start + Quiet(c, d))
  {
    hide ParkLimit, BeatTimeout;
    HoldFitsTimeoutFitsLease(c.ttl, c.id);
  }

  /** Answered once, then missed n times. */
  lemma {:induction false} MissedInARow(c: Config, d: nat, n: nat) returns (events: seq<Event>, rounds: seq<Round>)
    requires c.ttl >= MIN_TTL_MS
    ensures Loops(c, events, rounds) && Timely(c, events, rounds, d) && |rounds| == n + 1
    ensures rounds[0].arrivesAt == Some(0) && forall i | 0 < i <= n :: Lost(rounds[i])
    ensures !rounds[n].cancelled && rounds[n].next == Quiet(c, d) + n * Patience(c)
  {
    hide ParkLimit, BeatTimeout, HoldOf, Turn, Quiet, Patience;
    if n == 0 {
      AnsweredTurn(c, d, 0);
      events, rounds := [Answered(c, d)], [Turn(c, false, 0, Answered(c, d))];
    } else {
      var before, ran := MissedInARow(c, d, n - 1);
      var missed := Turn(c, false, ran[n - 1].next, MISSED);
      MissedTurn(c, ran[n - 1].next);
      OneMore(n - 1, Patience(c));
      events, rounds := before + [MISSED], ran + [missed];
      assert events[..n] == before && events[..n + 1] == events;
      LoopsOn(c, events, ran, n, missed);
    }
  }

  /** Without slack some run with timely delivery and n losses in a row lets the lease
      lapse. */
  lemma LapseWithoutSlack(c: Config, d: nat, n: nat) returns (events: seq<Event>, rounds: seq<Round>)
    requires c.ttl >= MIN_TTL_MS && !Slack(c, d, n)
    ensures Loops(c, events, rounds) && Timely(c, events, rounds, d) && AtMostLost(rounds, n)
    ensures !AlwaysCovered(rounds, c.ttl)
  {
    hide ParkLimit, BeatTimeout, HoldOf, Turn, Quiet, Patience, Loops;
    var before, ran := MissedInARow(c, d, n);
    LoopsLong(c, before, ran);
    var late := Event(Some(d), 0, 0, None, None, 0, false, false);
    var final := Turn(c, false, ran[n].next, late);
    LateTurn(c, d, ran[n].next);
    events, rounds := before + [late], ran + [final];
    assert events[..n + 1] == before && events[..n + 2] == events;
    LoopsOn(c, events, ran, n + 1, final);
    forall i: nat | i + n < |rounds| ensures HeardWithin(rounds, i, n) {
      assert !Lost(rounds[if i == 0 then 0 else n + 1]);
    }
    assert Between(rounds, 0, n + 1, c.ttl) && !Covered(rounds, c.ttl, c.ttl);
  }

  lemma LoopsLong(c: Config, events: seq<Event>, rounds: seq<Round>)
    requires Loops(c, events, rounds)
    ensures |events| == |rounds|
  {
  }

  lemma LateTurn(c: Config, d: nat, start: Time)
    ensures var r := Turn(c, false, start, Event(Some(d), 0, 0, None, None, 0, false, false));
            r.start == start && r.arrivesAt == Some(start + d) && r.hold == HoldOf(c.ttl)
  {
    hide ParkLimit, BeatTimeout, HoldOf;
  }

  /** Slack is exactly what it takes, for any number of losses in a row. */
  lemma SurvivalIsSlack(c: Config, d: nat, n: nat)
    requires c.ttl >= MIN_TTL_MS
    ensures Slack(c, d, n) <==>
            forall events, rounds |
              Loops(c, events, rounds) && Timely(c, events, rounds, d) && AtMostLost(rounds, n) :: AlwaysCovered(rounds, c.ttl)
  {
    hide Loops, Timely, Slack, AtMostLost, AlwaysCovered;
    if Slack(c, d, n) {
      forall events, rounds | Loops(c, events, rounds) && Timely(c, events, rounds, d) && AtMostLost(rounds, n)
        ensures AlwaysCovered(rounds, c.ttl)
      {
        LeaseSurvival(c, events, rounds, d, n);
      }
    } else {
      var events, rounds := LapseWithoutSlack(c, d, n);
    }
  }

  /** On a network that itself loses nothing, only a cancelled request can fail to arrive,
      and so no publisher, however fast, can starve the lease. */
  lemma PublisherCannotStarve(c: Config, events: seq<Event>, rounds: seq<Round>)
    requires Loops(c, events, rounds) && forall i | 0 <= i < |rounds| && Lost(rounds[i]) :: rounds[i].cancelled
    ensures AtMostLost(rounds, 1)
  {
    hide Turn;
    forall i: nat | i + 1 < |rounds| ensures HeardWithin(rounds, i, 1) {
      NoTwoCancelled(c, events, rounds, i + 1);
      assert !Lost(rounds[i]) || !Lost(rounds[i + 1]);
    }
  }

  // ------------------------------------------------------------------- in the registry

  /** The pool holds this member, in the shape it asks for, and nothing fences its tenure. */
  ghost predicate Keeps(p: PoolState, me: Beat) {
    && Stored(p, me.id) == Some(me.incarnation) && Watermark(p, me.id) <= me.incarnation
    && (me.id in p.gone ==> p.gone[me.id].tenure < me.incarnation) && !Disagrees(p, me)
  }

  predicate Own(step: Step, me: Beat) { step.Lands? && step.beat.id == me.id && step.beat.incarnation == me.incarnation }

  /** The member's own beats are admissible renewals in one policy and size; every other
      tenure only asks for the seat if nobody holds it. */
  predicate Fair(step: Step, me: Beat) {
    step.Lands? && step.beat.id == me.id ==>
      if step.beat.incarnation == me.incarnation
      then Admissible(step.beat) && !step.beat.leaving && step.beat.policy == me.policy && step.beat.size == me.size
      else step.beat.exclusive
  }

  /** A kept member's renewals are accepted. */
  lemma RenewalAccepted(p: PoolState, step: Step, me: Beat)
    requires Keeps(p, me) && Own(step, me) && Fair(step, me)
    ensures Accepts(p, step.beat)
  {
    hide Admissible;
  }

  lemma AcceptedIsKept(p: PoolState, me: Beat, deadline: Time)
    requires Accepts(p, me) && !me.leaving
    ensures Keeps(OnBeat(p, me, deadline), me) && OnBeat(p, me, deadline).members[me.id].expiresAt == deadline
  {
    hide Admissible, Acted, Refreshed;
    AcceptanceBounds(p, me);
    BeatAtSeat(p, me, deadline);
    ActKeepsShape(Shaped(p, me), me, deadline);
  }

  lemma KeptOn(p: PoolState, step: Step, q: PoolState, ttl: nat, me: Beat)
    requires Next(p, step, q, ttl) && Keeps(p, me) && Fair(step, me)
    requires step.Sweep? ==> step.now < p.members[me.id].expiresAt
    ensures Keeps(q, me)
    ensures q.members[me.id].expiresAt == if Own(step, me) then step.now + ttl else p.members[me.id].expiresAt
  {
    hide OnBeat, Swept, Expired, Accepts, Refreshed, Admissible;
    if Own(step, me) { RenewalAccepted(p, step, me); }
    HolderStep(p, step, q, ttl, me.id, me.incarnation);
    OccupiedKeepsShape(p, step, q, ttl);
    match step {
      case Lands(b, now) =>
        if b.id != me.id { BeatElsewhere(p, b, now + ttl, me.id); }
        else if b.incarnation != me.incarnation {
          OthersAreRefused(p, b, now + ttl, me.id, me.incarnation);
          RefusedAtSeat(p, b, now + ttl);
        }
        else { BeatAtSeat(p, b, now + ttl); }
      case Sweep(now, alive, order) => SweepSeats(p, now, alive, order, me.id);
      case Wait(_, _) =>
    }
  }

  /** Before any sweep, every request that arrived earlier, and since step k, has landed. */
  ghost predicate Heard(steps: seq<Step>, rounds: seq<Round>, k: nat, me: Beat)
    requires k < |steps|
  {
    forall i, m | 0 <= i < |rounds| && k < m < |steps| && steps[m].Sweep? && !Lost(rounds[i]) &&
                  steps[k].now <= rounds[i].arrivesAt.value < steps[m].now ::
      LandedBy(steps, k, m, me, rounds[i].arrivesAt.value)
  }

  ghost predicate LandedBy(steps: seq<Step>, k: nat, m: nat, me: Beat, t: Time)
    requires m <= |steps|
  {
    exists r | k <= r < m :: Own(steps[r], me) && steps[r].now == t
  }

  /** Everything a pool and a beat loop have to do with each other: the loop's first
      arrival is accepted at step k, everybody is fair from there to the loop's last
      arrival, and its requests land when they arrive. */
  ghost predicate Serves(states: seq<PoolState>, steps: seq<Step>, c: Config, rounds: seq<Round>, first: nat, last: nat, k: nat) {
    && IsRun(states, steps, c.ttl) && k < |steps| && steps[k].Lands? && steps[k].beat.id == c.id
    && Accepts(states[k], steps[k].beat) && !steps[k].beat.leaving
    && first <= last < |rounds| && !Lost(rounds[first]) && !Lost(rounds[last])
    && steps[k].now == rounds[first].arrivesAt.value
    && (forall m | k < m < |steps| :: Fair(steps[m], steps[k].beat) && steps[m].now <= rounds[last].arrivesAt.value)
    && Heard(steps, rounds, k, steps[k].beat)
  }

  /** At each sweep some landed request is less than a lease old. */
  lemma SweepFindsLease(states: seq<PoolState>, steps: seq<Step>, c: Config, rounds: seq<Round>,
                        first: nat, last: nat, k: nat, m: nat)
    requires Serves(states, steps, c, rounds, first, last, k) && AlwaysCovered(rounds, c.ttl) && c.ttl > 0
    requires k < m < |steps| && steps[m].Sweep?
    ensures exists r | k <= r < m :: Own(steps[r], steps[k].beat) && steps[m].now < steps[r].now + c.ttl
  {
    hide Next, Accepts, Fair, Covered;
    var t, me := steps[m].now, steps[k].beat;
    assert Own(steps[k], me) && steps[k].now <= t;
    if steps[k].now < t {
      assert Between(rounds, first, last, t);
      CoveredBy(rounds, c.ttl, t);
      var i :| 0 <= i < |rounds| && !Lost(rounds[i]) && rounds[i].arrivesAt.value < t < rounds[i].arrivesAt.value + c.ttl;
      if steps[k].now <= rounds[i].arrivesAt.value {
        assert LandedBy(steps, k, m, me, rounds[i].arrivesAt.value);
        var r :| k <= r < m && Own(steps[r], me) && steps[r].now == rounds[i].arrivesAt.value;
      } else {
        assert t < steps[k].now + c.ttl;
      }
    }
  }

  lemma CoveredBy(rounds: seq<Round>, ttl: nat, t: Time)
    requires Covered(rounds, ttl, t)
    ensures exists i | 0 <= i < |rounds| :: !Lost(rounds[i]) && rounds[i].arrivesAt.value < t < rounds[i].arrivesAt.value + ttl
  {
  }

  /** The lease is never older than the last landed request. */
  ghost predicate LeasedFrom(states: seq<PoolState>, steps: seq<Step>, ttl: nat, k: nat, j: nat, me: Beat)
    requires k < j < |states| && j <= |steps|
  {
    && Keeps(states[j], me)
    && forall r | k <= r < j && Own(steps[r], me) :: steps[r].now + ttl <= states[j].members[me.id].expiresAt
  }

  lemma {:induction false} KeptThrough(states: seq<PoolState>, steps: seq<Step>, c: Config, rounds: seq<Round>,
                                       first: nat, last: nat, k: nat, j: nat)
    requires Serves(states, steps, c, rounds, first, last, k) && AlwaysCovered(rounds, c.ttl) && c.ttl > 0 && k < j < |states|
    ensures LeasedFrom(states, steps, c.ttl, k, j, steps[k].beat)
    decreases j
  {
    hide OnBeat, Accepts, Fair, Keeps, Heard, AlwaysCovered, Swept, Expired, Lists;
    var me, p, step, q := steps[k].beat, states[j - 1], steps[j - 1], states[j];
    assert Next(p, step, q, c.ttl);
    if j == k + 1 {
      AcceptedIsKept(p, me, step.now + c.ttl);
    } else {
      KeptThrough(states, steps, c, rounds, first, last, k, j - 1);
      if step.Sweep? { SweepFindsLease(states, steps, c, rounds, first, last, k, j - 1); }
      KeptSince(p, me);
      KeptOn(p, step, q, c.ttl, me);
    }
  }

  lemma KeptSince(p: PoolState, me: Beat)
    requires Keeps(p, me)
    ensures me.id in p.members
  {
  }

  /** So no sweep ever drops the member: it is stored at every step from its first accepted
      beat to the last arrival of its loop, and every renewal in between is accepted. */
  lemma NeverSwept(states: seq<PoolState>, steps: seq<Step>, c: Config, events: seq<Event>, rounds: seq<Round>,
                   d: nat, n: nat, first: nat, last: nat, k: nat)
    requires c.ttl >= MIN_TTL_MS && Loops(c, events, rounds) && Timely(c, events, rounds, d)
    requires Slack(c, d, n) && AtMostLost(rounds, n)
    requires Serves(states, steps, c, rounds, first, last, k)
    ensures forall j | k < j < |states| :: Stored(states[j], c.id) == Some(steps[k].beat.incarnation)
    ensures forall r | k <= r < |steps| && Own(steps[r], steps[k].beat) :: Accepts(states[r], steps[r].beat)
  {
    hide Loops, Timely, Slack, AtMostLost, AlwaysCovered, Accepts, Next, Heard, Fair;
    LeaseSurvival(c, events, rounds, d, n);
    forall j | k < j < |states| ensures Keeps(states[j], steps[k].beat) {
      KeptThrough(states, steps, c, rounds, first, last, k, j);
    }
    forall r | k <= r < |steps| && Own(steps[r], steps[k].beat) ensures Accepts(states[r], steps[r].beat) {
      if k < r { RenewalAccepted(states[r], steps[r], steps[k].beat); }
    }
  }

  // ----------------------------------------------------------------- such a run exists

  const ALONE: Beat :=
    Beat("train", None, 0, 1, None, "churn", None, None, Null, 4, false, false, false, [], [], map[], 0)

  /** The pool holds nobody else, on a lease to `deadline`. */
  ghost predicate HoldsAlone(p: PoolState, deadline: Time) {
    Keeps(p, ALONE) && p.members.Keys == {0} && p.members[0].expiresAt == deadline
  }

  lemma BeatAlone(p: PoolState, deadline: Time, before: Time)
    requires p == EMPTY_POOL || HoldsAlone(p, before)
    ensures Accepts(p, ALONE) && HoldsAlone(OnBeat(p, ALONE, deadline), deadline)
  {
    hide MemberHash, Trimmed;
    assert Accepts(p, ALONE);
    AcceptedIsKept(p, ALONE, deadline);
    assert OnBeat(p, ALONE, deadline).members.Keys == {0};
  }

  lemma SweepAlone(p: PoolState, now: Time, deadline: Time)
    requires HoldsAlone(p, deadline) && now < deadline
    ensures Lists([], Expired(p, now)) && HoldsAlone(Swept(p, now, {}, []), deadline)
  {
  }

  /** A loop that loses every other request, against sweeps before every arrival: the
      second sweep comes long after the first lease would have ended. */
  lemma ServedForLong()
    returns (states: seq<PoolState>, steps: seq<Step>, c: Config, events: seq<Event>, rounds: seq<Round>)
    ensures c.ttl >= MIN_TTL_MS && Loops(c, events, rounds) && Timely(c, events, rounds, 0)
    ensures Slack(c, 0, 1) && AtMostLost(rounds, 1) && Serves(states, steps, c, rounds, 0, 4, 0)
    ensures exists m | 0 <= m < |steps| :: steps[m].Sweep? && steps[m].now > steps[0].now + c.ttl
  {
    c := Config(MIN_TTL_MS, 0, 0);
    events, rounds := LosesEveryOther(c);
    steps := [Lands(ALONE, 0), Sweep(140, {}, []), Lands(ALONE, 150), Sweep(290, {}, []), Lands(ALONE, 300)];
    states := AloneThroughout(steps);
    assert Heard(steps, rounds, 0, ALONE) by {
      assert Own(steps[0], ALONE) && Own(steps[2], ALONE);
      assert LandedBy(steps, 0, 1, ALONE, 0) && LandedBy(steps, 0, 3, ALONE, 0) && LandedBy(steps, 0, 3, ALONE, 150);
    }
    assert steps[3].Sweep?;
  }

  lemma LosesEveryOther(c: Config) returns (events: seq<Event>, rounds: seq<Round>)
    requires c == Config(MIN_TTL_MS, 0, 0)
    ensures Loops(c, events, rounds) && Timely(c, events, rounds, 0) && Slack(c, 0, 1) && AtMostLost(rounds, 1)
    ensures |rounds| == 5 && Lost(rounds[1]) && Lost(rounds[3])
    ensures rounds[0].arrivesAt == Some(0) && rounds[2].arrivesAt == Some(150) && rounds[4].arrivesAt == Some(300)
  {
    hide Turn;
    assert Quiet(c, 0) == 50 && Patience(c) == 100;
    AnsweredTurn(c, 0, 0);
    MissedTurn(c, 50);
    AnsweredTurn(c, 0, 150);
    MissedTurn(c, 200);
    AnsweredTurn(c, 0, 300);
    var a := Answered(c, 0);
    events := [a, MISSED, a, MISSED, a];
    rounds := [Turn(c, false, 0, a), Turn(c, false, 50, MISSED), Turn(c, false, 150, a), Turn(c, false, 200, MISSED),
               Turn(c, false, 300, a)];
    forall i: nat | i + 1 < |rounds| ensures HeardWithin(rounds, i, 1) {
      assert !Lost(rounds[if i % 2 == 0 then i else i + 1]);
    }
  }

  lemma AloneThroughout(steps: seq<Step>) returns (states: seq<PoolState>)
    requires steps == [Lands(ALONE, 0), Sweep(140, {}, []), Lands(ALONE, 150), Sweep(290, {}, []), Lands(ALONE, 300)]
    ensures IsRun(states, steps, MIN_TTL_MS) && Accepts(states[0], ALONE)
  {
    hide OnBeat, Swept, Lists, Expired, HoldsAlone, Accepts;
    var s0 := EMPTY_POOL;
    BeatAlone(s0, 200, 0);
    var s1 := OnBeat(s0, ALONE, 200);
    SweepAlone(s1, 140, 200);
    var s2 := Swept(s1, 140, {}, []);
    BeatAlone(s2, 350, 200);
    var s3 := OnBeat(s2, ALONE, 350);
    SweepAlone(s3, 290, 350);
    var s4 := Swept(s3, 290, {}, []);
    states := [s0, s1, s2, s3, s4, OnBeat(s4, ALONE, 500)];
  }
}
