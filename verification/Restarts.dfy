/** What a restart does to a client that has one beat out at a time: its cache is empty
    until it has asked twice. */
module Restarts {
  import opened Basics
  import opened Protocol
  import opened PoolModel
  import opened Registries
  import opened Histories
  import opened Replicas
  import opened Systems
  import opened Agreement
  import opened Convergence
  import opened Scenario
  import CachedPools
  import Epochs

  function StepAt(i: nat): Step {
    if i == 0 then Stranger(Hello(1), 0)
    else if i == 1 then Stranger(Hello(2), 0)
    else if i == 2 then Compose(FIRST)
    else if i == 3 then Arrive(FIRST, 0, FirstAck().ack)
    else if i == 4 then Deliver(FirstAck())
    else if i == 5 then Restart(2)
    else if i < 9 then Stranger(Hello(i - 5), 0)
    else if i == 9 then Compose(HELD)
    else if i == 10 then Arrive(HELD, 0, HeldAck().ack)
    else Deliver(HeldAck())
  }

  function RegsAt(i: nat): map<nat, Reg> {
    var elder := if i < 2 then RegOf(i) else if i < 4 then RegOf(2) else Old();
    if i < 6 then map[1 := elder]
    else map[1 := elder, 2 := if i < 10 then RegOf(i - 6) else if i == 10 then RegOf(3) else New()]
  }

  function SentAt(i: nat): set<Sent> { if i < 3 then {} else if i < 10 then {FIRST} else {FIRST, HELD} }

  function AcksAt(i: nat): set<Flight> {
    if i < 4 then {} else if i < 11 then {FirstAck()} else {FirstAck(), HeldAck()}
  }

  function ClientAt(i: nat): ClientState {
    if i < 5 then NEW_CLIENT else if i < 12 then Knows() else ClientState(map[], 2, true, false)
  }

  function StateAt(i: nat): System {
    System(TTL, RegsAt(i), if i < 6 then 1 else 2, SentAt(i), AcksAt(i), ClientAt(i), 0, if i < 12 then 0 else 1)
  }

  lemma HelloTaken(i: nat)
    requires i < 2 || 6 <= i < 9
    ensures Next(StateAt(i), StepAt(i), StateAt(i + 1), true)
  {
    hide Next, RegAfterBeat, RegOf, Old, New, FirstAck, HeldAck, Knows;
    var s, v := StateAt(i), if i < 2 then i else i - 6;
    HelloMovesOn(v);
    StrangerStep(s, Hello(v + 1), 0, true);
    assert s.regs[s.live := RegOf(v + 1)] == RegsAt(i + 1);
  }

  lemma FirstComposed()
    ensures Next(StateAt(2), StepAt(2), StateAt(3), true)
  {
    hide Next, RegAfterBeat, RegOf, Old, New, Knows, Grown, FullDelta, LateDelta, Applied, Replies;
    FirstAnswered();
    ComposeStep(StateAt(2), FIRST, true);
    assert SentAt(2) + {FIRST} == SentAt(3);
  }

  lemma HeldComposed()
    ensures Next(StateAt(9), StepAt(9), StateAt(10), true)
  {
    hide Next, RegAfterBeat, RegOf, Old, New, Knows, Grown, FullDelta, LateDelta, Applied, Replies;
    FirstAnswered();
    ComposeStep(StateAt(9), HELD, true);
    assert SentAt(9) + {HELD} == SentAt(10);
  }

  lemma FirstArrives()
    ensures Next(StateAt(3), StepAt(3), StateAt(4), true)
  {
    hide Next, RegAfterBeat, RegOf, Knows, Grown, Replies, FullDelta, LateDelta, Mine, Applied;
    FirstAnswered();
    ArriveStep(StateAt(3), FIRST, 0, FirstAck().ack, true);
    assert AcksAt(3) + {FirstAck()} == AcksAt(4);
    assert RegsAt(3)[1 := Old()] == RegsAt(4);
  }

  lemma HeldArrives()
    ensures Next(StateAt(10), StepAt(10), StateAt(11), true)
  {
    hide Next, RegAfterBeat, RegOf, Knows, Grown, Replies, FullDelta, LateDelta, Mine, Applied;
    HeldAnswered();
    ArriveStep(StateAt(10), HELD, 0, HeldAck().ack, true);
    assert AcksAt(10) + {HeldAck()} == AcksAt(11);
    assert RegsAt(10)[2 := New()] == RegsAt(11);
  }

  lemma FirstTaken()
    ensures Next(StateAt(4), StepAt(4), StateAt(5), true)
  {
    hide Next, RegAfterBeat, RegOf, Old, New, Knows, Grown, Applied, FullDelta, LateDelta, NotBehind, Replies;
    FirstAnswered();
    DeliverStep(StateAt(4), FirstAck(), true);
    assert Took(StateAt(4), FirstAck()) == StateAt(5);
  }

  lemma HeldTaken()
    ensures Next(StateAt(11), StepAt(11), StateAt(12), true)
  {
    hide Next, RegAfterBeat, RegOf, Old, New, Knows, Grown, Applied, FullDelta, LateDelta, NotBehind, Replies;
    KnowsOld();
    LateReplyDropped(Knows());
    HeldNotTaken();
    DeliverStep(StateAt(11), HeldAck(), true);
    assert Took(StateAt(11), HeldAck()) == StateAt(12);
  }

  lemma HeldNotTaken()
    ensures NotBehind(Knows(), HeldAck())
  {
    hide Grown;
  }

  lemma RestartTaken()
    ensures Next(StateAt(5), StepAt(5), StateAt(6), true)
  {
    hide Next, RegAfterBeat, Grown, FirstAck, HeldAck, Knows;
    RestartStep(StateAt(5), 2, true);
    assert RegsAt(5)[2 := NEW_REG] == RegsAt(6);
  }

  lemma StepTaken(i: nat)
    requires i < 12
    ensures Next(StateAt(i), StepAt(i), StateAt(i + 1), true)
  {
    hide Next, StateAt, StepAt;
    if i < 2 || 6 <= i < 9 { HelloTaken(i); }
    else if i == 2 { FirstComposed(); }
    else if i == 3 { FirstArrives(); }
    else if i == 4 { FirstTaken(); }
    else if i == 5 { RestartTaken(); }
    else if i == 9 { HeldComposed(); }
    else if i == 10 { HeldArrives(); }
    else { HeldTaken(); }
  }

  lemma LiveThroughout(i: nat)
    ensures StateAt(i).live in StateAt(i).regs
  {
    hide RegOf, Old, New, FirstAck, HeldAck, Knows;
  }

  lemma Starts()
    ensures Init(StateAt(0))
  {
    hide Old, New, FirstAck, HeldAck, Knows;
  }

  ghost predicate Script(states: seq<System>, steps: seq<Step>) {
    && |states| == 13 && (forall i | 0 <= i < 13 :: states[i] == StateAt(i))
    && |steps| == 12 && (forall i | 0 <= i < 12 :: steps[i] == StepAt(i))
  }

  lemma Scripted() returns (states: seq<System>, steps: seq<Step>)
    ensures Script(states, steps) && IsRun(states, steps, true)
  {
    hide Next, StateAt, StepAt;
    states, steps := seq(13, (i: nat) => StateAt(i)), seq(12, (i: nat) => StepAt(i));
    forall i | 0 <= i < 12
      ensures states[i].live in states[i].regs && Next(states[i], steps[i], states[i + 1], true)
    {
      LiveThroughout(i);
      StepTaken(i);
    }
    Starts();
    IsRunOf(states, steps, true);
  }

  lemma Delivers(i: nat)
    requires i < 12
    ensures StepAt(i).Deliver? <==> i == 4 || i == 11
    ensures i == 4 ==> StepAt(i) == Deliver(FirstAck()) && StepAt(2) == Compose(FirstAck().sent)
    ensures i == 11 ==> StepAt(i) == Deliver(HeldAck()) && StepAt(9) == Compose(HeldAck().sent)
  {
    hide Mine, Hello, FullDelta, LateDelta;
  }

  lemma OneAtATime(states: seq<System>, steps: seq<Step>)
    requires Script(states, steps)
    ensures Serial(steps) && steps[11] == Deliver(HeldAck()) && ComposedAt(steps, 9, 11)
  {
    hide StepAt, StateAt, FirstAck, HeldAck;
    forall i | 0 <= i < 12
      ensures steps[i].Deliver? <==> i == 4 || i == 11
    {
      Delivers(i);
    }
    Delivers(4);
    Delivers(11);
    assert ComposedAt(steps, 2, 4) && ComposedAt(steps, 9, 11);
    forall j | 0 <= j < 12 && steps[j].Deliver? ensures AnswersLatest(steps, j) { assert j == 4 || j == 11; }
  }

  lemma QuietAt(i: nat)
    requires 9 <= i < 13
    ensures StateAt(i).live == 2 && Exists(StateAt(i), P) && StateAt(i).regs[2].book[P] == Grown(3)
  {
    hide Grown, FirstAck, HeldAck, Knows, Old, New, Replies, RegAfterBeat, SentAt, AcksAt, ClientAt;
    HeldAnswered();
  }

  lemma QuietFromNine(states: seq<System>, steps: seq<Step>)
    requires Script(states, steps)
    ensures Still(states, 9, P)
    ensures states[12].live in states[12].regs && Exists(states[12], P)
    ensures states[12].regs[states[12].live].book[P] == Grown(3)
  {
    hide StateAt, StepAt, Grown;
    forall i | 9 <= i < 13
      ensures states[i].live == 2 && Exists(states[i], P) && states[i].regs[2].book[P] == Grown(3)
    {
      QuietAt(i);
    }
  }

  lemma Emptied(states: seq<System>, steps: seq<Step>)
    requires Script(states, steps)
    ensures states[12].client == ClientState(map[], 2, true, false) && states[5].client == Knows()
  {
    hide RegsAt, SentAt, AcksAt, Knows, StepAt;
  }

  /** An accepted answer to a beat composed since the registry became quiet, one beat out at
      a time, that leaves the pool other than the registry has it. */
  ghost predicate FallsShort(states: seq<System>, steps: seq<Step>, from: nat, k: nat, b: nat, n: Name) {
    && IsRun(states, steps, true) && Serial(steps) && Still(states, from, n)
    && from <= k < b < |steps| && steps[b].Deliver? && ComposedAt(steps, k, b)
    && steps[b].flight.ack.accepted && n in steps[b].flight.sent.beat.watch
    && !UpToDate(states[b + 1], n)
  }

  /** One answer is not always enough: after a restart it can be incremental against the old
      process's numbering, and the client rightly drops it. */
  lemma OneDeliveryCanFallShort()
    ensures exists states, steps, from, k, b :: FallsShort(states, steps, from, k, b, P)
  {
    hide IsRun, Serial, Still, ComposedAt, Next, StateAt, StepAt, LateDelta;
    var states, steps := Scripted();
    OneAtATime(states, steps);
    QuietFromNine(states, steps);
    Emptied(states, steps);
    assert FallsShort(states, steps, 9, 9, 11, P);
  }

  /** A round frozen at state i counts as valid at state j, where the registry seats others. */
  ghost predicate Outlives(states: seq<System>, steps: seq<Step>, i: nat, j: nat, n: Name) {
    && IsRun(states, steps, true) && i < j < |states| && n in states[i].client.cache
    && Epochs.StatusOf(states[i].client, n, Some(2), false) == Epochs.Ready
    && Epochs.EpochValid(states[j].client, n, states[i].client.cache[n].roster)
    && Exists(states[j], n)
    && Occupants(RollOf(states[j].regs[states[j].live].book[n])) != Occupants(states[i].client.cache[n].roll)
  }

  /** A round can outlive its occupants. The client freezes a round of two; the registry is
      restarted and its answer empties the cache; with nothing cached the round still counts
      as valid, although the registry now seats three. */
  lemma EmptiedCacheKeepsRound()
    ensures exists states, steps, i, j :: Outlives(states, steps, i, j, P)
  {
    hide IsRun, Next, StateAt, StepAt, Grown, Epochs.StatusOf;
    var states, steps := Scripted();
    QuietFromNine(states, steps);
    Emptied(states, steps);
    RoundOfTwo();
    GrownRoll(3);
    OneMoreOccupant();
    assert Outlives(states, steps, 5, 12, P);
  }

  lemma OneMoreOccupant()
    ensures Occupants(FirstN(3)) != Occupants(FirstN(2))
  {
    assert OccupantOf(FirstN(3)[3]) in Occupants(FirstN(3));
    assert forall k | k in FirstN(2) :: OccupantOf(FirstN(2)[k]).id == k;
  }

  lemma RoundOfTwo()
    ensures P in Knows().cache && Knows().cache[P].roll == FirstN(2)
    ensures Epochs.StatusOf(Knows(), P, Some(2), false) == Epochs.Ready
  {
    hide Grown, Fingerprint, CachedPools.ListOf;
    GrownRoster(2);
    var roll := FirstN(2);
    assert Epochs.ReadyOnly(roll) == roll;
    Epochs.ListedOccupants(roll);
    Epochs.ListedCount(roll, {1, 2});
  }
}
