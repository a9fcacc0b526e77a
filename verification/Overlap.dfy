/** Why one beat at a time. `leave` sends its goodbye beside the loop's held beat. If the
    registry restarts between the composing and the answering of the two, the goodbye's
    answer empties the cache and the held one, incremental against the old numbering, is
    then taken as if it were against the new. */
module Overlap {
  import opened Protocol
  import opened PoolModel
  import opened Registries
  import opened Histories
  import opened Replicas
  import opened Systems
  import opened Convergence
  import opened Scenario

  const GOODBYE: Sent := Sent(Mine(map[P := 2], 0, true), 3, 0)

  function ByeAck(): Flight { Flight(GOODBYE, Reply(2, LateDelta(2, 3))) }

  /** The second process once the client has gone. */
  function Left(): Reg { RegAfterBeat(New(), GOODBYE.beat, 0, TTL) }

  lemma ByeAnswered()
    ensures Replies(New().book, GOODBYE.beat, 0, TTL, 2, ByeAck().ack)
    ensures P in Left().book && Left().book[P] == Grown(3)
  {
    hide Grown, OnBeat, IsDelta, Cursor, Accepts, RegAfterBeat, Replies, LateDelta;
    LateDeltaIsDelta(2, 3);
    MineAccepted(map[P := 2], 50);
    HeldAnswered();
    MineAnswered(New(), 3, GOODBYE.beat, 2, LateDelta(2, 3));
  }

  /** The held answer, taken by a cache that has just been emptied. */
  function Mixed(): ClientState { Holding(2, 3, Grown(3).roster, map[3 := Newcomer(3)]) }

  lemma LateReplyTaken()
    ensures Applied(ClientState(map[], 2, true, false), HeldAck().ack) == Mixed()
  {
    hide Grown;
    var c, d := ClientState(map[], 2, true, false), LateDelta(2, 3);
    assert d.changed == [Newcomer(3)];
    assert Patched(map[], d) == map[3 := Newcomer(3)];
    assert Merged(c.cache, false, map[P := d]) == map[P := Updated(FRESH_REPLICA, d)];
  }

  // --------------------------------------------------------------------- the run

  function StepAt(i: nat): Step {
    if i == 0 then Stranger(Hello(1), 0)
    else if i == 1 then Stranger(Hello(2), 0)
    else if i == 2 then Compose(FIRST)
    else if i == 3 then Arrive(FIRST, 0, FirstAck().ack)
    else if i == 4 then Deliver(FirstAck())
    else if i == 5 then Compose(HELD)
    else if i == 6 then Compose(GOODBYE)
    else if i == 7 then Restart(2)
    else if i < 11 then Stranger(Hello(i - 7), 0)
    else if i == 11 then Arrive(HELD, 0, HeldAck().ack)
    else if i == 12 then Arrive(GOODBYE, 0, ByeAck().ack)
    else if i == 13 then Deliver(ByeAck())
    else Deliver(HeldAck())
  }

  function RegsAt(i: nat): map<nat, Reg> {
    var elder := if i < 2 then RegOf(i) else if i < 4 then RegOf(2) else Old();
    if i < 8 then map[1 := elder]
    else map[1 := elder, 2 := if i < 12 then RegOf(i - 8) else if i == 12 then New() else Left()]
  }

  function SentAt(i: nat): set<Sent> {
    if i < 3 then {} else if i < 6 then {FIRST} else if i == 6 then {FIRST, HELD} else {FIRST, HELD, GOODBYE}
  }

  function AcksAt(i: nat): set<Flight> {
    if i < 4 then {} else if i < 12 then {FirstAck()}
    else if i == 12 then {FirstAck(), HeldAck()} else {FirstAck(), HeldAck(), ByeAck()}
  }

  function ClientAt(i: nat): ClientState {
    if i < 5 then NEW_CLIENT else if i < 14 then Knows() else if i == 14 then ClientState(map[], 2, true, false) else Mixed()
  }

  function StateAt(i: nat): System {
    System(TTL, RegsAt(i), if i < 8 then 1 else 2, SentAt(i), AcksAt(i), ClientAt(i), 0, if i < 14 then 0 else 1)
  }

  lemma HelloTaken(i: nat)
    requires i < 2 || 8 <= i < 11
    ensures Next(StateAt(i), StepAt(i), StateAt(i + 1), false)
  {
    hide Next, RegAfterBeat, RegOf, Old, New, Left, FirstAck, HeldAck, ByeAck, Knows, Mixed;
    var s, v := StateAt(i), if i < 2 then i else i - 8;
    HelloMovesOn(v);
    StrangerStep(s, Hello(v + 1), 0, false);
    assert s.regs[s.live := RegOf(v + 1)] == RegsAt(i + 1);
  }

  lemma FirstComposed()
    ensures Next(StateAt(2), StepAt(2), StateAt(3), false)
  {
    hide Next, RegAfterBeat, RegOf, Old, New, Left, Knows, Mixed, Grown, FullDelta, LateDelta, Applied, Replies;
    FirstAnswered();
    ComposeStep(StateAt(2), FIRST, false);
    assert SentAt(2) + {FIRST} == SentAt(3);
  }

  lemma HeldComposed()
    ensures Next(StateAt(5), StepAt(5), StateAt(6), false)
  {
    hide Next, RegAfterBeat, RegOf, Old, New, Left, Knows, Mixed, Grown, FullDelta, LateDelta, Applied, Replies;
    FirstAnswered();
    ComposeStep(StateAt(5), HELD, false);
    assert SentAt(5) + {HELD} == SentAt(6);
  }

  lemma ByeComposed()
    ensures Next(StateAt(6), StepAt(6), StateAt(7), false)
  {
    hide Next, RegAfterBeat, RegOf, Old, New, Left, Knows, Mixed, Grown, FullDelta, LateDelta, Applied, Replies;
    FirstAnswered();
    ComposeStep(StateAt(6), GOODBYE, false);
    assert SentAt(6) + {GOODBYE} == SentAt(7);
  }

  lemma FirstArrives()
    ensures Next(StateAt(3), StepAt(3), StateAt(4), false)
  {
    hide Next, RegAfterBeat, RegOf, Knows, Mixed, Grown, Replies, FullDelta, LateDelta, Mine, Applied;
    FirstAnswered();
    ArriveStep(StateAt(3), FIRST, 0, FirstAck().ack, false);
    assert AcksAt(3) + {FirstAck()} == AcksAt(4);
    assert RegsAt(3)[1 := Old()] == RegsAt(4);
  }

  lemma HeldArrives()
    ensures Next(StateAt(11), StepAt(11), StateAt(12), false)
  {
    hide Next, RegAfterBeat, RegOf, Knows, Mixed, Grown, Replies, FullDelta, LateDelta, Mine, Applied;
    HeldAnswered();
    ArriveStep(StateAt(11), HELD, 0, HeldAck().ack, false);
    assert AcksAt(11) + {HeldAck()} == AcksAt(12);
    assert RegsAt(11)[2 := New()] == RegsAt(12);
  }

  lemma ByeArrives()
    ensures Next(StateAt(12), StepAt(12), StateAt(13), false)
  {
    hide Next, RegAfterBeat, RegOf, Knows, Mixed, Grown, Replies, FullDelta, LateDelta, Mine, Applied;
    ByeAnswered();
    ArriveStep(StateAt(12), GOODBYE, 0, ByeAck().ack, false);
    assert AcksAt(12) + {ByeAck()} == AcksAt(13);
    assert RegsAt(12)[2 := Left()] == RegsAt(13);
  }

  lemma FirstTaken()
    ensures Next(StateAt(4), StepAt(4), StateAt(5), false)
  {
    hide Next, RegAfterBeat, RegOf, Old, New, Left, Knows, Mixed, Grown, Applied, FullDelta, LateDelta, NotBehind, Replies;
    FirstAnswered();
    DeliverStep(StateAt(4), FirstAck(), false);
    assert Took(StateAt(4), FirstAck()) == StateAt(5);
  }

  lemma ByeTaken()
    ensures Next(StateAt(13), StepAt(13), StateAt(14), false)
  {
    hide Next, RegAfterBeat, RegOf, Old, New, Left, Knows, Mixed, Grown, Applied, FullDelta, LateDelta, NotBehind, Replies;
    KnowsOld();
    LateReplyDropped(Knows());
    DeliverStep(StateAt(13), ByeAck(), false);
    assert Took(StateAt(13), ByeAck()) == StateAt(14);
  }

  lemma HeldTaken()
    ensures Next(StateAt(14), StepAt(14), StateAt(15), false)
  {
    hide Next, RegAfterBeat, RegOf, Old, New, Left, Knows, Mixed, Grown, Applied, FullDelta, LateDelta, NotBehind, Replies;
    LateReplyTaken();
    DeliverStep(StateAt(14), HeldAck(), false);
    assert Took(StateAt(14), HeldAck()) == StateAt(15);
  }

  lemma RestartTaken()
    ensures Next(StateAt(7), StepAt(7), StateAt(8), false)
  {
    hide Next, RegAfterBeat, Grown, FirstAck, HeldAck, ByeAck, Knows, Mixed;
    RestartStep(StateAt(7), 2, false);
    assert RegsAt(7)[2 := NEW_REG] == RegsAt(8);
  }

  lemma StepTaken(i: nat)
    requires i < 15
    ensures Next(StateAt(i), StepAt(i), StateAt(i + 1), false)
  {
    hide Next, StateAt, StepAt;
    if i < 2 || 8 <= i < 11 { HelloTaken(i); }
    else if i < 7 { BeforeRestart(i); }
    else if i == 7 { RestartTaken(); }
    else { AfterRestart(i); }
  }

  lemma BeforeRestart(i: nat)
    requires 2 <= i < 7
    ensures Next(StateAt(i), StepAt(i), StateAt(i + 1), false)
  {
    hide Next, StateAt, StepAt;
    if i == 2 { FirstComposed(); }
    else if i == 3 { FirstArrives(); }
    else if i == 4 { FirstTaken(); }
    else if i == 5 { HeldComposed(); }
    else { ByeComposed(); }
  }

  lemma AfterRestart(i: nat)
    requires 11 <= i < 15
    ensures Next(StateAt(i), StepAt(i), StateAt(i + 1), false)
  {
    hide Next, StateAt, StepAt;
    if i == 11 { HeldArrives(); }
    else if i == 12 { ByeArrives(); }
    else if i == 13 { ByeTaken(); }
    else { HeldTaken(); }
  }

  lemma LiveThroughout(i: nat)
    ensures StateAt(i).live in StateAt(i).regs
  {
    hide RegOf, Old, New, Left, FirstAck, HeldAck, ByeAck, Knows, Mixed;
  }

  lemma Starts()
    ensures Init(StateAt(0))
  {
    hide Old, New, Left, FirstAck, HeldAck, ByeAck, Knows, Mixed;
  }

  /** A run that ends with the cache at the registry's very version and fingerprint and
      members 1 and 2 missing from it: without the guard replica agreement is false once
      beats overlap across a restart. */
  lemma OverlappingBeatsCanMixEpochs()
    ensures exists states: seq<System>, steps: seq<Step> ::
              && IsRun(states, steps, false)
              && var s := states[|steps|];
                 && Exists(s, P) && P in s.client.cache && s.client.seenEpoch == s.live
                 && s.client.cache[P].version == VersionOf(s, P)
                 && s.client.cache[P].roster == s.regs[s.live].book[P].roster
                 && s.client.cache[P].roll != RollOf(s.regs[s.live].book[P])
  {
    hide Next, IsRun, RegAfterBeat, RegOf, Grown, FirstAck, HeldAck, ByeAck, Replies, New, Old, Left;
    var states, steps := seq(16, (i: nat) => StateAt(i)), seq(15, (i: nat) => StepAt(i));
    forall i | 0 <= i < 15
      ensures states[i].live in states[i].regs && Next(states[i], steps[i], states[i + 1], false)
    {
      LiveThroughout(i);
      StepTaken(i);
    }
    Starts();
    IsRunOf(states, steps, false);
    ByeAnswered();
    GrownRoll(3);
    assert states[15] == StateAt(15) && 1 in FirstN(3);
  }
}
