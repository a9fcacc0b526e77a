/** Every cached pool is exactly what the registry had at that version. */
module Agreement {
  import opened Basics
  import opened Protocol
  import opened PoolModel
  import opened Registries
  import opened Histories
  import opened Replicas
  import opened Systems

  // --------------------------------------------------------- what is in flight

  /** An answer given now retells the history from where the beat said it stood. */
  lemma AnswersTruthful(r: Reg, x: Sent, ack: BeatAck)
    requires Recorded(r) && Tells(r.book, x.beat, NameSet(x.beat.watch), ack.pools)
    ensures Truthful(r, Flight(x, ack))
  {
    hide WellFormed, Chronicles, IsDelta, Recounts;
    forall n | n in ack.pools
      ensures n in r.past
      ensures ack.pools[n].full ==> Recounts(r.past[n], None, ack.pools[n])
      ensures !ack.pools[n].full ==> n in x.beat.seen && Recounts(r.past[n], Some(x.beat.seen[n]), ack.pools[n])
    {
      assert n in NameSet(x.beat.watch) * r.book.Keys;
      var p, seen, d := r.book[n], SeenAt(x.beat, n), ack.pools[n];
      assert Answers(p, seen, Some(d));
      DeltaRecounts(r.past[n], p, Cursor(p, seen), d);
      DeltaKind(p, Cursor(p, seen), d);
    }
  }

  lemma DeltaKind(p: PoolState, since: Option<nat>, d: PoolDelta)
    requires IsDelta(p, since, d)
    ensures d.full <==> since.None?
  {
  }

  lemma TruthfulLater(r: Reg, q: Reg, f: Flight)
    requires Truthful(r, f) && Grows(r, q)
    ensures Truthful(q, f)
  {
    hide Recounts, Extends;
    forall n | n in f.ack.pools
      ensures n in q.past
      ensures f.ack.pools[n].full ==> Recounts(q.past[n], None, f.ack.pools[n])
      ensures !f.ack.pools[n].full ==> n in f.sent.beat.seen && Recounts(q.past[n], Some(f.sent.beat.seen[n]), f.ack.pools[n])
    {
      var since := if f.ack.pools[n].full then None else Some(f.sent.beat.seen[n]);
      RecountsForever(r.past[n], q.past[n], since, f.ack.pools[n]);
    }
  }

  lemma AgreesLater(regs: map<nat, Reg>, e: nat, q: Reg, c: ClientState)
    requires Agrees(regs, c) && e in regs && Grows(regs[e], q)
    ensures Agrees(regs[e := q], c)
  {
    hide RosterOf;
    if c.seenEpoch == e {
      forall n | n in c.cache ensures n in q.past && Mirrors(q.past[n], c.cache[n]) {
        assert Mirrors(regs[e].past[n], c.cache[n]);
        assert Extends(regs[e].past[n], q.past[n]);
      }
    }
  }

  /** Whatever the registry does, if its histories only grow the invariant stays. */
  lemma RegistryMoves(s: System, q: Reg)
    requires Inv(s) && Recorded(q) && Grows(s.regs[s.live], q)
    ensures Inv(WithLive(s, q))
  {
    hide Recorded, Truthful, Agrees, Grows;
    var t := WithLive(s, q);
    forall f | f in t.acks ensures f.ack.epoch in t.regs && Truthful(t.regs[f.ack.epoch], f) {
      if f.ack.epoch == s.live { TruthfulLater(s.regs[s.live], q, f); }
    }
    AgreesLater(s.regs, s.live, q, s.client);
    forall x | x in t.sent ensures NotAhead(t, x) { assert NotAhead(s, x); }
  }

  lemma AckLaunched(s: System, f: Flight)
    requires Inv(s) && f.sent in s.sent && f.ack.epoch in s.regs && Truthful(s.regs[f.ack.epoch], f)
    ensures Inv(s.(acks := s.acks + {f}))
  {
    hide Recorded, Truthful, Agrees;
    var t := s.(acks := s.acks + {f});
    forall x | x in t.sent ensures NotAhead(t, x) { assert NotAhead(s, x); }
  }

  lemma BeatComposed(s: System, x: Sent)
    requires Inv(s) && x.generation == s.generation && x.beat.seen == SeenOf(s.client.cache, x.beat.watch)
    ensures Inv(s.(sent := s.sent + {x}))
  {
    hide Recorded, Truthful, Agrees;
    var t := s.(sent := s.sent + {x});
    forall y | y in t.sent ensures NotAhead(t, y) {
      if y in s.sent { assert NotAhead(s, y); }
    }
  }

  lemma RegistryRestarted(s: System, e: nat)
    requires Inv(s) && e != 0 && e !in s.regs
    ensures Inv(s.(regs := s.regs[e := NEW_REG], live := e))
  {
    hide Truthful;
    var t := s.(regs := s.regs[e := NEW_REG], live := e);
    forall x | x in t.sent ensures NotAhead(t, x) { assert NotAhead(s, x); }
    assert Recorded(NEW_REG);
    assert Agrees(t.regs, t.client);
  }

  // ----------------------------------------------------------- what is applied

  /** Taking a truthful delta keeps a mirror a mirror. */
  lemma DeltaMirrors(h: History, since: Option<nat>, d: PoolDelta, c: Replica)
    requires Continuous(h) && Recounts(h, since, d)
    requires since.Some? ==> Mirrors(h, c) && since.value <= c.version <= d.version
    ensures Mirrors(h, Updated(c, d))
  {
    hide RosterOf, Reports, ReportsAll;
    if since.Some? {
      DeltaLands(h, since, d, c.version);
    } else {
      FullLands(c.roll, h.snaps[d.version], d);
    }
  }

  lemma ContinuousPast(r: Reg, n: Name)
    requires Recorded(r) && n in r.past
    ensures Continuous(r.past[n])
  {
    hide WellFormed;
  }

  lemma DeliveryAgrees(s: System, f: Flight)
    requires Inv(s) && f in s.acks && NotBehind(s.client, f)
    ensures Agrees(s.regs, Applied(s.client, f.ack))
  {
    hide Recorded, Recounts, Mirrors, Continuous, Updated;
    var c, ack, r := s.client, f.ack, s.regs[f.ack.epoch];
    var t := Applied(c, ack);
    var kept := Kept(c, ack);
    assert Truthful(r, f);
    forall n | n in t.cache ensures n in r.past && Mirrors(r.past[n], t.cache[n]) {
      if ack.accepted && n in ack.pools && Takes(kept, Restarted(c, ack), n, ack.pools[n]) {
        var d := ack.pools[n];
        ContinuousPast(r, n);
        if !d.full && n !in kept { FreshMirrors(r, n); }
        DeltaMirrors(r.past[n], if d.full then None else Some(f.sent.beat.seen[n]), d, EntryOf(kept, n));
      } else {
        assert n in kept && t.cache[n] == kept[n];
      }
    }
  }

  /** Before the first version there is nobody. */
  lemma FreshMirrors(r: Reg, n: Name)
    requires Recorded(r) && n in r.past
    ensures Mirrors(r.past[n], FRESH_REPLICA)
  {
    hide WellFormed, Windows;
    assert Occupants(map[]) == {};
  }

  /** Taking an acknowledgement never puts an outstanding beat ahead of the cache. */
  lemma StillNotAhead(s: System, f: Flight, x: Sent)
    requires NotAhead(s, x)
    ensures NotAhead(Took(s, f), x)
  {
    hide Applied;
    var t := Took(s, f);
    if x.generation == t.generation {
      forall n | n in x.beat.seen ensures n in t.client.cache && x.beat.seen[n] <= t.client.cache[n].version {
        NeverGoesBack(s.client, f.ack, n);
      }
    }
  }

  lemma AckDelivered(s: System, f: Flight)
    requires Inv(s) && f in s.acks && NotBehind(s.client, f)
    ensures Inv(Took(s, f))
  {
    hide Recorded, Truthful, Agrees, Applied, NotAhead, NotBehind;
    DeliveryAgrees(s, f);
    forall x | x in s.sent ensures NotAhead(Took(s, f), x) { StillNotAhead(s, f, x); }
  }

  // ----------------------------------------------------------------- every step

  lemma ArrivalKeepsInv(s: System, x: Sent, now: Time, ack: BeatAck)
    requires Inv(s) && x in s.sent && Replies(s.regs[s.live].book, x.beat, now, s.ttl, s.live, ack)
    ensures Inv(WithLive(s, RegAfterBeat(s.regs[s.live], x.beat, now, s.ttl)).(acks := s.acks + {Flight(x, ack)}))
  {
    hide Recorded, Grows, Inv, RegAfterBeat, Tells, Accepts, Admissible, Misshapen;
    InvParts(s);
    var r := s.regs[s.live];
    var q := RegAfterBeat(r, x.beat, now, s.ttl);
    BeatRecorded(r, x.beat, now, s.ttl);
    RegistryMoves(s, q);
    if Admissible(x.beat) && !ack.refused { AnswersTruthful(q, x, ack); }
    AckLaunched(WithLive(s, q), Flight(x, ack));
  }

  lemma InvParts(s: System)
    requires Inv(s)
    ensures s.live in s.regs && Recorded(s.regs[s.live])
  {
  }

  lemma StepKeepsInv(s: System, step: Step, t: System)
    requires Inv(s) && Next(s, step, t, true)
    ensures Inv(t)
  {
    hide Inv, Recorded, Grows, Tells, RegAfterBeat, RegAfterPark, RegAfterSweep, Applied;
    InvParts(s);
    var r := s.regs[s.live];
    match step {
      case Compose(x) => BeatComposed(s, x);
      case Stranger(b, now) =>
        BeatRecorded(r, b, now, s.ttl);
        RegistryMoves(s, RegAfterBeat(r, b, now, s.ttl));
      case Arrive(x, now, ack) => ArrivalKeepsInv(s, x, now, ack);
      case Release(f, answers) => ReleaseKeepsInv(s, f, answers);
      case Sweep(now, alive, orders) =>
        SweepRecorded(r, now, alive, orders);
        RegistryMoves(s, RegAfterSweep(r, now, alive, orders));
      case ParkBell(watch, bell) =>
        ParkRecorded(r, watch, bell);
        RegistryMoves(s, RegAfterPark(r, watch, bell));
      case Restart(e) => RegistryRestarted(s, e);
      case Deliver(f) => AckDelivered(s, f);
    }
  }

  lemma ReleaseKeepsInv(s: System, f: Flight, answers: map<Name, PoolDelta>)
    requires Inv(s) && f in s.acks && f.ack.epoch == s.live
    requires Tells(s.regs[s.live].book, f.sent.beat, NameSet(f.sent.beat.watch), answers)
    ensures Inv(s.(acks := s.acks + {Flight(f.sent, f.ack.(pools := answers))}))
  {
    hide Recorded, Tells;
    var g := Flight(f.sent, f.ack.(pools := answers));
    AnswersTruthful(s.regs[s.live], f.sent, g.ack);
    AckLaunched(s, g);
  }

  lemma InitKeepsInv(s: System)
    requires Init(s)
    ensures Inv(s)
  {
  }

  /** Replica agreement. In every state of every run in which no incremental delta is taken
      by a cache that is behind it, each cached pool holds exactly the members and the
      fingerprint that the registry process it came from had at the cached version. */
  lemma {:induction false} ReplicaAgreement(states: seq<System>, steps: seq<Step>, i: nat)
    requires IsRun(states, steps, true) && i < |states|
    ensures Inv(states[i])
    ensures forall n | n in states[i].client.cache ::
              states[i].client.seenEpoch in states[i].regs &&
              n in states[i].regs[states[i].client.seenEpoch].past &&
              Mirrors(states[i].regs[states[i].client.seenEpoch].past[n], states[i].client.cache[n])
  {
    hide Next, Recorded, Truthful, NotAhead, Mirrors;
    if i == 0 {
      InitKeepsInv(states[0]);
    } else {
      ReplicaAgreement(states, steps, i - 1);
      StepKeepsInv(states[i - 1], steps[i - 1], states[i]);
    }
  }

  lemma Unguarded(s: System, step: Step, t: System)
    requires s.live in s.regs && Next(s, step, t, true)
    ensures Next(s, step, t, false)
  {
    hide RegAfterBeat, RegAfterPark, RegAfterSweep, Tells, Replies, Took, NotBehind;
  }

  lemma OnlyDeliveryTouchesClient(s: System, step: Step, t: System)
    requires s.live in s.regs && Next(s, step, t, false)
    ensures t.client == if step.Deliver? then Applied(s.client, step.flight.ack) else s.client
    ensures step.Deliver? ==> step.flight in s.acks
    ensures step.Compose? ==> step.sent.beat.seen == SeenOf(s.client.cache, step.sent.beat.watch)
  {
    hide RegAfterBeat, RegAfterPark, RegAfterSweep, Tells, Replies, Applied;
  }

  /** While the epoch stays the same, no cached pool disappears or moves backwards. */
  lemma CacheNeverGoesBack(s: System, step: Step, t: System, guarded: bool, n: Name)
    requires s.live in s.regs && Next(s, step, t, guarded) && n in s.client.cache
    requires s.client.seenEpoch != 0 && t.client.seenEpoch == s.client.seenEpoch
    ensures n in t.client.cache && s.client.cache[n].version <= t.client.cache[n].version
  {
    hide RegAfterBeat, RegAfterPark, RegAfterSweep, Tells, Replies;
    if step.Deliver? { NeverGoesBack(s.client, step.flight.ack, n); }
  }

  // ---------------------------------------------------- disciplines that meet the guard

  /** Only answers to beats composed since the cache was last emptied are taken. */
  ghost predicate OfThisGeneration(states: seq<System>, steps: seq<Step>)
    requires |states| == |steps| + 1
  {
    forall j | 0 <= j < |steps| && steps[j].Deliver? :: steps[j].flight.sent.generation == states[j].generation
  }

  /** Since then the cache has only gone forward, so it is not behind them. */
  lemma GenerationNotBehind(s: System, f: Flight)
    requires Inv(s) && f in s.acks && f.sent.generation == s.generation
    ensures NotBehind(s.client, f)
  {
    hide Recorded, Truthful, Agrees;
    assert NotAhead(s, f.sent);
  }

  lemma GuardHolds(s: System, step: Step, t: System)
    requires Inv(s) && Next(s, step, t, false)
    requires step.Deliver? ==> step.flight.sent.generation == s.generation
    ensures Next(s, step, t, true)
  {
    hide Inv, RegAfterBeat, RegAfterPark, RegAfterSweep, Tells, Replies, Took, NotBehind;
    if step.Deliver? { GenerationNotBehind(s, step.flight); }
  }

  lemma {:induction false} InvInGeneration(states: seq<System>, steps: seq<Step>, i: nat)
    requires IsRun(states, steps, false) && OfThisGeneration(states, steps) && i < |states|
    ensures Inv(states[i])
  {
    hide Next, Inv;
    if i == 0 {
      InitKeepsInv(states[0]);
    } else {
      InvInGeneration(states, steps, i - 1);
      GuardHolds(states[i - 1], steps[i - 1], states[i]);
      StepKeepsInv(states[i - 1], steps[i - 1], states[i]);
    }
  }

  lemma InGenerationIsGuarded(states: seq<System>, steps: seq<Step>)
    requires IsRun(states, steps, false) && OfThisGeneration(states, steps)
    ensures IsRun(states, steps, true)
  {
    hide Next, Inv;
    forall j | 0 <= j < |steps| ensures Next(states[j], steps[j], states[j + 1], true) {
      InvInGeneration(states, steps, j);
      GuardHolds(states[j], steps[j], states[j + 1]);
    }
  }

  /** No process but the first has ever answered. */
  ghost predicate OneEpoch(s: System) {
    && s.regs.Keys == {s.live} && s.live != 0 && s.generation == 0
    && (forall x | x in s.sent :: x.generation == 0)
    && (forall f | f in s.acks :: f.sent in s.sent && f.ack.epoch == s.live)
    && (s.client.seenEpoch == 0 || s.client.seenEpoch == s.live)
  }

  lemma StepKeepsOneEpoch(s: System, step: Step, t: System)
    requires OneEpoch(s) && Next(s, step, t, false) && !step.Restart?
    ensures OneEpoch(t) && (step.Deliver? ==> step.flight.sent.generation == s.generation)
  {
    hide RegAfterBeat, RegAfterPark, RegAfterSweep, Tells, Accepts, Misshapen, Admissible, Merged;
  }

  lemma {:induction false} OneEpochThroughout(states: seq<System>, steps: seq<Step>, i: nat)
    requires IsRun(states, steps, false) && i < |states| && forall step | step in steps :: !step.Restart?
    ensures OneEpoch(states[i])
  {
    hide Next, OneEpoch;
    if i == 0 {
      InitIsOneEpoch(states[0]);
    } else {
      OneEpochThroughout(states, steps, i - 1);
      StepKeepsOneEpoch(states[i - 1], steps[i - 1], states[i]);
    }
  }

  lemma InitIsOneEpoch(s: System)
    requires Init(s)
    ensures OneEpoch(s)
  {
  }

  /** As long as the registry is not restarted the guard is idle: acknowledgements
      may come in any order, any number of times, for any number of beats in flight,
      and replica agreement holds of the run. */
  lemma WithoutRestartsEveryRunIsGuarded(states: seq<System>, steps: seq<Step>)
    requires IsRun(states, steps, false) && forall step | step in steps :: !step.Restart?
    ensures IsRun(states, steps, true)
  {
    hide Next, OneEpoch;
    forall i | 0 <= i < |steps| && steps[i].Deliver? ensures steps[i].flight.sent.generation == states[i].generation {
      OneEpochThroughout(states, steps, i);
      StepKeepsOneEpoch(states[i], steps[i], states[i + 1]);
    }
    InGenerationIsGuarded(states, steps);
  }

  /** The beat loop has one request outstanding: the reply it takes answers the beat
      it composed last, and it takes no second one for it. */
  ghost predicate Serial(steps: seq<Step>) {
    forall j | 0 <= j < |steps| && steps[j].Deliver? :: AnswersLatest(steps, j)
  }

  ghost predicate AnswersLatest(steps: seq<Step>, j: nat)
    requires j < |steps| && steps[j].Deliver?
  {
    exists k | 0 <= k < j :: ComposedAt(steps, k, j)
  }

  /** The reply taken at j answers the beat composed at k, and none was taken in between. */
  ghost predicate ComposedAt(steps: seq<Step>, k: nat, j: nat)
    requires k < j < |steps| && steps[j].Deliver?
  {
    steps[k] == Compose(steps[j].flight.sent) && NothingTaken(steps, k, j)
  }

  ghost predicate NothingTaken(steps: seq<Step>, k: nat, j: nat)
    requires k <= j <= |steps|
  {
    forall m | k < m < j :: !steps[m].Deliver?
  }

  lemma OnlyDeliveryAdvances(s: System, step: Step, t: System)
    requires s.live in s.regs && Next(s, step, t, false) && !step.Deliver?
    ensures t.generation == s.generation
  {
    hide RegAfterBeat, RegAfterPark, RegAfterSweep, Tells, Replies;
  }

  lemma {:induction false} GenerationStands(states: seq<System>, steps: seq<Step>, k: nat, j: nat)
    requires IsRun(states, steps, false) && k < j < |states|
    requires steps[k].Compose? && NothingTaken(steps, k, j)
    ensures states[j].generation == steps[k].sent.generation
    decreases j
  {
    hide Next;
    if j == k + 1 {
      ComposeStamps(states[k], steps[k], states[j]);
    } else {
      GenerationStands(states, steps, k, j - 1);
      OnlyDeliveryAdvances(states[j - 1], steps[j - 1], states[j]);
    }
  }

  lemma ComposeStamps(s: System, step: Step, t: System)
    requires s.live in s.regs && Next(s, step, t, false) && step.Compose?
    ensures t.generation == s.generation == step.sent.generation
  {
    hide RegAfterBeat, RegAfterPark, RegAfterSweep, Tells, Replies;
  }

  /** The serial loop meets the guard across any sequence of registry restarts, so
      its cache never mixes two processes' numbering. */
  lemma SerialRunsAreGuarded(states: seq<System>, steps: seq<Step>)
    requires IsRun(states, steps, false) && Serial(steps)
    ensures IsRun(states, steps, true)
  {
    hide Next;
    forall j | 0 <= j < |steps| && steps[j].Deliver? ensures steps[j].flight.sent.generation == states[j].generation {
      assert AnswersLatest(steps, j);
      var k: nat :| k < j && ComposedAt(steps, k, j);
      GenerationStands(states, steps, k, j);
    }
    InGenerationIsGuarded(states, steps);
  }
}
