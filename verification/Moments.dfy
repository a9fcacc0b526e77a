/** Every cached pool is one moment of its registry's pool: not only who was there, but the
    size and the methods the pool had then. */
module Moments {
  import opened Basics
  import opened Protocol
  import opened PoolModel
  import opened Registries
  import opened Histories
  import opened Replicas
  import opened Systems
  import opened Agreement
  import PoolRuns
  import Shapes

  /** In this state the live process is this one, and its pool has that version and shape. */
  predicate Cut(s: System, epoch: nat, n: Name, version: nat, methods: seq<string>, size: Option<nat>) {
    && s.live == epoch && epoch in s.regs && n in s.regs[epoch].book
    && var p := s.regs[epoch].book[n];
       p.version == version && p.methods == methods && p.size == size
  }

  lemma ToldIsCut(s: System, b: Beat, answers: map<Name, PoolDelta>, n: Name)
    requires s.live in s.regs && n in answers && Tells(s.regs[s.live].book, b, NameSet(b.watch), answers)
    ensures Cut(s, s.live, n, answers[n].version, answers[n].methods, answers[n].size)
  {
    hide Reports, ReportsAll;
    assert n in NameSet(b.watch) * s.regs[s.live].book.Keys;
    assert Answers(s.regs[s.live].book[n], SeenAt(b, n), Some(answers[n]));
  }

  /** An answer that was not there a step ago is cut in the state it first appears in. */
  lemma NewIsCut(s: System, step: Step, t: System, f: Flight, n: Name)
    requires s.live in s.regs && Next(s, step, t, false) && f in t.acks && f !in s.acks && n in f.ack.pools
    requires forall g | g in s.acks :: g.sent in s.sent
    ensures f.sent in t.sent && Cut(t, f.ack.epoch, n, f.ack.pools[n].version, f.ack.pools[n].methods, f.ack.pools[n].size)
  {
    hide Tells, RegAfterPark, RegAfterSweep, OnBeat, Admissible, Accepts, Misshapen, After, Took, Cut;
    match step {
      case Arrive(x, now, ack) => ToldIsCut(t, x.beat, ack.pools, n);
      case Release(h, answers) => ToldIsCut(t, h.sent.beat, answers, n);
      case Deliver(g) => TookKeepsAcks(s, g);
      case _ =>
    }
  }

  lemma TookKeepsAcks(s: System, f: Flight)
    ensures Took(s, f).acks == s.acks && Took(s, f).regs == s.regs && Took(s, f).live == s.live && Took(s, f).sent == s.sent
  {
  }

  lemma StepKeepsSent(s: System, step: Step, t: System)
    requires s.live in s.regs && Next(s, step, t, false)
    ensures s.sent <= t.sent && s.acks <= t.acks
    ensures (forall g | g in s.acks :: g.sent in s.sent) ==> forall g | g in t.acks :: g.sent in t.sent
  {
    hide Tells, RegAfterBeat, RegAfterPark, RegAfterSweep, Replies, Took;
    if step.Deliver? { TookKeepsAcks(s, step.flight); }
  }

  lemma {:induction false} SentBefore(states: seq<System>, steps: seq<Step>, i: nat)
    requires IsRun(states, steps, false) && i < |states|
    ensures forall g | g in states[i].acks :: g.sent in states[i].sent
  {
    hide Next;
    if i > 0 {
      SentBefore(states, steps, i - 1);
      StepKeepsSent(states[i - 1], steps[i - 1], states[i]);
    }
  }

  /** Every delta in flight says what the pool was at one moment after its beat was sent. */
  lemma {:induction false} FlightIsCut(states: seq<System>, steps: seq<Step>, i: nat, f: Flight, n: Name) returns (m: nat)
    requires IsRun(states, steps, false) && i < |states| && f in states[i].acks && n in f.ack.pools
    ensures m <= i && f.sent in states[m].sent
    ensures Cut(states[m], f.ack.epoch, n, f.ack.pools[n].version, f.ack.pools[n].methods, f.ack.pools[n].size)
  {
    hide Next, Cut;
    if f in states[i - 1].acks {
      m := FlightIsCut(states, steps, i - 1, f, n);
    } else {
      m := i;
      SentBefore(states, steps, i - 1);
      NewIsCut(states[i - 1], steps[i - 1], states[i], f, n);
    }
  }

  /** What taking an acknowledgement leaves of one pool: what was cached, or what came. */
  lemma TakenOrKept(c: ClientState, ack: BeatAck, n: Name)
    requires n in Applied(c, ack).cache
    ensures var t := Applied(c, ack).cache[n];
            || (n in ack.pools && t.version == ack.pools[n].version && t.methods == ack.pools[n].methods &&
                t.size == ack.pools[n].size)
            || (n in c.cache && !Restarted(c, ack) && t == c.cache[n])
  {
  }

  lemma TakenEpoch(c: ClientState, ack: BeatAck)
    ensures Applied(c, ack).seenEpoch == ack.epoch
  {
    hide Merged;
  }

  lemma KeptEpoch(c: ClientState, ack: BeatAck)
    requires !Restarted(c, ack) && c.seenEpoch != 0
    ensures ack.epoch == c.seenEpoch
  {
  }

  lemma {:induction false} CachedKnowsEpoch(states: seq<System>, steps: seq<Step>, i: nat)
    requires IsRun(states, steps, false) && i < |states|
    ensures states[i].client.cache != map[] ==> states[i].client.seenEpoch != 0
    ensures forall f | f in states[i].acks :: f.ack.epoch != 0
    ensures states[i].live != 0 && 0 !in states[i].regs
  {
    hide Next, Applied;
    if i > 0 {
      CachedKnowsEpoch(states, steps, i - 1);
      EpochsStep(states[i - 1], steps[i - 1], states[i]);
      OnlyDeliveryTouchesClient(states[i - 1], steps[i - 1], states[i]);
      if steps[i - 1].Deliver? { TakenEpoch(states[i - 1].client, steps[i - 1].flight.ack); }
    }
  }

  lemma EpochsStep(s: System, step: Step, t: System)
    requires s.live in s.regs && Next(s, step, t, false) && s.live != 0 && 0 !in s.regs
    requires forall f | f in s.acks :: f.ack.epoch != 0
    ensures t.live != 0 && 0 !in t.regs && forall f | f in t.acks :: f.ack.epoch != 0
  {
    hide Tells, RegAfterBeat, RegAfterPark, RegAfterSweep, Took, Accepts, Admissible, Misshapen;
    if step.Deliver? { TookKeepsAcks(s, step.flight); }
  }

  /** Every cached pool has the version, the size and the methods its registry's pool had at
      one moment, and had together, whatever was lost, repeated or overtaken. */
  lemma {:induction false} CacheIsCut(states: seq<System>, steps: seq<Step>, i: nat, n: Name) returns (m: nat)
    requires IsRun(states, steps, false) && i < |states| && n in states[i].client.cache
    ensures m <= i
    ensures var c := states[i].client.cache[n];
            Cut(states[m], states[i].client.seenEpoch, n, c.version, c.methods, c.size)
  {
    hide Next, Cut, Applied;
    var s, step, t := states[i - 1], steps[i - 1], states[i];
    OnlyDeliveryTouchesClient(s, step, t);
    if !step.Deliver? {
      m := CacheIsCut(states, steps, i - 1, n);
    } else {
      var ack := step.flight.ack;
      TakenOrKept(s.client, ack, n);
      TakenEpoch(s.client, ack);
      if n in s.client.cache && !Restarted(s.client, ack) && t.client.cache[n] == s.client.cache[n] {
        CachedKnowsEpoch(states, steps, i - 1);
        KeptEpoch(s.client, ack);
        m := CacheIsCut(states, steps, i - 1, n);
      } else {
        m := FlightIsCut(states, steps, i - 1, step.flight, n);
      }
    }
  }

  // ------------------------------------------------------- one version, one shape

  /** What a step does to a pool: versions rise, an unchanged one means nobody came or went,
      and while somebody is in, the shape stands. */
  predicate Proceeds(p: PoolState, q: PoolState) {
    && p.version <= q.version && (q.version == p.version ==> q.members.Keys == p.members.Keys)
    && (p.members != map[] ==> Shapes.SameShape(p, q))
  }

  lemma PoolProceeds(p: PoolState, step: PoolRuns.Step, q: PoolState, ttl: nat)
    requires PoolRuns.Next(p, step, q, ttl)
    ensures Proceeds(p, q)
  {
    hide PoolRuns.Next, Shapes.SameShape;
    Shapes.StepAndVersion(p, step, q, ttl);
    if p.members != map[] { Shapes.OccupiedKeepsShape(p, step, q, ttl); }
  }

  lemma BeatProceeds(r: Reg, b: Beat, now: Time, ttl: nat, n: Name)
    requires n in r.book
    ensures n in RegAfterBeat(r, b, now, ttl).book && Proceeds(r.book[n], RegAfterBeat(r, b, now, ttl).book[n])
  {
    hide OnBeat, Admissible, After;
    if Admissible(b) && b.pool == n {
      PoolProceeds(r.book[n], PoolRuns.Lands(b, now), OnBeat(r.book[n], b, now + ttl), ttl);
    }
  }

  lemma ParkProceeds(r: Reg, watch: seq<Name>, bell: Bell, n: Name)
    requires n in r.book
    ensures n in RegAfterPark(r, watch, bell).book && Proceeds(r.book[n], RegAfterPark(r, watch, bell).book[n])
  {
    hide BookAfterPark;
    ParkedBook(r.book, watch, bell, n);
  }

  lemma StepProceeds(s: System, step: Step, t: System, e: nat, n: Name)
    requires s.live in s.regs && Next(s, step, t, false) && e in s.regs && n in s.regs[e].book
    ensures e in t.regs && n in t.regs[e].book && Proceeds(s.regs[e].book[n], t.regs[e].book[n])
  {
    hide Tells, Replies, RegAfterBeat, RegAfterPark, Swept, AfterSweep, Took, Expired, Lists;
    match step {
      case Stranger(b, now) => if e == s.live { BeatProceeds(s.regs[e], b, now, s.ttl, n); }
      case Arrive(x, now, ack) => if e == s.live { BeatProceeds(s.regs[e], x.beat, now, s.ttl, n); }
      case Sweep(now, alive, orders) =>
        if e == s.live {
          PoolProceeds(s.regs[e].book[n], PoolRuns.Sweep(now, alive, orders[n]), t.regs[e].book[n], s.ttl);
        }
      case ParkBell(watch, bell) => if e == s.live { ParkProceeds(s.regs[e], watch, bell, n); }
      case Deliver(f) => TookKeepsAcks(s, f);
      case _ =>
    }
  }

  /** The same over runs: a pool found twice at one version has the same members' ids, and if
      there are any, the same policy and size, and no methods it had learned are gone. */
  lemma {:induction false} SameVersionSamePool(states: seq<System>, steps: seq<Step>, m: nat, i: nat, e: nat, n: Name)
    requires IsRun(states, steps, false) && m <= i < |states| && e in states[m].regs && n in states[m].regs[e].book
    ensures e in states[i].regs && n in states[i].regs[e].book
    ensures states[m].regs[e].book[n].version <= states[i].regs[e].book[n].version
    ensures states[m].regs[e].book[n].version == states[i].regs[e].book[n].version ==>
              Proceeds(states[m].regs[e].book[n], states[i].regs[e].book[n])
    decreases i
  {
    hide Next;
    if m < i {
      SameVersionSamePool(states, steps, m, i - 1, e, n);
      StepProceeds(states[i - 1], steps[i - 1], states[i], e, n);
    }
  }

  /** What a replica at the pool's own version says of the shape: where anybody is in the
      pool, its size; and its methods, unless the pool had none when the replica was cut. */
  predicate ShapedAs(c: Replica, p: PoolState) {
    p.members != map[] ==> c.size == p.size && (c.methods == p.methods || c.methods == [])
  }

  /** Shape agreement. A cached pool that has reached its registry's version has its size, if
      anyone is in it: whoever waits for a full pool waits for the right number. */
  lemma ShapeAgrees(states: seq<System>, steps: seq<Step>, i: nat, n: Name)
    requires IsRun(states, steps, false) && i < |states| && n in states[i].client.cache
    ensures var e := states[i].client.seenEpoch;
            e in states[i].regs && n in states[i].regs[e].book &&
            var c, p := states[i].client.cache[n], states[i].regs[e].book[n];
            c.version <= p.version && (c.version == p.version ==> ShapedAs(c, p))
  {
    hide Next;
    var m := CacheIsCut(states, steps, i, n);
    SameVersionSamePool(states, steps, m, i, states[i].client.seenEpoch, n);
  }

  // ------------------------------------------------------------- with everyone in it

  lemma StepGrows(s: System, step: Step, t: System, e: nat)
    requires Inv(s) && Next(s, step, t, false) && e in s.regs
    ensures e in t.regs && Grows(s.regs[e], t.regs[e])
  {
    hide Tells, Replies, RegAfterBeat, RegAfterPark, RegAfterSweep, Took, Truthful, Agrees, NotAhead, Grows, Recorded;
    var r := s.regs[s.live];
    if e != s.live || step.Compose? || step.Release? || step.Restart? || step.Deliver? { GrowsAlready(s.regs[e]); }
    match step {
      case Stranger(b, now) => BeatRecorded(r, b, now, s.ttl);
      case Arrive(x, now, ack) => BeatRecorded(r, x.beat, now, s.ttl);
      case Sweep(now, alive, orders) => SweepRecorded(r, now, alive, orders);
      case ParkBell(watch, bell) => ParkRecorded(r, watch, bell);
      case Deliver(f) => TookKeepsAcks(s, f);
      case _ =>
    }
  }

  lemma GrowsAlready(r: Reg)
    requires Recorded(r)
    ensures Grows(r, r)
  {
    hide WellFormed;
  }

  lemma {:induction false} PastGrows(states: seq<System>, steps: seq<Step>, m: nat, i: nat, e: nat, n: Name)
    requires IsRun(states, steps, true) && m <= i < |states| && e in states[m].regs && n in states[m].regs[e].past
    ensures e in states[i].regs && n in states[i].regs[e].past
    ensures Extends(states[m].regs[e].past[n], states[i].regs[e].past[n])
    decreases i
  {
    hide Next, Inv;
    if m < i {
      PastGrows(states, steps, m, i - 1, e, n);
      ReplicaAgreement(states, steps, i - 1);
      Unguarded(states[i - 1], steps[i - 1], states[i]);
      StepGrows(states[i - 1], steps[i - 1], states[i], e);
    }
  }

  lemma RunUnguarded(states: seq<System>, steps: seq<Step>)
    requires IsRun(states, steps, true)
    ensures IsRun(states, steps, false)
  {
    hide Next;
    forall i | 0 <= i < |steps| ensures Next(states[i], steps[i], states[i + 1], false) {
      Unguarded(states[i], steps[i], states[i + 1]);
    }
  }

  /** The replica is the pool, in everything a client is told of it. */
  predicate Pictures(c: Replica, p: PoolState) {
    && c.version == p.version && c.roll == RollOf(p) && c.roster == p.roster
    && c.methods == p.methods && c.size == p.size
  }

  lemma PicturedThen(s: System, t: System, e: nat, n: Name, c: Replica)
    requires Inv(s) && e in s.regs && n in s.regs[e].book && e in t.regs && n in t.regs[e].past
    requires Extends(s.regs[e].past[n], t.regs[e].past[n]) && Mirrors(t.regs[e].past[n], c)
    requires c.version == s.regs[e].book[n].version
    ensures c.roll == RollOf(s.regs[e].book[n]) && c.roster == s.regs[e].book[n].roster
  {
    hide Truthful, Agrees, NotAhead, RosterOf;
    assert Recorded(s.regs[e]) && Chronicles(s.regs[e].past[n], s.regs[e].book[n]);
  }

  /** Replica agreement, in full. In every state of every run in which no incremental delta is
      taken by a cache that is behind it, each cached pool is what one registry process had at
      one moment: members, fingerprint, version, size and methods, all of the same moment. */
  lemma ReplicaIsAMoment(states: seq<System>, steps: seq<Step>, i: nat, n: Name) returns (m: nat)
    requires IsRun(states, steps, true) && i < |states| && n in states[i].client.cache
    ensures m <= i
    ensures var e := states[i].client.seenEpoch;
            states[m].live == e && e in states[m].regs && n in states[m].regs[e].book &&
            Pictures(states[i].client.cache[n], states[m].regs[e].book[n])
  {
    hide Next, Inv, Mirrors, Recorded;
    RunUnguarded(states, steps);
    m := CacheIsCut(states, steps, i, n);
    var e := states[i].client.seenEpoch;
    ReplicaAgreement(states, steps, i);
    ReplicaAgreement(states, steps, m);
    KnownPast(states[m], e, n);
    PastGrows(states, steps, m, i, e, n);
    PicturedThen(states[m], states[i], e, n, states[i].client.cache[n]);
  }

  lemma KnownPast(s: System, e: nat, n: Name)
    requires Inv(s) && e in s.regs && n in s.regs[e].book
    ensures n in s.regs[e].past
  {
    assert Recorded(s.regs[e]);
  }
}
