/** Once the registry is quiet, how soon the cache is what the registry holds. */
module Convergence {
  import opened Basics
  import opened Protocol
  import opened PoolModel
  import opened Registries
  import opened Histories
  import opened Replicas
  import opened Systems
  import opened Agreement
  import opened Moments

  predicate Exists(s: System, n: Name) { s.live in s.regs && n in s.regs[s.live].book }

  function VersionOf(s: System, n: Name): nat
    requires Exists(s, n)
  {
    s.regs[s.live].book[n].version
  }

  /** The cached pool is the registry's pool, its size with it as long as anyone is in. */
  ghost predicate UpToDate(s: System, n: Name) {
    && Exists(s, n) && n in s.client.cache
    && s.client.cache[n].version == VersionOf(s, n)
    && s.client.cache[n].roll == RollOf(s.regs[s.live].book[n])
    && s.client.cache[n].roster == s.regs[s.live].book[n].roster
    && ShapedAs(s.client.cache[n], s.regs[s.live].book[n])
  }

  /** From this state on, the same process answers and the pool stays at one version.
      Beats, sweeps and waits that leave the pool's members alone may go on. */
  ghost predicate Still(states: seq<System>, from: nat, n: Name) {
    forall m | from <= m < |states| ::
      states[m].live == states[from].live && Exists(states[m], n) && Exists(states[from], n) &&
      VersionOf(states[m], n) == VersionOf(states[from], n)
  }

  // ---------------------------------------------------- what an answer can say by then

  /** An accepted answer either leaves the pool out, because the beat stood at version v,
      or brings it to v. */
  predicate SaysVersion(f: Flight, n: Name, v: nat) {
    f.ack.accepted && n in f.sent.beat.watch ==>
      if SeenAt(f.sent.beat, n) == Some(v) then n !in f.ack.pools
      else n in f.ack.pools && f.ack.pools[n].version == v
  }

  lemma TellsSaysVersion(book: Book, f: Flight, n: Name)
    requires Tells(book, f.sent.beat, NameSet(f.sent.beat.watch), f.ack.pools) && n in book
    ensures SaysVersion(f, n, book[n].version)
  {
    hide Reports, ReportsAll;
    if n in f.sent.beat.watch {
      assert n in NameSet(f.sent.beat.watch) * book.Keys;
      var answer := if n in f.ack.pools then Some(f.ack.pools[n]) else None;
      assert Answers(book[n], SeenAt(f.sent.beat, n), answer);
    }
  }

  lemma AcceptedIsTold(book: Book, b: Beat, now: Time, ttl: nat, epoch: nat, ack: BeatAck)
    requires Replies(book, b, now, ttl, epoch, ack) && ack.accepted
    ensures Tells(BookAfterBeat(book, b, now, ttl), b, NameSet(b.watch), ack.pools)
  {
    hide Tells, OnBeat, Superseded;
  }

  ghost predicate AnsweredStill(s: System, x: Sent, n: Name) {
    Exists(s, n) && forall f | f in s.acks && f.sent == x :: f.ack.epoch == s.live && SaysVersion(f, n, VersionOf(s, n))
  }

  /** Answers to a beat sent since then come from this process, at this version, whether
      given at once or held back and released. */
  lemma StepAnswersStill(s: System, step: Step, t: System, x: Sent, n: Name)
    requires s.live in s.regs && Next(s, step, t, false) && AnsweredStill(s, x, n)
    requires t.live == s.live && Exists(t, n) && VersionOf(t, n) == VersionOf(s, n)
    ensures AnsweredStill(t, x, n)
  {
    hide Tells, RegAfterPark, RegAfterSweep, OnBeat, Admissible, Accepts, Misshapen, SaysVersion, Replies, After, Took;
    match step {
      case Arrive(y, now, ack) =>
        if y == x { ArrivalSaysVersion(s, x, now, ack, t, n); }
      case Release(f, answers) =>
        if f.sent == x { TellsSaysVersion(s.regs[s.live].book, Flight(x, f.ack.(pools := answers)), n); }
      case Deliver(f) => TookKeeps(s, f);
      case _ =>
    }
  }

  lemma TookKeeps(s: System, f: Flight)
    ensures Took(s, f).acks == s.acks && Took(s, f).regs == s.regs && Took(s, f).live == s.live && Took(s, f).sent == s.sent
  {
  }

  lemma ArrivalSaysVersion(s: System, x: Sent, now: Time, ack: BeatAck, t: System, n: Name)
    requires s.live in s.regs && Replies(s.regs[s.live].book, x.beat, now, s.ttl, s.live, ack)
    requires Exists(t, n) && t.live == s.live && t.regs[t.live] == RegAfterBeat(s.regs[s.live], x.beat, now, s.ttl)
    ensures ack.epoch == s.live && SaysVersion(Flight(x, ack), n, VersionOf(t, n))
  {
    hide Tells, OnBeat, Admissible, Accepts, Misshapen, After, SaysVersion;
    if ack.accepted {
      AcceptedIsTold(s.regs[s.live].book, x.beat, now, s.ttl, s.live, ack);
      assert t.regs[t.live].book == BookAfterBeat(s.regs[s.live].book, x.beat, now, s.ttl);
      TellsSaysVersion(t.regs[t.live].book, Flight(x, ack), n);
    } else {
      Unaccepted(Flight(x, ack), n, VersionOf(t, n));
    }
  }

  lemma Unaccepted(f: Flight, n: Name, v: nat)
    requires !f.ack.accepted
    ensures SaysVersion(f, n, v)
  {
  }

  lemma ComposedAnew(s: System, x: Sent, t: System)
    requires Inv(s) && Next(s, Compose(x), t, false)
    ensures forall f | f in t.acks :: f.sent != x
  {
    hide Recorded, Truthful, Agrees, NotAhead;
  }

  lemma {:induction false} AnswersStill(states: seq<System>, steps: seq<Step>, from: nat, k: nat, m: nat, n: Name)
    requires IsRun(states, steps, true) && Still(states, from, n) && from <= k < m < |states| && steps[k].Compose?
    ensures AnsweredStill(states[m], steps[k].sent, n)
    decreases m
  {
    hide Next, Inv, AnsweredStill, VersionOf;
    var s, t := states[m - 1], states[m];
    Unguarded(s, steps[m - 1], t);
    ReplicaAgreement(states, steps, m - 1);
    assert s.live == states[from].live && Exists(s, n) && VersionOf(s, n) == VersionOf(states[from], n);
    assert t.live == states[from].live && Exists(t, n) && VersionOf(t, n) == VersionOf(states[from], n);
    if m == k + 1 {
      ComposedAnew(s, steps[k].sent, t);
      NothingAnswered(t, steps[k].sent, n);
    } else {
      AnswersStill(states, steps, from, k, m - 1, n);
      StepAnswersStill(s, steps[m - 1], t, steps[k].sent, n);
    }
  }

  lemma NothingAnswered(s: System, x: Sent, n: Name)
    requires Exists(s, n) && forall f | f in s.acks :: f.sent != x
    ensures AnsweredStill(s, x, n)
  {
  }

  // ------------------------------------------------------------- what the cache becomes

  /** Between composing and taking the reply the client stands still. */
  lemma {:induction false} ClientStands(states: seq<System>, steps: seq<Step>, k: nat, j: nat)
    requires IsRun(states, steps, true) && k < j < |states| && steps[k].Compose? && NothingTaken(steps, k, j)
    ensures states[j].client == states[k].client
    ensures steps[k].sent.beat.seen == SeenOf(states[j].client.cache, steps[k].sent.beat.watch)
    decreases j
  {
    hide Next;
    Unguarded(states[j - 1], steps[j - 1], states[j]);
    OnlyDeliveryTouchesClient(states[j - 1], steps[j - 1], states[j]);
    if k + 1 < j { ClientStands(states, steps, k, j - 1); }
  }

  /** The client has heard from another process before, and the answer does not bring the
      whole pool. */
  predicate FallsShort(c: ClientState, ack: BeatAck, n: Name) {
    Restarted(c, ack) && (n !in ack.pools || !ack.pools[n].full)
  }

  /** Taking an answer at version v leaves the cache at v, unless it falls short: then the
      cache is left without the pool. */
  lemma AnswerReaches(c: ClientState, f: Flight, n: Name, v: nat)
    requires f.ack.accepted && f.sent.beat.seen == SeenOf(c.cache, f.sent.beat.watch)
    requires SaysVersion(f, n, v) && n in f.sent.beat.watch
    requires n in c.cache && !Restarted(c, f.ack) ==> c.cache[n].version <= v
    ensures if FallsShort(c, f.ack, n) then n !in Applied(c, f.ack).cache
            else n in Applied(c, f.ack).cache && Applied(c, f.ack).cache[n].version == v
  {
  }

  lemma CachedBehind(s: System, n: Name)
    requires Inv(s) && s.client.seenEpoch == s.live && n in s.client.cache
    ensures Exists(s, n) && s.client.cache[n].version <= VersionOf(s, n)
  {
    hide WellFormed;
    assert Chronicles(s.regs[s.live].past[n], s.regs[s.live].book[n]);
  }

  /** A mirror at the pool's own version is the pool. */
  lemma MirrorOfNow(s: System, n: Name)
    requires Inv(s) && s.client.seenEpoch == s.live && n in s.client.cache && Exists(s, n)
    requires s.client.cache[n].version == VersionOf(s, n) && ShapedAs(s.client.cache[n], s.regs[s.live].book[n])
    ensures UpToDate(s, n)
  {
    hide RosterOf, Truthful, NotAhead, ShapedAs;
    assert Recorded(s.regs[s.live]) && Mirrors(s.regs[s.live].past[n], s.client.cache[n]);
  }

  /** The cache speaks for the live process, and has reached its version of the pool. */
  ghost predicate Reached(s: System, n: Name) {
    s.client.seenEpoch == s.live && n in s.client.cache && Exists(s, n) && s.client.cache[n].version == VersionOf(s, n)
  }

  /** Whatever is taken later does not undo it. */
  lemma StaysReached(states: seq<System>, steps: seq<Step>, from: nat, j: nat, n: Name)
    requires IsRun(states, steps, true) && Serial(steps) && Still(states, from, n) && from <= j < |steps|
    requires Reached(states[j], n) && (steps[j].Deliver? ==> exists k | from <= k < j :: ComposedAt(steps, k, j))
    ensures Reached(states[j + 1], n)
  {
    hide Next, Inv, AnsweredStill, VersionOf, NothingTaken;
    var s, t := states[j], states[j + 1];
    Unguarded(s, steps[j], t);
    OnlyDeliveryTouchesClient(s, steps[j], t);
    ReplicaAgreement(states, steps, j + 1);
    assert s.live == states[from].live && t.live == states[from].live && Exists(t, n);
    assert VersionOf(t, n) == VersionOf(states[from], n) == VersionOf(s, n);
    if steps[j].Deliver? {
      var k: nat :| from <= k < j && ComposedAt(steps, k, j);
      AnswersStill(states, steps, from, k, j, n);
      FromHere(s, steps[j].flight, n);
      NeverGoesBack(s.client, steps[j].flight.ack, n);
      CachedBehind(t, n);
    }
  }

  lemma FromHere(s: System, f: Flight, n: Name)
    requires AnsweredStill(s, f.sent, n) && f in s.acks
    ensures f.ack.epoch == s.live && Applied(s.client, f.ack).seenEpoch == s.live && SaysVersion(f, n, VersionOf(s, n))
  {
    hide Merged;
  }

  lemma Answering(steps: seq<Step>, k: nat, j: nat)
    requires k < j < |steps| && steps[j].Deliver? && ComposedAt(steps, k, j)
    ensures steps[k] == Compose(steps[j].flight.sent)
  {
  }

  /** In a serial run, whatever is taken after j was composed after j. */
  lemma TakenLater(steps: seq<Step>, j: nat, m: nat)
    requires Serial(steps) && j < m < |steps| && steps[j].Deliver? && steps[m].Deliver?
    ensures exists k | j < k < m :: ComposedAt(steps, k, m)
  {
    assert AnswersLatest(steps, m);
    var k: nat :| k < m && ComposedAt(steps, k, m);
    assert steps[k].Compose?;
  }

  lemma {:induction false} ReachedThroughout(states: seq<System>, steps: seq<Step>, from: nat, b: nat, j: nat, n: Name)
    requires IsRun(states, steps, true) && Serial(steps) && Still(states, from, n) && from <= b < j < |states|
    requires steps[b].Deliver? && Reached(states[b + 1], n)
    ensures Reached(states[j], n)
    decreases j
  {
    hide Next, Serial, Reached, ComposedAt;
    if b + 1 < j {
      ReachedThroughout(states, steps, from, b, j - 1, n);
      if steps[j - 1].Deliver? { TakenLater(steps, b, j - 1); }
      StaysReached(states, steps, from, j - 1, n);
    }
  }

  /** What the delivery of an answer to a beat composed since then does. */
  lemma DeliveryReaches(states: seq<System>, steps: seq<Step>, from: nat, k: nat, b: nat, n: Name)
    requires IsRun(states, steps, true) && Still(states, from, n)
    requires from <= k < b < |steps| && steps[b].Deliver? && ComposedAt(steps, k, b)
    requires steps[b].flight.ack.accepted && n in steps[b].flight.sent.beat.watch
    ensures if FallsShort(states[b].client, steps[b].flight.ack, n) then n !in states[b + 1].client.cache
            else Reached(states[b + 1], n)
  {
    hide Next, Inv, AnsweredStill, VersionOf, SaysVersion, FallsShort;
    var s, t, f := states[b], states[b + 1], steps[b].flight;
    Unguarded(s, steps[b], t);
    OnlyDeliveryTouchesClient(s, steps[b], t);
    ClientStands(states, steps, k, b);
    AnswersStill(states, steps, from, k, b, n);
    FromHere(s, f, n);
    assert s.live == states[from].live && t.live == states[from].live && Exists(t, n);
    assert VersionOf(s, n) == VersionOf(states[from], n) == VersionOf(t, n);
    ReplicaAgreement(states, steps, b);
    if n in s.client.cache && !Restarted(s.client, f.ack) { SeenSomething(s, n); CachedBehind(s, n); }
    AnswerReaches(s.client, f, n, VersionOf(s, n));
  }

  /** Convergence. In a serial run, once the registry has become quiet, an accepted answer to
      a beat composed since then makes a watched pool exactly the registry's, unless it falls
      short; and the pool stays so. Replies may be lost and beats go unanswered before it,
      and the answer may have been held. */
  lemma OneDeliveryCatchesUp(states: seq<System>, steps: seq<Step>, from: nat, k: nat, b: nat, j: nat, n: Name)
    requires IsRun(states, steps, false) && Serial(steps) && Still(states, from, n)
    requires from <= k < b < j < |states| && steps[b].Deliver? && ComposedAt(steps, k, b)
    requires steps[b].flight.ack.accepted && n in steps[b].flight.sent.beat.watch
    ensures UpToDate(states[b + 1], n) <==> !FallsShort(states[b].client, steps[b].flight.ack, n)
    ensures !FallsShort(states[b].client, steps[b].flight.ack, n) ==> UpToDate(states[j], n)
  {
    hide Next, Inv, Serial, ComposedAt, FallsShort, ShapedAs;
    SerialRunsAreGuarded(states, steps);
    DeliveryReaches(states, steps, from, k, b, n);
    if !FallsShort(states[b].client, steps[b].flight.ack, n) {
      ReachedThroughout(states, steps, from, b, j, n);
      ReplicaAgreement(states, steps, b + 1);
      ShapeAgrees(states, steps, b + 1, n);
      MirrorOfNow(states[b + 1], n);
      ReplicaAgreement(states, steps, j);
      ShapeAgrees(states, steps, j, n);
      MirrorOfNow(states[j], n);
    }
  }

  lemma SeenSomething(s: System, n: Name)
    requires Inv(s) && n in s.client.cache
    ensures s.client.seenEpoch != 0
  {
  }

  /** Whatever the cache came from, the second such answer does it: the first tells the
      client which process it is talking to. */
  lemma TwoDeliveriesCatchUp(states: seq<System>, steps: seq<Step>, from: nat, a: nat, b: nat, j: nat, n: Name)
    requires IsRun(states, steps, false) && Serial(steps) && Still(states, from, n)
    requires from <= a < b < j < |states| && steps[a].Deliver? && steps[b].Deliver?
    requires exists k | from <= k < a :: ComposedAt(steps, k, a)
    requires steps[b].flight.ack.accepted && n in steps[b].flight.sent.beat.watch
    ensures UpToDate(states[j], n)
  {
    hide Next, Serial, ComposedAt, AnsweredStill, UpToDate;
    SerialRunsAreGuarded(states, steps);
    TakenLater(steps, a, b);
    var k: nat :| a < k < b && ComposedAt(steps, k, b);
    SpeaksHere(states, steps, from, a, b, n);
    Answering(steps, k, b);
    AnswersStill(states, steps, from, k, b, n);
    Unguarded(states[b], steps[b], states[b + 1]);
    OnlyDeliveryTouchesClient(states[b], steps[b], states[b + 1]);
    FromHere(states[b], steps[b].flight, n);
    OneDeliveryCatchesUp(states, steps, from, k, b, j, n);
  }

  lemma {:induction false} SpeaksHere(states: seq<System>, steps: seq<Step>, from: nat, a: nat, j: nat, n: Name)
    requires IsRun(states, steps, true) && Serial(steps) && Still(states, from, n) && from <= a < j < |states|
    requires steps[a].Deliver? && exists k | from <= k < a :: ComposedAt(steps, k, a)
    ensures states[j].client.seenEpoch == states[j].live
    decreases j
  {
    hide Next, Serial, AnsweredStill, Inv, ComposedAt;
    var s, t := states[j - 1], states[j];
    Unguarded(s, steps[j - 1], t);
    OnlyDeliveryTouchesClient(s, steps[j - 1], t);
    assert s.live == states[from].live == t.live;
    if a + 1 < j { SpeaksHere(states, steps, from, a, j - 1, n); }
    if steps[j - 1].Deliver? {
      if a + 1 < j { TakenLater(steps, a, j - 1); }
      var k: nat :| from <= k < j - 1 && ComposedAt(steps, k, j - 1);
      Answering(steps, k, j - 1);
      AnswersStill(states, steps, from, k, j - 1, n);
      FromHere(s, steps[j - 1].flight, n);
    }
  }

  // ---------------------------------------------------------------- and the whole shape

  /** From this state on the pool keeps its size and methods as well. */
  ghost predicate ShapeStill(states: seq<System>, from: nat, n: Name) {
    forall m | from <= m < |states| ::
      Exists(states[m], n) && Exists(states[from], n) && SameSizeAndMethods(states[m], states[from], n)
  }

  predicate SameSizeAndMethods(s: System, t: System, n: Name)
    requires Exists(s, n) && Exists(t, n)
  {
    s.regs[s.live].book[n].size == t.regs[t.live].book[n].size && s.regs[s.live].book[n].methods == t.regs[t.live].book[n].methods
  }

  /** The cached size and methods are the registry's. */
  predicate ShapeKnown(s: System, n: Name) {
    && Exists(s, n) && n in s.client.cache
    && s.client.cache[n].size == s.regs[s.live].book[n].size && s.client.cache[n].methods == s.regs[s.live].book[n].methods
  }

  lemma {:induction false} SentStays(states: seq<System>, steps: seq<Step>, m: nat, k: nat)
    requires IsRun(states, steps, false) && m <= k < |states|
    ensures states[m].sent <= states[k].sent
    decreases k
  {
    hide Next;
    if m < k {
      SentStays(states, steps, m, k - 1);
      StepKeepsSent(states[k - 1], steps[k - 1], states[k]);
    }
  }

  lemma ComposedIsNew(s: System, x: Sent, t: System)
    requires s.live in s.regs && Next(s, Compose(x), t, false)
    ensures x !in s.sent
  {
  }

  /** Whatever an answer to a beat composed since then brings has that shape. */
  lemma BroughtShape(states: seq<System>, steps: seq<Step>, from: nat, k: nat, j: nat, f: Flight, n: Name)
    requires IsRun(states, steps, false) && Still(states, from, n) && ShapeStill(states, from, n)
    requires from <= k < j < |states| && steps[k] == Compose(f.sent) && f in states[j].acks && n in f.ack.pools
    ensures var p := states[j].regs[states[j].live].book[n];
            f.ack.pools[n].size == p.size && f.ack.pools[n].methods == p.methods
  {
    hide Next, VersionOf;
    var m := FlightIsCut(states, steps, j, f, n);
    ComposedIsNew(states[k], f.sent, states[k + 1]);
    if m <= k { SentStays(states, steps, m, k); }
    assert SameSizeAndMethods(states[m], states[from], n) && SameSizeAndMethods(states[j], states[from], n);
  }

  /** What an answer that does not fall short leaves cached. */
  lemma AnswerShapes(c: ClientState, f: Flight, n: Name, v: nat)
    requires f.ack.accepted && f.sent.beat.seen == SeenOf(c.cache, f.sent.beat.watch)
    requires SaysVersion(f, n, v) && n in f.sent.beat.watch && !FallsShort(c, f.ack, n)
    requires n in c.cache && !Restarted(c, f.ack) ==> c.cache[n].version <= v
    ensures n in Applied(c, f.ack).cache
    ensures var t := Applied(c, f.ack).cache[n];
            if n in f.ack.pools then t.size == f.ack.pools[n].size && t.methods == f.ack.pools[n].methods
            else n in c.cache && t == c.cache[n]
  {
  }

  lemma DeliveryShapes(states: seq<System>, steps: seq<Step>, from: nat, k: nat, b: nat, n: Name)
    requires IsRun(states, steps, true) && IsRun(states, steps, false) && Still(states, from, n) && ShapeStill(states, from, n)
    requires from <= k < b < |steps| && steps[b].Deliver? && ComposedAt(steps, k, b)
    requires steps[b].flight.ack.accepted && n in steps[b].flight.sent.beat.watch
    requires !FallsShort(states[b].client, steps[b].flight.ack, n)
    ensures ShapeKnown(states[b + 1], n) <==> n in steps[b].flight.ack.pools || ShapeKnown(states[b], n)
  {
    hide Next, Inv, AnsweredStill, VersionOf, SaysVersion, FallsShort;
    var s, t, f := states[b], states[b + 1], steps[b].flight;
    OnlyDeliveryTouchesClient(s, steps[b], t);
    ClientStands(states, steps, k, b);
    AnswersStill(states, steps, from, k, b, n);
    FromHere(s, f, n);
    ReplicaAgreement(states, steps, b);
    if n in s.client.cache && !Restarted(s.client, f.ack) { SeenSomething(s, n); CachedBehind(s, n); }
    assert s.live == states[from].live && t.live == states[from].live;
    AnswerShapes(s.client, f, n, VersionOf(s, n));
    assert SameSizeAndMethods(s, states[from], n) && SameSizeAndMethods(t, states[from], n);
    if n in f.ack.pools { BroughtShape(states, steps, from, k, b, f, n); }
  }

  lemma ShapeStays(states: seq<System>, steps: seq<Step>, from: nat, j: nat, n: Name)
    requires IsRun(states, steps, false) && Still(states, from, n) && ShapeStill(states, from, n) && from <= j < |steps|
    requires ShapeKnown(states[j], n) && n in states[j + 1].client.cache
    requires steps[j].Deliver? ==> exists k | from <= k < j :: ComposedAt(steps, k, j)
    ensures ShapeKnown(states[j + 1], n)
  {
    hide Next, Applied, VersionOf, NothingTaken;
    var s, t := states[j], states[j + 1];
    OnlyDeliveryTouchesClient(s, steps[j], t);
    assert SameSizeAndMethods(s, states[from], n) && SameSizeAndMethods(t, states[from], n);
    if steps[j].Deliver? {
      var k: nat :| from <= k < j && ComposedAt(steps, k, j);
      TakenOrKept(s.client, steps[j].flight.ack, n);
      if n in steps[j].flight.ack.pools { BroughtShape(states, steps, from, k, j, steps[j].flight, n); }
    }
  }

  /** Once the shape stands still too, an answer makes the cached size and methods the
      registry's exactly if it brings the pool, or they were so already; and they stay so. An
      answer that leaves the pool out, the version being the same, cannot put them right: a
      pool is reshaped without a version while it is empty or without methods. */
  lemma {:induction false} ShapeCatchesUp(states: seq<System>, steps: seq<Step>, from: nat, k: nat, b: nat, j: nat, n: Name)
    requires IsRun(states, steps, false) && Serial(steps) && Still(states, from, n) && ShapeStill(states, from, n)
    requires from <= k < b < j < |states| && steps[b].Deliver? && ComposedAt(steps, k, b)
    requires steps[b].flight.ack.accepted && n in steps[b].flight.sent.beat.watch
    requires !FallsShort(states[b].client, steps[b].flight.ack, n)
    ensures ShapeKnown(states[b + 1], n) <==> n in steps[b].flight.ack.pools || ShapeKnown(states[b], n)
    ensures ShapeKnown(states[b + 1], n) ==> ShapeKnown(states[j], n)
    decreases j
  {
    hide Next, Serial, FallsShort, ComposedAt, ShapeKnown, Still, ShapeStill;
    SerialRunsAreGuarded(states, steps);
    DeliveryShapes(states, steps, from, k, b, n);
    if b + 1 < j {
      ShapeCatchesUp(states, steps, from, k, b, j - 1, n);
      if ShapeKnown(states[b + 1], n) {
        OneDeliveryCatchesUp(states, steps, from, k, b, j, n);
        if steps[j - 1].Deliver? { TakenLater(steps, b, j - 1); }
        ShapeStays(states, steps, from, j - 1, n);
      }
    }
  }

  // ------------------------------------------------------------- and nothing more is sent

  /** Once up to date, a client is told nothing: an accepted answer to a beat composed when the
      cache had reached the pool's version leaves the pool out, for as long as it is quiet. */
  lemma QuietWhenUpToDate(states: seq<System>, steps: seq<Step>, from: nat, k: nat, b: nat, n: Name)
    requires IsRun(states, steps, true) && Still(states, from, n)
    requires from <= k < b < |steps| && steps[k].Compose? && steps[b].Deliver? && steps[b].flight.sent == steps[k].sent
    requires steps[b].flight.ack.accepted && n in steps[k].sent.beat.watch && Reached(states[k], n)
    ensures n !in steps[b].flight.ack.pools
  {
    hide Next, Inv, AnsweredStill;
    Unguarded(states[b], steps[b], states[b + 1]);
    OnlyDeliveryTouchesClient(states[b], steps[b], states[b + 1]);
    Unguarded(states[k], steps[k], states[k + 1]);
    OnlyDeliveryTouchesClient(states[k], steps[k], states[k + 1]);
    AnswersStill(states, steps, from, k, b, n);
    FromHere(states[b], steps[b].flight, n);
    assert VersionOf(states[b], n) == VersionOf(states[from], n) == VersionOf(states[k], n);
  }
}
