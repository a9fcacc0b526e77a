/** Registry, network and client together. Any number of beats may be in flight;
    acknowledgements may be lost, duplicated, delayed and reordered; the registry
    may be restarted at any moment; everyone else beats as they please. */
module Systems {
  import opened Basics
  import opened Protocol
  import opened PoolModel
  import opened Registries
  import opened Histories
  import opened Replicas

  /** One registry process and the history of each of its pools. */
  datatype Reg = Reg(book: Book, past: map<Name, History>)

  const NEW_REG: Reg := Reg(map[], map[])

  /** A beat this client composed, the number of the request that carries it, and how
      often the cache had been emptied by then. */
  datatype Sent = Sent(beat: Beat, request: nat, generation: nat)

  datatype Flight = Flight(sent: Sent, ack: BeatAck)

  /** `regs` holds every registry process there has been, by epoch; `live` is the
      one answering now. `sent` and `acks` only grow: a message once sent can always
      arrive again, or never. */
  datatype System = System(
    ttl: nat,
    regs: map<nat, Reg>,
    live: nat,
    sent: set<Sent>,
    acks: set<Flight>,
    client: ClientState,
    confirmed: nat,
    generation: nat)

  datatype Step =
    | Compose(sent: Sent)                                            // the client sends a beat
    | Stranger(beat: Beat, now: Time)                                // anyone else's beat arrives
    | Arrive(sent: Sent, now: Time, ack: BeatAck)                    // ours arrives and is answered
    | Release(held: Flight, answers: map<Name, PoolDelta>)           // a held reply is let go
    | Sweep(now: Time, alive: set<Bell>, orders: map<Name, seq<nat>>)
    | ParkBell(watch: seq<Name>, bell: Bell)
    | Restart(epoch: nat)
    | Deliver(flight: Flight)                                        // an acknowledgement reaches the client

  function HistoryAt(past: map<Name, History>, n: Name): History {
    if n in past then past[n] else BEGINNING
  }

  function RegAfterBeat(r: Reg, b: Beat, now: Time, ttl: nat): Reg {
    if !Admissible(b) then r else
      var p := PoolAt(r.book, b.pool);
      var q := OnBeat(p, b, now + ttl);
      Reg(r.book[b.pool := q], r.past[b.pool := After(HistoryAt(r.past, b.pool), p, q, b.id)])
  }

  function RegAfterSweep(r: Reg, now: Time, alive: set<Bell>, orders: map<Name, seq<nat>>): Reg
    requires r.past.Keys == r.book.Keys == orders.Keys
  {
    Reg(map n | n in r.book :: Swept(r.book[n], now, alive, orders[n]),
        map n | n in r.book :: AfterSweep(r.past[n], r.book[n], now, alive, orders[n]))
  }

  function RegAfterPark(r: Reg, watch: seq<Name>, bell: Bell): Reg {
    var book := BookAfterPark(r.book, watch, bell);
    Reg(book, map n | n in book :: HistoryAt(r.past, n))
  }

  function WithLive(s: System, r: Reg): System { s.(regs := s.regs[s.live := r]) }

  /** No incremental delta that would be taken starts beyond what the cache holds. */
  ghost predicate NotBehind(c: ClientState, f: Flight) {
    forall n | n in f.ack.pools && f.ack.accepted && !f.ack.pools[n].full && n in f.sent.beat.seen &&
               Takes(Kept(c, f.ack), Restarted(c, f.ack), n, f.ack.pools[n]) ::
      f.sent.beat.seen[n] <= EntryOf(Kept(c, f.ack), n).version
  }

  /** What taking an acknowledgement does. */
  function Took(s: System, f: Flight): System {
    s.(client := Applied(s.client, f.ack),
       confirmed := Confirming(s.confirmed, f.ack.accepted, f.sent.beat.publication),
       generation := s.generation + if Restarted(s.client, f.ack) then 1 else 0)
  }

  /** One step. Under the guard, an acknowledgement is taken only if the cache is not
      behind it. */
  ghost predicate Next(s: System, step: Step, t: System, guarded: bool)
    requires s.live in s.regs
  {
    var r := s.regs[s.live];
    match step
    case Compose(x) =>
      && x.generation == s.generation && x.beat.seen == SeenOf(s.client.cache, x.beat.watch)
      && (forall y | y in s.sent :: y.request != x.request)
      && t == s.(sent := s.sent + {x})
    case Stranger(b, now) =>
      t == WithLive(s, RegAfterBeat(r, b, now, s.ttl))
    case Arrive(x, now, ack) =>
      && x in s.sent && Replies(r.book, x.beat, now, s.ttl, s.live, ack)
      && t == WithLive(s, RegAfterBeat(r, x.beat, now, s.ttl)).(acks := s.acks + {Flight(x, ack)})
    case Release(f, answers) =>
      && f in s.acks && f.ack.epoch == s.live && f.ack.accepted && f.ack.pools == map[]
      && Tells(r.book, f.sent.beat, NameSet(f.sent.beat.watch), answers)
      && t == s.(acks := s.acks + {Flight(f.sent, f.ack.(pools := answers))})
    case Sweep(now, alive, orders) =>
      && r.past.Keys == r.book.Keys == orders.Keys
      && (forall n | n in r.book :: Lists(orders[n], Expired(r.book[n], now)))
      && t == WithLive(s, RegAfterSweep(r, now, alive, orders))
    case ParkBell(watch, bell) =>
      t == WithLive(s, RegAfterPark(r, watch, bell))
    case Restart(e) =>
      e != 0 && e !in s.regs && t == s.(regs := s.regs[e := NEW_REG], live := e)
    case Deliver(f) =>
      f in s.acks && (guarded ==> NotBehind(s.client, f)) && t == Took(s, f)
  }

  ghost predicate Init(s: System) {
    && s.live != 0 && s.regs == map[s.live := NEW_REG]
    && s.sent == {} && s.acks == {} && s.client == NEW_CLIENT && s.confirmed == 0 && s.generation == 0
  }

  /** A run: every state follows from the one before. */
  ghost predicate IsRun(states: seq<System>, steps: seq<Step>, guarded: bool) {
    && |states| == |steps| + 1 && Init(states[0])
    && forall i | 0 <= i < |steps| ::
         states[i].live in states[i].regs && Next(states[i], steps[i], states[i + 1], guarded)
  }

  // ------------------------------------------------------------- steps one can take

  lemma IsRunOf(states: seq<System>, steps: seq<Step>, g: bool)
    requires |states| == |steps| + 1 && Init(states[0])
    requires forall i | 0 <= i < |steps| :: states[i].live in states[i].regs && Next(states[i], steps[i], states[i + 1], g)
    ensures IsRun(states, steps, g)
  {
    hide Next;
  }

  lemma ComposeStep(s: System, x: Sent, g: bool)
    requires s.live in s.regs && x.generation == s.generation && x.beat.seen == SeenOf(s.client.cache, x.beat.watch)
    requires forall y | y in s.sent :: y.request != x.request
    ensures Next(s, Compose(x), s.(sent := s.sent + {x}), g)
  {
  }

  lemma StrangerStep(s: System, b: Beat, now: Time, g: bool)
    requires s.live in s.regs
    ensures Next(s, Stranger(b, now), WithLive(s, RegAfterBeat(s.regs[s.live], b, now, s.ttl)), g)
  {
    hide RegAfterBeat;
  }

  lemma ArriveStep(s: System, x: Sent, now: Time, ack: BeatAck, g: bool)
    requires s.live in s.regs && x in s.sent && Replies(s.regs[s.live].book, x.beat, now, s.ttl, s.live, ack)
    ensures Next(s, Arrive(x, now, ack),
                 WithLive(s, RegAfterBeat(s.regs[s.live], x.beat, now, s.ttl)).(acks := s.acks + {Flight(x, ack)}), g)
  {
    hide RegAfterBeat, Replies;
  }

  lemma RestartStep(s: System, e: nat, g: bool)
    requires s.live in s.regs && e != 0 && e !in s.regs
    ensures Next(s, Restart(e), s.(regs := s.regs[e := NEW_REG], live := e), g)
  {
  }

  lemma DeliverStep(s: System, f: Flight, g: bool)
    requires s.live in s.regs && f in s.acks && (g ==> NotBehind(s.client, f))
    ensures Next(s, Deliver(f), Took(s, f), g)
  {
    hide Applied, NotBehind;
  }

  // -------------------------------------------------------------- the invariant

  ghost predicate Recorded(r: Reg) {
    && r.past.Keys == r.book.Keys
    && forall n | n in r.book :: WellFormed(r.book[n]) && Chronicles(r.past[n], r.book[n])
  }

  /** The replica is the roster, and the fingerprint, the pool had at its version. */
  ghost predicate Mirrors(h: History, c: Replica) {
    && c.version < |h.snaps| && c.roll == h.snaps[c.version] && c.roster == RosterOf(c.roll)
  }

  /** Every delta in flight retells its registry's history from where the beat said
      it stood, or in full. */
  ghost predicate Truthful(r: Reg, f: Flight) {
    forall n | n in f.ack.pools ::
      n in r.past &&
      (f.ack.pools[n].full ==> Recounts(r.past[n], None, f.ack.pools[n])) &&
      (!f.ack.pools[n].full ==> n in f.sent.beat.seen && Recounts(r.past[n], Some(f.sent.beat.seen[n]), f.ack.pools[n]))
  }

  ghost predicate Agrees(regs: map<nat, Reg>, c: ClientState) {
    if c.seenEpoch == 0 then c.cache == map[] else
      c.seenEpoch in regs &&
      forall n | n in c.cache :: n in regs[c.seenEpoch].past && Mirrors(regs[c.seenEpoch].past[n], c.cache[n])
  }

  /** A beat of the present generation never claims more than the cache holds. */
  ghost predicate NotAhead(s: System, x: Sent) {
    && x.generation <= s.generation
    && (x.generation == s.generation ==>
          forall n | n in x.beat.seen :: n in s.client.cache && x.beat.seen[n] <= s.client.cache[n].version)
  }

  ghost predicate Inv(s: System) {
    && s.live in s.regs && 0 !in s.regs
    && (forall e | e in s.regs :: Recorded(s.regs[e]))
    && (forall f | f in s.acks :: f.sent in s.sent && f.ack.epoch in s.regs && Truthful(s.regs[f.ack.epoch], f))
    && Agrees(s.regs, s.client)
    && (forall x | x in s.sent :: NotAhead(s, x))
  }

  // --------------------------------------------------- the registry's own steps

  /** The histories only grow. */
  ghost predicate Grows(r: Reg, q: Reg) {
    r.past.Keys <= q.past.Keys && forall n | n in r.past :: Extends(r.past[n], q.past[n]) && Continuous(q.past[n])
  }

  lemma EmptyChronicled(waiters: seq<Bell>)
    ensures var p := EMPTY_POOL.(waiters := waiters);
            WellFormed(p) && Chronicles(BEGINNING, p)
  {
    var p := EMPTY_POOL.(waiters := waiters);
    assert RollOf(p) == map[];
    assert Occupants(map[]) == {};
  }

  lemma PoolChronicled(r: Reg, n: Name)
    requires Recorded(r)
    ensures WellFormed(PoolAt(r.book, n)) && Chronicles(HistoryAt(r.past, n), PoolAt(r.book, n))
  {
    EmptyChronicled([]);
  }

  lemma BeatRecorded(r: Reg, b: Beat, now: Time, ttl: nat)
    requires Recorded(r)
    ensures Recorded(RegAfterBeat(r, b, now, ttl)) && Grows(r, RegAfterBeat(r, b, now, ttl))
    ensures RegAfterBeat(r, b, now, ttl).book == BookAfterBeat(r.book, b, now, ttl)
  {
    hide OnBeat, After, WellFormed, Admissible, Continuous, Windows;
    if Admissible(b) {
      PoolChronicled(r, b.pool);
      BeatChronicled(HistoryAt(r.past, b.pool), PoolAt(r.book, b.pool), b, now + ttl);
    }
  }

  lemma SweepRecorded(r: Reg, now: Time, alive: set<Bell>, orders: map<Name, seq<nat>>)
    requires Recorded(r) && orders.Keys == r.book.Keys
    ensures Recorded(RegAfterSweep(r, now, alive, orders)) && Grows(r, RegAfterSweep(r, now, alive, orders))
  {
    hide Swept, AfterSweep, WellFormed, Continuous, Windows;
    forall n | n in r.book
      ensures var q := Swept(r.book[n], now, alive, orders[n]);
              var h := AfterSweep(r.past[n], r.book[n], now, alive, orders[n]);
              WellFormed(q) && Chronicles(h, q) && Extends(r.past[n], h)
    {
      SweepChronicled(r.past[n], r.book[n], now, alive, orders[n]);
    }
  }

  lemma {:induction false} ParkedBook(book: Book, watch: seq<Name>, bell: Bell, n: Name)
    ensures n in BookAfterPark(book, watch, bell) <==> n in book || n in watch
    ensures exists w :: PoolAt(BookAfterPark(book, watch, bell), n) == PoolAt(book, n).(waiters := w)
  {
    if watch == [] {
      assert PoolAt(book, n) == PoolAt(book, n).(waiters := PoolAt(book, n).waiters);
    } else {
      var front, last := watch[..|watch| - 1], watch[|watch| - 1];
      assert watch == front + [last];
      ParkedBook(book, front, bell, n);
      var before := BookAfterPark(book, front, bell);
      var w :| PoolAt(before, n) == PoolAt(book, n).(waiters := w);
      var p := PoolAt(before, last);
      var w' := if n == last then p.waiters + [bell] else w;
      assert PoolAt(BookAfterPark(book, watch, bell), n) == PoolAt(book, n).(waiters := w');
    }
  }

  lemma WaitersDoNotMatter(h: History, p: PoolState, w: seq<Bell>)
    requires WellFormed(p) && Chronicles(h, p)
    ensures WellFormed(p.(waiters := w)) && Chronicles(h, p.(waiters := w))
  {
    assert RollOf(p.(waiters := w)) == RollOf(p);
  }

  lemma ParkRecorded(r: Reg, watch: seq<Name>, bell: Bell)
    requires Recorded(r)
    ensures Recorded(RegAfterPark(r, watch, bell)) && Grows(r, RegAfterPark(r, watch, bell))
  {
    hide WellFormed, Continuous, Windows, BookAfterPark;
    var book := BookAfterPark(r.book, watch, bell);
    forall n | n in book ensures WellFormed(book[n]) && Chronicles(HistoryAt(r.past, n), book[n]) {
      ParkedBook(r.book, watch, bell, n);
      var w :| PoolAt(book, n) == PoolAt(r.book, n).(waiters := w);
      PoolChronicled(r, n);
      WaitersDoNotMatter(HistoryAt(r.past, n), PoolAt(r.book, n), w);
    }
    forall n | n in r.past ensures n in book { ParkedBook(r.book, watch, bell, n); }
  }
}
