/** Held replies. A caller with nothing to hear parks a bell on every pool it
    watches, looks once more, and sleeps; whoever moves a pool takes its parked bells
    off the list under the lock and rings them after letting the lock go. */
module Holding {
  import opened Basics
  import opened Protocol
  import opened PoolModel
  import opened Registries

  datatype Phase = Parking | Looking | Suspended | Answered

  /** One held reply. `permit` is a ring that came before the sleep it is meant for. */
  datatype Watcher = Watcher(beat: Beat, phase: Phase, permit: bool)

  /** `owed` are the rings taken off the lists but not yet delivered. */
  datatype Hub = Hub(book: Book, watchers: map<Bell, Watcher>, owed: multiset<Bell>)

  datatype Step =
    | Begin(bell: Bell, beat: Beat)
    | Park(bell: Bell)
    | Look(bell: Bell, answers: map<Name, PoolDelta>)
    | Wake(bell: Bell)
    | TimeOut(bell: Bell)
    | BeatLands(beat: Beat, now: Time, ttl: nat)
    | Sweep(now: Time, alive: set<Bell>, orders: map<Name, seq<nat>>)
    | Ring(bell: Bell)

  /** A bell is alive while its reply is still held. */
  predicate Held(h: Hub, bell: Bell) { bell in h.watchers && !h.watchers[bell].phase.Answered? }

  function Turned(h: Hub, bell: Bell, phase: Phase): Hub
    requires bell in h.watchers
  {
    h.(watchers := h.watchers[bell := h.watchers[bell].(phase := phase)])
  }

  /** The bells a beat takes off the pool it moved. */
  function Taken(book: Book, b: Beat, now: Time, ttl: nat): multiset<Bell> {
    if PoolAt(BookAfterBeat(book, b, now, ttl), b.pool).version == PoolAt(book, b.pool).version then multiset{}
    else multiset(PoolAt(book, b.pool).waiters)
  }

  /** A sweep owes a ring to every live bell on every pool it moved. */
  ghost predicate OwesAll(h: Hub, alive: set<Bell>, orders: map<Name, seq<nat>>, owed: multiset<Bell>) {
    && h.owed <= owed
    && forall n, bell | n in h.book && n in orders && orders[n] != [] && bell in h.book[n].waiters && bell in alive ::
         bell in owed
  }

  ghost predicate Next(h: Hub, step: Step, k: Hub) {
    match step
    case Begin(bell, b) =>
      bell !in h.watchers && k == h.(watchers := h.watchers[bell := Watcher(b, Parking, false)])
    case Park(bell) =>
      && bell in h.watchers && h.watchers[bell].phase.Parking?
      && k == Turned(h, bell, Looking).(book := BookAfterPark(h.book, h.watchers[bell].beat.watch, bell))
    case Look(bell, answers) =>
      && bell in h.watchers && h.watchers[bell].phase.Looking?
      && Tells(h.book, h.watchers[bell].beat, NameSet(h.watchers[bell].beat.watch), answers)
      && k == Turned(h, bell, if answers == map[] then Suspended else Answered)
    case Wake(bell) =>
      && bell in h.watchers && h.watchers[bell].phase.Suspended? && h.watchers[bell].permit
      && k == h.(watchers := h.watchers[bell := h.watchers[bell].(phase := Parking, permit := false)])
    case TimeOut(bell) =>
      && bell in h.watchers && h.watchers[bell].phase.Suspended?
      && k == Turned(h, bell, Answered)
    case BeatLands(b, now, ttl) =>
      k == h.(book := BookAfterBeat(h.book, b, now, ttl), owed := h.owed + Taken(h.book, b, now, ttl))
    case Sweep(now, alive, orders) =>
      && (forall bell | Held(h, bell) :: bell in alive)
      && SweptBook(h.book, now, alive, orders, k.book) && OwesAll(h, alive, orders, k.owed)
      && k.watchers == h.watchers
    case Ring(bell) =>
      && bell in h.owed && k.book == h.book && k.owed == h.owed - multiset{bell}
      && k.watchers == if Held(h, bell) then h.watchers[bell := h.watchers[bell].(permit := true)] else h.watchers
  }

  ghost predicate Init(h: Hub) { h == Hub(map[], map[], multiset{}) }

  ghost predicate IsRun(states: seq<Hub>, steps: seq<Step>) {
    && |states| == |steps| + 1 && Init(states[0])
    && forall i | 0 <= i < |steps| :: Next(states[i], steps[i], states[i + 1])
  }

  // -------------------------------------------------------------- the invariant

  /** A ring is on its way: delivered, or taken off a list and owed. */
  predicate RingComing(h: Hub, bell: Bell)
    requires bell in h.watchers
  {
    h.watchers[bell].permit || bell in h.owed
  }

  /** On this pool's list, so the next change there will find it. */
  predicate Listed(book: Book, n: Name, bell: Bell) { n in book && bell in book[n].waiters }

  predicate Quiet(book: Book, n: Name, b: Beat) { n in book && SeenAt(b, n) == Some(book[n].version) }

  /** From the moment it has parked, a held reply is listed wherever it has not already
      been rung for; and once asleep, its watched pools have nothing to say. */
  ghost predicate Safe(h: Hub, bell: Bell)
    requires bell in h.watchers
  {
    var w := h.watchers[bell];
    && (w.phase.Looking? || w.phase.Suspended? ==>
          RingComing(h, bell) || forall n | n in w.beat.watch :: Listed(h.book, n, bell))
    && (w.phase.Suspended? ==>
          RingComing(h, bell) || forall n | n in w.beat.watch :: Quiet(h.book, n, w.beat))
  }

  ghost predicate Inv(h: Hub) { forall bell | bell in h.watchers :: Safe(h, bell) }

  lemma ActAndTheList(p: PoolState, b: Beat, deadline: Time)
    ensures Acted(p, b, deadline).version == p.version ==> Acted(p, b, deadline).waiters == p.waiters
  {
    hide MemberHash, Trimmed, Refreshed, Republishes;
    if b.leaving {
      assert Departed(p, b, deadline).version == p.version ==> Departed(p, b, deadline).waiters == p.waiters;
    } else if Stored(p, b.id) == Some(b.incarnation) {
      assert Renewed(p, b, deadline).version == p.version ==> Renewed(p, b, deadline).waiters == p.waiters;
    } else {
      assert Arrived(p, b, deadline).version == p.version + 1;
    }
  }

  /** A beat that does not move the pool leaves its list. */
  lemma BeatAndTheList(p: PoolState, b: Beat, deadline: Time)
    ensures OnBeat(p, b, deadline).version == p.version ==> OnBeat(p, b, deadline).waiters == p.waiters
  {
    hide Acted, Accepts, Admissible, Misshapen;
    ActAndTheList(Shaped(p, b), b, deadline);
  }

  lemma {:induction false} DropsAndTheList(p: PoolState, order: seq<nat>)
    requires IdSet(order) <= p.members.Keys && forall i, j | 0 <= i < j < |order| :: order[i] != order[j]
    ensures Dropped(p, order).version == p.version + |order|
    ensures order == [] ==> Dropped(p, order) == p
    decreases |order|
  {
    hide MemberHash, Trimmed;
    if order != [] {
      assert order[0] in IdSet(order);
      var q := Bumped(Without(p, order[0]), order[0]);
      forall x | x in IdSet(order[1..]) ensures x in q.members.Keys {
        var i :| 0 <= i < |order[1..]| && order[1..][i] == x;
        assert order[i + 1] == x && order[0] != order[i + 1] && x in IdSet(order);
      }
      DropsAndTheList(q, order[1..]);
    }
  }

  lemma {:induction false} AliveKeepRinging(waiters: seq<Bell>, alive: set<Bell>, bell: Bell)
    requires bell in waiters && bell in alive
    ensures bell in Rung(waiters, alive)
  {
    if waiters[0] != bell { AliveKeepRinging(waiters[1..], alive, bell); }
  }

  /** The bells a registry's sweep hands back are the rings this step owes. */
  lemma SweepOwes(h: Hub, alive: set<Bell>, orders: map<Name, seq<nat>>, woken: seq<Bell>)
    requires RingsFor(h.book, alive, orders, woken)
    ensures OwesAll(h, alive, orders, h.owed + multiset(woken))
  {
    hide Rung;
    forall n, bell | n in h.book && n in orders && orders[n] != [] && bell in h.book[n].waiters && bell in alive
      ensures bell in woken
    {
      AliveKeepRinging(h.book[n].waiters, alive, bell);
    }
  }

  lemma SweepAndTheList(p: PoolState, now: Time, alive: set<Bell>, order: seq<nat>, bell: Bell)
    requires Lists(order, Expired(p, now)) && bell in p.waiters && bell in alive && order == []
    ensures var q := Swept(p, now, alive, order);
            q.version == p.version && bell in q.waiters
  {
    hide MemberHash, Trimmed;
    AliveKeepRinging(p.waiters, alive, bell);
    DropsAndTheList(Tidied(p, now, alive), order);
  }

  lemma {:induction false} ParkLists(book: Book, watch: seq<Name>, bell: Bell, n: Name, other: Bell)
    ensures var after := BookAfterPark(book, watch, bell);
            && (n in watch ==> Listed(after, n, bell))
            && (Listed(book, n, other) ==> Listed(after, n, other))
            && (n in book ==> n in after && after[n].version == book[n].version)
  {
    if watch != [] {
      var front := watch[..|watch| - 1];
      assert watch == front + [watch[|watch| - 1]];
      ParkLists(book, front, bell, n, other);
    }
  }

  // ---------------------------------------------------------------- every step

  lemma BeatKeepsSafe(h: Hub, k: Hub, b: Beat, now: Time, ttl: nat, bell: Bell)
    requires bell in h.watchers && Safe(h, bell)
    requires k == h.(book := BookAfterBeat(h.book, b, now, ttl), owed := h.owed + Taken(h.book, b, now, ttl))
    ensures Safe(k, bell)
  {
    hide OnBeat, Admissible;
    var w := h.watchers[bell];
    var p, q := PoolAt(h.book, b.pool), PoolAt(k.book, b.pool);
    BeatAndTheList(p, b, now + ttl);
    if !RingComing(k, bell) && (w.phase.Looking? || w.phase.Suspended?) {
      assert !RingComing(h, bell);
      forall n | n in w.beat.watch
        ensures Listed(k.book, n, bell) && (w.phase.Suspended? ==> Quiet(k.book, n, w.beat))
      {
        assert Listed(h.book, n, bell);
        if n == b.pool {
          assert bell in multiset(p.waiters);
        }
      }
    }
  }

  lemma SweepKeepsSafe(h: Hub, k: Hub, now: Time, alive: set<Bell>, orders: map<Name, seq<nat>>, bell: Bell)
    requires bell in h.watchers && Safe(h, bell) && k.watchers == h.watchers
    requires forall x | Held(h, x) :: x in alive
    requires SweptBook(h.book, now, alive, orders, k.book) && OwesAll(h, alive, orders, k.owed)
    ensures Safe(k, bell)
  {
    hide Swept, Lists, Expired;
    var w := h.watchers[bell];
    if !RingComing(k, bell) && (w.phase.Looking? || w.phase.Suspended?) {
      assert Held(h, bell) && !RingComing(h, bell);
      forall n | n in w.beat.watch
        ensures Listed(k.book, n, bell) && (w.phase.Suspended? ==> Quiet(k.book, n, w.beat))
      {
        assert Listed(h.book, n, bell);
        assert orders[n] == [];
        SweepAndTheList(h.book[n], now, alive, orders[n], bell);
      }
    }
  }

  lemma ParkKeepsSafe(h: Hub, k: Hub, parked: Bell, bell: Bell)
    requires Next(h, Park(parked), k) && bell in h.watchers && Safe(h, bell)
    ensures Safe(k, bell)
  {
    hide BookAfterPark;
    var w := k.watchers[bell];
    var watch := h.watchers[parked].beat.watch;
    forall n ensures (n in watch ==> Listed(k.book, n, parked)) && (Listed(h.book, n, bell) ==> Listed(k.book, n, bell)) &&
                     (Quiet(h.book, n, w.beat) ==> Quiet(k.book, n, w.beat))
    {
      ParkLists(h.book, watch, parked, n, bell);
    }
  }

  /** An empty answer means every watched pool that exists is where the caller said. */
  lemma EmptyAnswerIsQuiet(book: Book, b: Beat, n: Name)
    requires Tells(book, b, NameSet(b.watch), map[]) && n in b.watch && n in book
    ensures Quiet(book, n, b)
  {
    assert n in NameSet(b.watch) * book.Keys;
    assert Answers(book[n], SeenAt(b, n), None);
  }

  lemma LookKeepsSafe(h: Hub, k: Hub, looked: Bell, answers: map<Name, PoolDelta>, bell: Bell)
    requires Next(h, Look(looked, answers), k) && bell in h.watchers && Safe(h, bell)
    ensures Safe(k, bell)
  {
    hide Tells;
    if bell == looked && answers == map[] && !RingComing(k, bell) {
      var b := h.watchers[bell].beat;
      assert !RingComing(h, bell);
      forall n | n in b.watch ensures Quiet(k.book, n, b) {
        assert Listed(h.book, n, bell);
        EmptyAnswerIsQuiet(h.book, b, n);
      }
    }
  }

  lemma StepKeepsInv(h: Hub, step: Step, k: Hub)
    requires Inv(h) && Next(h, step, k)
    ensures Inv(k)
  {
    hide Safe, BookAfterBeat, BookAfterPark, Tells, SweptBook, OwesAll, Taken;
    forall bell | bell in k.watchers ensures Safe(k, bell) {
      match step {
        case Begin(new_, b) => BeginKeepsSafe(h, k, new_, b, bell);
        case Park(x) => ParkKeepsSafe(h, k, x, bell);
        case Look(x, answers) => LookKeepsSafe(h, k, x, answers, bell);
        case Wake(x) => TurnKeepsSafe(h, step, k, bell);
        case TimeOut(x) => TurnKeepsSafe(h, step, k, bell);
        case BeatLands(b, now, ttl) => BeatKeepsSafe(h, k, b, now, ttl, bell);
        case Sweep(now, alive, orders) => SweepKeepsSafe(h, k, now, alive, orders, bell);
        case Ring(x) => TurnKeepsSafe(h, step, k, bell);
      }
    }
  }

  lemma BeginKeepsSafe(h: Hub, k: Hub, added: Bell, b: Beat, bell: Bell)
    requires Next(h, Begin(added, b), k) && Inv(h) && bell in k.watchers
    ensures Safe(k, bell)
  {
    if bell != added { assert Safe(h, bell); }
  }

  lemma TurnKeepsSafe(h: Hub, step: Step, k: Hub, bell: Bell)
    requires Next(h, step, k) && Inv(h) && bell in k.watchers && (step.Wake? || step.TimeOut? || step.Ring?)
    ensures Safe(k, bell)
  {
    hide BookAfterBeat, BookAfterPark, Tells, SweptBook, OwesAll, Taken;
    assert Safe(h, bell);
  }

  lemma {:induction false} InvThroughout(states: seq<Hub>, steps: seq<Step>, i: nat)
    requires IsRun(states, steps) && i < |states|
    ensures Inv(states[i])
  {
    hide Next, Safe;
    if i > 0 {
      InvThroughout(states, steps, i - 1);
      StepKeepsInv(states[i - 1], steps[i - 1], states[i]);
    }
  }

  /** No lost wakeup. In every interleaving of parking, beats, sweeps and late rings, a
      sleeping reply with no permit stored and no ring owed to it has nothing to be told:
      the answer it would get from every watched pool is silence. */
  lemma NoLostWakeup(states: seq<Hub>, steps: seq<Step>, i: nat, bell: Bell)
    requires IsRun(states, steps) && i < |states|
    requires bell in states[i].watchers && states[i].watchers[bell].phase.Suspended?
    requires !states[i].watchers[bell].permit && bell !in states[i].owed
    ensures var b := states[i].watchers[bell].beat;
            Tells(states[i].book, b, NameSet(b.watch), map[]) && NameSet(b.watch) <= states[i].book.Keys
  {
    hide IsRun;
    InvThroughout(states, steps, i);
    assert Safe(states[i], bell);
    var b := states[i].watchers[bell].beat;
    forall n | n in b.watch ensures Quiet(states[i].book, n, b) {}
  }
}
