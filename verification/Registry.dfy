/** The registry: named pools behind one lock, answering beats and sweeping leases. */
module Registries {
  import opened Basics
  import opened Protocol
  import opened PoolModel
  import opened Pools

  /** All pools as values; the whole state one registry process holds. */
  type Book = map<Name, PoolState>

  function PoolAt(book: Book, name: Name): PoolState {
    if name in book then book[name] else EMPTY_POOL
  }

  function BookAfterBeat(book: Book, b: Beat, now: Time, ttl: nat): Book {
    if Admissible(b) then book[b.pool := OnBeat(PoolAt(book, b.pool), b, now + ttl)] else book
  }

  function SeenAt(b: Beat, name: Name): Option<nat> {
    if name in b.seen then Some(b.seen[name]) else None
  }

  /** One answer for each watched pool that exists and has moved, and no other. */
  ghost predicate Tells(book: Book, b: Beat, names: set<Name>, answers: map<Name, PoolDelta>) {
    && answers.Keys <= names * book.Keys
    && forall n | n in names * book.Keys ::
         Answers(book[n], SeenAt(b, n), if n in answers then Some(answers[n]) else None)
  }

  function NameSet(names: seq<Name>): set<Name> { set n | n in names }

  /** The reply to a beat that found the registry in `book`. */
  ghost predicate Replies(book: Book, b: Beat, now: Time, ttl: nat, epoch: nat, ack: BeatAck) {
    && ack.epoch == epoch && ack.ttlMs == ttl
    && ack.accepted == Accepts(PoolAt(book, b.pool), b)
    && ack.refused == (Admissible(b) && Misshapen(PoolAt(book, b.pool), b))
    && (!Admissible(b) || ack.refused ==> ack.pools == map[])
    && (Admissible(b) && !ack.refused ==> Tells(BookAfterBeat(book, b, now, ttl), b, NameSet(b.watch), ack.pools))
  }

  /** A reason is given exactly when somebody is in the pool and the beat names another policy
      or size for it; a beat that is merely too late gets none, and an inadmissible one gets
      nothing at all. */
  lemma ReasonGivenExactly(book: Book, b: Beat, now: Time, ttl: nat, epoch: nat, ack: BeatAck)
    requires Replies(book, b, now, ttl, epoch, ack)
    ensures ack.refused <==>
            Admissible(b) && b.pool in book && book[b.pool].members != map[] &&
            (b.policy != book[b.pool].policy || (b.size.Some? && b.size != book[b.pool].size))
    ensures ack.refused || !Admissible(b) ==> !ack.accepted && ack.pools == map[]
  {
    hide Tells, Admissible, Superseded;
  }

  lemma TellsMore(book: Book, b: Beat, names: set<Name>, answers: map<Name, PoolDelta>, name: Name, answer: Option<PoolDelta>)
    requires Tells(book, b, names, answers)
    requires if name in book then Answers(book[name], SeenAt(b, name), answer) else answer.None?
    ensures Tells(book, b, names + {name}, if answer.Some? then answers[name := answer.value] else answers)
  {
    hide IsDelta;
  }

  lemma TellsNothing(book: Book, b: Beat)
    ensures Tells(book, b, {}, map[])
  {
  }

  function BookAfterPark(book: Book, watch: seq<Name>, bell: Bell): Book {
    if watch == [] then book else
      var before, n := BookAfterPark(book, watch[..|watch| - 1], bell), watch[|watch| - 1];
      var p := PoolAt(before, n);
      before[n := p.(waiters := p.waiters + [bell])]
  }

  /** Each pool swept in an order of its own. */
  ghost predicate SweptBook(book: Book, now: Time, alive: set<Bell>, orders: map<Name, seq<nat>>, after: Book) {
    && orders.Keys == book.Keys && after.Keys == book.Keys
    && forall n | n in book ::
         Lists(orders[n], Expired(book[n], now)) && after[n] == Swept(book[n], now, alive, orders[n])
  }

  /** Some of the pools swept, the rest as they were. */
  ghost predicate SweptSome(book: Book, now: Time, alive: set<Bell>, left: set<Name>, orders: map<Name, seq<nat>>, after: Book) {
    && left <= book.Keys && orders.Keys == book.Keys - left && after.Keys == book.Keys
    && (forall n | n in left :: after[n] == book[n])
    && forall n | n in orders ::
         Lists(orders[n], Expired(book[n], now)) && after[n] == Swept(book[n], now, alive, orders[n])
  }

  lemma SweptMore(book: Book, now: Time, alive: set<Bell>, left: set<Name>, orders: map<Name, seq<nat>>, after: Book,
                  name: Name, order: seq<nat>)
    requires SweptSome(book, now, alive, left, orders, after) && name in left
    requires Lists(order, Expired(after[name], now))
    ensures SweptSome(book, now, alive, left - {name}, orders[name := order],
                      after[name := Swept(after[name], now, alive, order)])
  {
    hide Lists, Expired, Swept;
  }

  function Tagged(n: Name, ids: set<nat>): set<(Name, nat)> { set id | id in ids :: (n, id) }

  /** Every lease that has run out, in the pools named. */
  ghost function LapsedIn(book: Book, now: Time, names: set<Name>): set<(Name, nat)>
    requires names <= book.Keys
  {
    set n, id | n in names && id in Expired(book[n], now) :: (n, id)
  }

  /** The bells of the pools that lost someone, and no others. */
  ghost predicate RingsFor(book: Book, alive: set<Bell>, orders: map<Name, seq<nat>>, woken: seq<Bell>) {
    forall bell :: bell in woken <==>
      exists n | n in orders && n in book :: orders[n] != [] && bell in Rung(book[n].waiters, alive)
  }

  /** What a sweep of the pools in `orders` reports: how many leases lapsed, whom to ring. */
  ghost predicate Accounts(book: Book, now: Time, alive: set<Bell>, orders: map<Name, seq<nat>>, dropped: nat, woken: seq<Bell>) {
    orders.Keys <= book.Keys && dropped == |LapsedIn(book, now, orders.Keys)| && RingsFor(book, alive, orders, woken)
  }

  lemma {:induction false} TaggedSize(n: Name, ids: set<nat>)
    ensures |Tagged(n, ids)| == |ids|
  {
    if ids != {} {
      var id :| id in ids;
      TaggedSize(n, ids - {id});
      assert Tagged(n, ids) == Tagged(n, ids - {id}) + {(n, id)};
    }
  }

  lemma {:induction false} ListedSize(order: seq<nat>)
    requires forall i, j | 0 <= i < j < |order| :: order[i] != order[j]
    ensures |IdSet(order)| == |order|
  {
    if order != [] {
      var front, last := order[..|order| - 1], order[|order| - 1];
      ListedSize(front);
      assert IdSet(order) == IdSet(front) + {last};
    }
  }

  lemma LapsedMore(book: Book, now: Time, names: set<Name>, n: Name, order: seq<nat>)
    requires names <= book.Keys && n in book && n !in names && Lists(order, Expired(book[n], now))
    ensures |LapsedIn(book, now, names + {n})| == |LapsedIn(book, now, names)| + |order|
  {
    hide Expired;
    assert LapsedIn(book, now, names + {n}) == LapsedIn(book, now, names) + Tagged(n, Expired(book[n], now));
    TaggedSize(n, IdSet(order));
    ListedSize(order);
  }

  lemma RingsMore(book: Book, alive: set<Bell>, orders: map<Name, seq<nat>>, woken: seq<Bell>, n: Name, order: seq<nat>)
    requires RingsFor(book, alive, orders, woken) && n in book && n !in orders
    ensures RingsFor(book, alive, orders[n := order],
                     woken + if order == [] then [] else Rung(book[n].waiters, alive))
  {
    hide Rung;
    var more := orders[n := order];
    var rung := woken + if order == [] then [] else Rung(book[n].waiters, alive);
    forall bell
      ensures bell in rung <==> exists m | m in more && m in book :: more[m] != [] && bell in Rung(book[m].waiters, alive)
    {
      if bell in rung && bell !in woken { assert more[n] != [] && bell in Rung(book[n].waiters, alive); }
      if bell in woken {
        var m :| m in orders && m in book && orders[m] != [] && bell in Rung(book[m].waiters, alive);
        assert more[m] == orders[m];
      }
      if m :| m in more && m in book && more[m] != [] && bell in Rung(book[m].waiters, alive) {
        assert m != n ==> orders[m] == more[m];
      }
    }
  }

  lemma AccountsMore(book: Book, now: Time, alive: set<Bell>, orders: map<Name, seq<nat>>, dropped: nat, woken: seq<Bell>,
                     n: Name, order: seq<nat>)
    requires Accounts(book, now, alive, orders, dropped, woken) && n in book && n !in orders
    requires Lists(order, Expired(book[n], now))
    ensures Accounts(book, now, alive, orders[n := order], dropped + |order|,
                     woken + if order == [] then [] else Rung(book[n].waiters, alive))
  {
    hide LapsedIn, RingsFor, Lists, Expired, Rung;
    LapsedMore(book, now, orders.Keys, n, order);
    RingsMore(book, alive, orders, woken, n, order);
    assert orders[n := order].Keys == orders.Keys + {n};
  }

  lemma AccountsNone(book: Book, now: Time, alive: set<Bell>)
    ensures Accounts(book, now, alive, map[], 0, [])
  {
  }

  class Registry {
    var pools: map<Name, Pool>
    const ttl: nat
    const epoch: nat

    ghost function Repr(): set<object>
      reads this`pools
    {
      (set n | n in pools :: pools[n] as object) + (set n | n in pools :: pools[n].cache as object)
    }

    ghost predicate Separate()
      reads this`pools
    {
      forall m, n | m in pools && n in pools && m != n :: pools[m] != pools[n] && pools[m].cache != pools[n].cache
    }

    ghost predicate Valid()
      reads this`pools, Repr()
    {
      Separate() && forall n | n in pools :: pools[n].Valid()
    }

    ghost function View(): Book
      reads this`pools, Repr()
    {
      map n | n in pools :: pools[n].View()
    }

    constructor (ttl: nat, epoch: nat)
      ensures Valid() && View() == map[] && this.ttl == ttl && this.epoch == epoch
    {
      pools := map[];
      this.ttl, this.epoch := ttl, epoch;
    }

    lemma AtName(name: Name)
      requires Valid() && name in pools
      ensures pools[name].Valid() && View().Keys == pools.Keys && View()[name] == pools[name].View()
      ensures forall n | n in pools && n != name :: pools[n] != pools[name] && pools[n].cache != pools[name].cache
    {
    }

    /** Pools share nothing, so working on one leaves the others as they were. */
    twostate lemma OthersUntouched(name: Name)
      requires old(Valid()) && pools == old(pools) && name in pools && pools[name].Valid()
      requires forall n | n in pools && n != name :: unchanged(pools[n]) && unchanged(pools[n].cache)
      ensures Valid() && View() == old(View())[name := pools[name].View()]
    {
      hide Pool.Valid, Pool.View;
      forall n | n in pools && n != name ensures pools[n].Valid() && pools[n].View() == old(pools[n].View()) {
        assert old(pools[n].Valid());
      }
    }

    twostate predicate NameAdded(name: Name)
      reads this`pools
    {
      && name !in old(pools) && name in pools && pools == old(pools)[name := pools[name]]
      && fresh(pools[name]) && fresh(pools[name].cache)
    }

    twostate lemma AddedSeparate(name: Name)
      requires old(Separate()) && NameAdded(name)
      ensures Separate()
    {
    }

    twostate lemma AddedRepr(name: Name)
      requires NameAdded(name)
      ensures Repr() == old(Repr()) + {pools[name], pools[name].cache}
    {
      assert forall n | n in old(pools) :: pools[n] == old(pools)[n];
    }

    /** A new name is a new object, and nothing else moved. */
    twostate lemma Added(name: Name)
      requires old(Valid()) && NameAdded(name) && pools[name].Valid()
      requires forall n | n in old(pools) :: unchanged(pools[n]) && unchanged(pools[n].cache)
      ensures Valid() && View() == old(View())[name := pools[name].View()]
      ensures fresh(Repr() - old(Repr()))
    {
      hide Pool.Valid, Pool.View, Separate, Repr;
      AddedSeparate(name);
      AddedRepr(name);
      forall n | n in old(pools) ensures pools[n].Valid() && pools[n].View() == old(pools[n].View()) {
        assert old(pools[n].Valid());
      }
    }

    /** `entry(name).or_default()` */
    method Entry(name: Name) returns (p: Pool)
      requires Valid()
      modifies this
      ensures Valid() && name in pools && pools[name] == p
      ensures View() == old(View())[name := PoolAt(old(View()), name)]
      ensures fresh(Repr() - old(Repr()))
    {
      hide Pool.Valid, Pool.View, Registry.Valid, Registry.View;
      KeysOf();
      if name !in pools {
        p := new Pool();
        pools := pools[name := p];
        Added(name);
      } else {
        p := pools[name];
      }
    }

    /** What a watcher would be told right now: reads the pools, fills their caches,
        changes nothing anyone can see. */
    method DeltasFor(b: Beat) returns (answers: map<Name, PoolDelta>)
      requires Valid()
      modifies Repr()
      ensures Valid() && View() == old(View()) && pools == old(pools)
      ensures Tells(View(), b, NameSet(b.watch), answers)
    {
      hide Pool.Valid, Pool.View, Answers, Registry.Valid, Registry.View, Tells;
      answers := map[];
      var i := 0;
      TellsNothing(View(), b);
      assert NameSet(b.watch[..0]) == {};
      while i < |b.watch|
        invariant 0 <= i <= |b.watch|
        invariant Valid() && pools == old(pools) && View() == old(View())
        invariant Tells(View(), b, NameSet(b.watch[..i]), answers)
      {
        var name := b.watch[i];
        KeysOf();
        var d := None;
        if name in pools { d := Ask(name, SeenAt(b, name)); }
        TellsMore(View(), b, NameSet(b.watch[..i]), answers, name, d);
        if d.Some? { answers := answers[name := d.value]; }
        assert b.watch[..i + 1] == b.watch[..i] + [name];
        assert NameSet(b.watch[..i + 1]) == NameSet(b.watch[..i]) + {name};
        i := i + 1;
      }
      assert b.watch[..i] == b.watch;
    }

    lemma KeysOf()
      ensures View().Keys == pools.Keys
    {
    }

    method Ask(name: Name, seen: Option<nat>) returns (answer: Option<PoolDelta>)
      requires Valid() && name in pools
      modifies Repr()
      ensures Valid() && View() == old(View()) && pools == old(pools)
      ensures name in View() && Answers(View()[name], seen, answer)
    {
      hide Pool.Valid, Pool.View, Answers, Registry.Valid, Registry.View;
      AtName(name);
      label before:
      answer := pools[name].Delta(seen);
      OthersUntouched@before(name);
      AtName(name);
    }

    /** A beat: the pool it names is updated, then its watched pools are read. The
        bells to ring are returned, to be rung once the lock is gone. */
    method BeatShared(b: Beat, now: Time) returns (ack: BeatAck, woken: seq<Bell>)
      requires Valid()
      modifies this, Repr()
      ensures Valid() && View() == BookAfterBeat(old(View()), b, now, ttl)
      ensures Replies(old(View()), b, now, ttl, epoch, ack)
      ensures woken == if PoolAt(View(), b.pool).version == PoolAt(old(View()), b.pool).version then []
                       else PoolAt(old(View()), b.pool).waiters
      ensures fresh(Repr() - old(Repr()))
    {
      hide Pool.Valid, Tells, OnBeat, Registry.Valid, Registry.View, Accepts, Misshapen, Admissible;
      if !Admissible(b) {
        NeverAccepted(View(), b);
        return BeatAck(epoch, ttl, false, false, map[]), [];
      }
      var accepted, refused;
      accepted, refused, woken := Deliver(b, now);
      if refused {
        return BeatAck(epoch, ttl, false, true, map[]), woken;
      }
      var answers := DeltasFor(b);
      ack := BeatAck(epoch, ttl, accepted, false, answers);
    }

    method Deliver(b: Beat, now: Time) returns (accepted: bool, refused: bool, woken: seq<Bell>)
      requires Valid() && Admissible(b)
      modifies this, Repr()
      ensures Valid() && View() == BookAfterBeat(old(View()), b, now, ttl)
      ensures accepted == Accepts(PoolAt(old(View()), b.pool), b)
      ensures refused == Misshapen(PoolAt(old(View()), b.pool), b) && (refused ==> !accepted)
      ensures woken == if PoolAt(View(), b.pool).version == PoolAt(old(View()), b.pool).version then []
                       else PoolAt(old(View()), b.pool).waiters
      ensures fresh(Repr() - old(Repr()))
    {
      hide Pool.Valid, OnBeat, Registry.Valid, Registry.View, Misshapen, Admissible;
      var p := Entry(b.pool);
      AtName(b.pool);
      assert p.View() == PoolAt(old(View()), b.pool);
      label before:
      accepted, refused, woken := p.TakeBeat(b, now + ttl);
      OthersUntouched@before(b.pool);
      AtName(b.pool);
    }

    method Park(watch: seq<Name>, bell: Bell)
      requires Valid()
      modifies this, Repr()
      ensures Valid() && View() == BookAfterPark(old(View()), watch, bell)
      ensures fresh(Repr() - old(Repr()))
    {
      hide Pool.Valid, Pool.View, Registry.Valid, Registry.View;
      var i := 0;
      assert watch[..0] == [];
      while i < |watch|
        invariant 0 <= i <= |watch| && Valid()
        invariant View() == BookAfterPark(old(View()), watch[..i], bell)
        invariant fresh(Repr() - old(Repr()))
      {
        ParkOne(watch[i], bell);
        assert watch[..i + 1][..i] == watch[..i];
        i := i + 1;
      }
      assert watch[..i] == watch;
    }

    method ParkOne(name: Name, bell: Bell)
      requires Valid()
      modifies this, Repr()
      ensures Valid()
      ensures var p := PoolAt(old(View()), name);
              View() == old(View())[name := p.(waiters := p.waiters + [bell])]
      ensures fresh(Repr() - old(Repr()))
    {
      hide Pool.Valid, Registry.Valid, Registry.View;
      var p := Entry(name);
      AtName(name);
      label before:
      p.Park(bell);
      OthersUntouched@before(name);
    }

    method Sweep(now: Time, alive: set<Bell>)
      returns (dropped: nat, woken: seq<Bell>, ghost orders: map<Name, seq<nat>>)
      requires Valid()
      modifies Repr()
      ensures Valid() && pools == old(pools)
      ensures SweptBook(old(View()), now, alive, orders, View())
      ensures Accounts(old(View()), now, alive, orders, dropped, woken)
    {
      hide Pool.Valid, Pool.View, Swept, Expired, Lists, Registry.Valid, Registry.View, SweptSome, Accounts, Rung;
      dropped, woken, orders := 0, [], map[];
      var left := pools.Keys;
      ghost var before := View();
      KeysOf();
      SweptNone(before, now, alive);
      AccountsNone(before, now, alive);
      while left != {}
        invariant left <= pools.Keys && Valid() && pools == old(pools)
        invariant SweptSome(before, now, alive, left, orders, View())
        invariant Accounts(before, now, alive, orders, dropped, woken)
        decreases left
      {
        var name :| name in left;
        AtName(name);
        pools[name].BellsShown();
        label sweeping:
        var count, rung;
        ghost var order;
        count, rung, order := pools[name].Sweep(now, alive);
        OthersUntouched@sweeping(name);
        NotYetSwept(before, now, alive, left, orders, old@sweeping(View()), name);
        SweptMore(before, now, alive, left, orders, old@sweeping(View()), name, order);
        AccountsMore(before, now, alive, orders, dropped, woken, name, order);
        dropped, woken := dropped + count, woken + rung;
        orders := orders[name := order];
        left := left - {name};
      }
      SweptAll(before, now, alive, orders, View());
    }
  }

  lemma NotYetSwept(book: Book, now: Time, alive: set<Bell>, left: set<Name>, orders: map<Name, seq<nat>>, after: Book,
                    name: Name)
    requires SweptSome(book, now, alive, left, orders, after) && name in left
    ensures name in book && name in after && after[name] == book[name] && name !in orders
  {
  }

  lemma SweptNone(book: Book, now: Time, alive: set<Bell>)
    ensures SweptSome(book, now, alive, book.Keys, map[], book)
  {
  }

  lemma SweptAll(book: Book, now: Time, alive: set<Bell>, orders: map<Name, seq<nat>>, after: Book)
    requires SweptSome(book, now, alive, {}, orders, after)
    ensures SweptBook(book, now, alive, orders, after)
  {
    hide Lists, Expired, Swept;
  }

  lemma NeverAccepted(book: Book, b: Beat)
    requires !Admissible(b)
    ensures !Accepts(PoolAt(book, b.pool), b)
  {
  }
}
