/** The shape of a pool: its policy, its size and the methods it serves. */
module Shapes {
  import opened Basics
  import opened Values
  import opened Protocol
  import opened PoolModel
  import opened PoolRuns
  import Holding

  /** The shape a pool keeps while anyone is in it. */
  predicate SameShape(p: PoolState, q: PoolState) {
    p.policy == q.policy && p.size == q.size && (p.methods != [] ==> q.methods == p.methods)
  }

  lemma ActKeepsShape(p: PoolState, b: Beat, deadline: Time)
    ensures var q := Acted(p, b, deadline);
            q.policy == p.policy && q.size == p.size && q.methods == p.methods
  {
    hide MemberHash, Trimmed;
  }

  lemma {:induction false} DropsKeepShape(p: PoolState, order: seq<nat>)
    ensures var q := Dropped(p, order);
            q.policy == p.policy && q.size == p.size && q.methods == p.methods
    decreases |order|
  {
    hide MemberHash, Trimmed;
    if order != [] {
      DropsKeepShape(if order[0] in p.members then Bumped(Without(p, order[0]), order[0]) else p, order[1..]);
    }
  }

  /** Nothing that happens to an occupied pool changes its policy or size, or takes back
      methods it has learned. */
  lemma OccupiedKeepsShape(p: PoolState, step: Step, q: PoolState, ttl: nat)
    requires Next(p, step, q, ttl) && p.members != map[]
    ensures SameShape(p, q)
  {
    hide Acted, Superseded, Admissible, Dropped;
    match step
    case Lands(b, now) => ActKeepsShape(Shaped(p, b), b, now + ttl);
    case Sweep(now, alive, order) => DropsKeepShape(Tidied(p, now, alive), order);
    case Wait(_, _) =>
  }

  /** Versions only rise, and an unchanged version means nobody came or went. */
  lemma ActAndVersion(p: PoolState, b: Beat, deadline: Time)
    ensures var q := Acted(p, b, deadline);
            q.version >= p.version && (q.version == p.version ==> q.members.Keys == p.members.Keys)
  {
    hide MemberHash, Trimmed;
  }

  lemma StepAndVersion(p: PoolState, step: Step, q: PoolState, ttl: nat)
    requires Next(p, step, q, ttl)
    ensures q.version >= p.version && (q.version == p.version ==> q.members.Keys == p.members.Keys)
  {
    hide Acted, Superseded, Admissible, Dropped;
    match step
    case Lands(b, now) => ActAndVersion(Shaped(p, b), b, now + ttl);
    case Sweep(now, alive, order) => Holding.DropsAndTheList(Tidied(p, now, alive), order);
    case Wait(_, _) =>
  }

  lemma {:induction false} VersionsRise(states: seq<PoolState>, steps: seq<Step>, ttl: nat, i: nat, j: nat)
    requires IsRun(states, steps, ttl) && i <= j < |states|
    ensures states[i].version <= states[j].version
    decreases j
  {
    hide Next;
    if i < j {
      VersionsRise(states, steps, ttl, i, j - 1);
      StepAndVersion(states[j - 1], steps[j - 1], states[j], ttl);
    }
  }

  /** Shape agreement. A version that names an occupied roster names its policy and size
      too: over every run, wherever the pool is at that version it has that shape. So a
      replica with anyone in it carries the size its registry waits for. */
  lemma {:induction false} VersionNamesShape(states: seq<PoolState>, steps: seq<Step>, ttl: nat, i: nat, j: nat)
    requires IsRun(states, steps, ttl) && i <= j < |states|
    requires states[i].version == states[j].version && states[i].members != map[]
    ensures SameShape(states[i], states[j]) && states[j].members != map[]
    decreases j
  {
    hide Next;
    if i < j {
      VersionsRise(states, steps, ttl, i, j - 1);
      StepAndVersion(states[j - 1], steps[j - 1], states[j], ttl);
      VersionNamesShape(states, steps, ttl, i, j - 1);
      OccupiedKeepsShape(states[j - 1], steps[j - 1], states[j], ttl);
      assert states[j].members.Keys == states[j - 1].members.Keys;
    }
  }

  /** A goodbye of a tenure that is not stored leaves no trace but its shape: all of it in an
      empty pool, its methods in an occupied one that serves none. The version stands still,
      so a subscriber at that version is told nothing. */
  lemma GoodbyeReshapesQuietly(p: PoolState, b: Beat, deadline: Time)
    requires Admissible(b) && b.leaving && b.incarnation >= Watermark(p, b.id) && b.id !in p.members
    requires p.members != map[] ==> !Disagrees(p, b)
    ensures var q := OnBeat(p, b, deadline);
            && Accepts(p, b) && q.version == p.version && q.members == p.members
            && q.policy == b.policy && (p.members == map[] ==> q.size == b.size && q.methods == b.methods)
            && (p.members != map[] ==> q.size == p.size && q.methods == if p.methods == [] then b.methods else p.methods)
            && Answers(q, Some(p.version), None)
  {
    hide Admissible;
  }

  lemma {:induction false} FreshId(ids: set<nat>) returns (id: nat)
    ensures id !in ids && forall x | x in ids :: x < id
  {
    id := 0;
    if ids != {} {
      var x :| x in ids;
      var y := FreshId(ids - {x});
      id := Max(y, x + 1);
      forall z | z in ids ensures z < id { assert z == x || z in ids - {x}; }
    }
  }

  /** Policy, size and methods, all three. */
  predicate ShapedAlike(p: PoolState, q: PoolState) { p.policy == q.policy && p.size == q.size && p.methods == q.methods }

  /** Every beat that changes this pool's shape also gives it a new version. */
  ghost predicate ReshapesAloud(p: PoolState) {
    forall b, deadline :: OnBeat(p, b, deadline).version == p.version ==> ShapedAlike(p, OnBeat(p, b, deadline))
  }

  /** That is so exactly while somebody is in the pool and it has methods to serve. */
  lemma ReshapedAloudExactly(p: PoolState)
    ensures ReshapesAloud(p) <==> p.members != map[] && p.methods != []
  {
    hide OnBeat, Admissible;
    if p.members != map[] && p.methods != [] {
      forall b, deadline ensures ShapedAlike(p, OnBeat(p, b, deadline)) {
        OccupiedKeepsShape(p, Lands(b, 0), OnBeat(p, b, deadline), deadline);
      }
    } else {
      var id := FreshId(p.high.Keys + p.members.Keys);
      var b := if p.members == map[] then Leaver(id, p.policy + ".", []) else Leaver(id, p.policy, ["m"]);
      AdmissibleLeaver(id, b.policy, b.methods);
      GoodbyeReshapesQuietly(p, b, 0);
      assert !ShapedAlike(p, OnBeat(p, b, 0));
    }
  }

  /** Policy and size alone are safe as soon as somebody is in the pool. */
  lemma ResizedAloudWhileOccupied(p: PoolState)
    ensures (forall b, deadline :: OnBeat(p, b, deadline).version == p.version ==> SameShape(p, OnBeat(p, b, deadline))) <==>
            p.members != map[]
  {
    hide OnBeat, Admissible;
    if p.members != map[] {
      forall b, deadline ensures SameShape(p, OnBeat(p, b, deadline)) {
        OccupiedKeepsShape(p, Lands(b, 0), OnBeat(p, b, deadline), deadline);
      }
    } else {
      var id := FreshId(p.high.Keys);
      AdmissibleLeaver(id, p.policy + ".", []);
      GoodbyeReshapesQuietly(p, Leaver(id, p.policy + ".", []), 0);
      assert !SameShape(p, OnBeat(p, Leaver(id, p.policy + ".", []), 0));
    }
  }

  function Leaver(id: nat, policy: string, methods: seq<string>): Beat {
    Beat("train", None, id, 0, None, policy, None, None, Null, 4, false, true, false, methods, [], map[], 0)
  }

  lemma AdmissibleLeaver(id: nat, policy: string, methods: seq<string>)
    requires methods == [] || methods == ["m"]
    ensures Admissible(Leaver(id, policy, methods))
  {
  }

  function Rank(tenure: nat, size: nat): Beat {
    Beat("train", Some(7), 7, tenure, None, "frozen", Some(size), None, Null, 4, false, false, false, [], [], map[], 0)
  }

  /** Even a refusal does it. Once the only member's lease has lapsed, a beat refused for
      its old tenure still reshapes the pool, the version stands still, and a subscriber
      at that version is told nothing. */
  lemma RefusedBeatReshapesQuietly(now: Time, ttl: nat)
    ensures var joined := OnBeat(EMPTY_POOL, Rank(5, 4), now + ttl);
            var lapsed := Swept(joined, now + ttl, {}, [7]);
            var reshaped := OnBeat(lapsed, Rank(3, 8), now + ttl + ttl);
            && Lists([7], Expired(joined, now + ttl)) && !Accepts(lapsed, Rank(3, 8))
            && lapsed.size == Some(4) && reshaped.size == Some(8) && reshaped.version == lapsed.version
            && Answers(reshaped, Some(lapsed.version), None)
  {
    hide MemberHash, Trimmed;
    var joined := OnBeat(EMPTY_POOL, Rank(5, 4), now + ttl);
    assert joined.members.Keys == {7} && joined.members[7].expiresAt == now + ttl && joined.high[7] == 5;
    assert Swept(joined, now + ttl, {}, [7]).members == map[];
  }

  // ------------------------------------------------------------------- what a beat may say

  /** An admissible beat to an empty pool gives it its shape, whole, accepted or not. */
  lemma EmptyTakesShape(p: PoolState, b: Beat, deadline: Time)
    requires Admissible(b) && p.members == map[]
    ensures var q := OnBeat(p, b, deadline);
            q.policy == b.policy && q.size == b.size && q.methods == b.methods
  {
    hide Acted, Admissible, Superseded;
    ActKeepsShape(Shaped(p, b), b, deadline);
  }

  /** To an occupied pool that serves nothing yet it gives its methods, if it does not disagree
      otherwise. */
  lemma MethodsAreLearned(p: PoolState, b: Beat, deadline: Time)
    requires Admissible(b) && p.members != map[]
    ensures var q := OnBeat(p, b, deadline);
            var agrees := b.policy == p.policy && (b.size.None? || b.size == p.size);
            q.methods == if p.methods == [] && agrees then b.methods else p.methods
  {
    hide Acted, Admissible, Superseded;
    ActKeepsShape(Shaped(p, b), b, deadline);
  }

  /** A beat is turned away for its shape exactly when somebody is in the pool and it names
      another policy, or another size; leaving the size out is no disagreement. */
  lemma RefusedForShapeExactly(p: PoolState, b: Beat)
    ensures Misshapen(p, b) <==>
            p.members != map[] && (b.policy != p.policy || (b.size.Some? && b.size != p.size))
    ensures Accepts(p, b) && p.members != map[] ==> b.policy == p.policy && (b.size.None? || b.size == p.size)
  {
    hide Admissible, Superseded;
  }

  /** What is refused unread: a name over 512 characters, a tenure from a broken clock,
      more than 64 watched pools or 256 methods, a state over 16KiB. */
  lemma AdmissibleExactly(b: Beat)
    ensures !Admissible(b) <==>
            || |b.pool| > 512 || b.incarnation > 4_000_000_000_000 * 1_048_576
            || |b.watch| > 64 || (exists w | w in b.watch :: |w| > 512)
            || (b.url.Some? && |b.url.value| > 512)
            || |b.methods| > 256 || (exists m | m in b.methods :: |m| > 512)
            || b.stateBytes > 16_384
  {
  }
}
