/** What a member publishes about itself, and why a confirmed publication is never
    rolled back while its record stays. */
module Publications {
  import opened Basics
  import opened Values
  import opened Protocol
  import opened PoolModel
  import opened PoolRuns

  datatype Payload = Payload(state: Value, ready: bool, url: Option<string>)

  /** The member's own copy. The number and what it names change together, under one
      lock. */
  class Published {
    var state: Value
    var ready: bool
    var url: Option<string>
    var version: nat
    /** Everything ever published, by number. */
    ghost var named: seq<Payload>

    ghost predicate Valid()
      reads this
    {
      |named| == version + 1 && named[version] == Payload(state, ready, url)
    }

    constructor (url: Option<string>)
      ensures Valid() && version == 0
    {
      state, ready, this.url, version := Object(map[]), false, url, 0;
      named := [Payload(Object(map[]), false, url)];
    }

    /** Republishing what is already out changes nothing and takes no number. */
    method SetState(s: Value, r: bool) returns (moved: bool)
      requires Valid()
      modifies this
      ensures Valid() && state == s && ready == r && url == old(url)
      ensures moved <==> old(state) != s || old(ready) != r
      ensures named == old(named) + if moved then [Payload(s, r, url)] else []
    {
      if state == s && ready == r { return false; }
      state, ready := s, r;
      version := version + 1;
      named := named + [Payload(s, r, url)];
      return true;
    }

    method SetStateOnly(s: Value) returns (moved: bool)
      requires Valid()
      modifies this
      ensures Valid() && state == s && ready == old(ready) && url == old(url)
      ensures moved <==> old(state) != s
      ensures named == old(named) + if moved then [Payload(s, ready, url)] else []
    {
      if state == s { return false; }
      state := s;
      version := version + 1;
      named := named + [Payload(s, ready, url)];
      return true;
    }

    method SetUrl(u: Option<string>) returns (moved: bool)
      requires Valid()
      modifies this
      ensures Valid() && url == u && state == old(state) && ready == old(ready)
      ensures moved <==> old(url) != u
      ensures named == old(named) + if moved then [Payload(state, ready, u)] else []
    {
      if url == u { return false; }
      url := u;
      version := version + 1;
      named := named + [Payload(state, ready, u)];
      return true;
    }

    /** The payload a beat carries, with the number that names it. */
    method Show() returns (p: Payload, number: nat)
      requires Valid()
      ensures number < |named| && named[number] == p && number == |named| - 1
    {
      p, number := Payload(state, ready, url), version;
    }
  }

  // -------------------------------------------------------- in the registry's hands

  function PayloadOf(r: Record): Payload { Payload(r.member.state, r.member.ready, r.member.url) }

  function Carried(b: Beat): Payload { Payload(b.state, b.ready, b.url) }

  /** Every beat of this tenure carries a number and exactly the payload it names,
      however late it arrives. */
  ghost predicate NamesOnePayload(steps: seq<Step>, id: nat, tenure: nat, named: seq<Payload>) {
    forall m | 0 <= m < |steps| && OfTenure(steps[m], id, tenure) ::
      steps[m].beat.publication.Some? && steps[m].beat.publication.value < |named| &&
      Carried(steps[m].beat) == named[steps[m].beat.publication.value]
  }

  predicate OfTenure(step: Step, id: nat, tenure: nat) {
    step.Lands? && step.beat.id == id && step.beat.incarnation == tenure
  }

  /** A beat of this tenure that the pool took in. */
  predicate Delivered(states: seq<PoolState>, steps: seq<Step>, m: nat, id: nat, tenure: nat)
    requires |states| == |steps| + 1 && m < |steps|
  {
    OfTenure(steps[m], id, tenure) && !steps[m].beat.leaving && Accepts(states[m], steps[m].beat)
  }

  /** The record is there, uninterrupted. */
  ghost predicate Resident(states: seq<PoolState>, from: nat, to: nat, id: nat, tenure: nat)
    requires to < |states|
  {
    forall m | from <= m <= to :: Stored(states[m], id) == Some(tenure)
  }

  /** The record at j shows the highest number delivered in c .. j and the payload that
      number names. */
  ghost predicate ShowsHighest(states: seq<PoolState>, steps: seq<Step>, c: nat, j: nat, id: nat, tenure: nat,
                               named: seq<Payload>)
    requires |states| == |steps| + 1 && j <= |steps|
  {
    && Stored(states[j], id) == Some(tenure)
    && var r := states[j].members[id];
       && r.publication.Some? && r.publication.value < |named| && PayloadOf(r) == named[r.publication.value]
       && (forall m | c <= m < j && Delivered(states, steps, m, id, tenure) ::
             steps[m].beat.publication.Some? && steps[m].beat.publication.value <= r.publication.value)
       && (exists m | c <= m < j :: Delivered(states, steps, m, id, tenure) && steps[m].beat.publication == r.publication)
  }

  /** A step that leaves the record in place either renews it or leaves it alone. */
  lemma ResidentStep(p: PoolState, step: Step, q: PoolState, ttl: nat, id: nat, tenure: nat)
    requires Next(p, step, q, ttl) && Stored(p, id) == Some(tenure) && Stored(q, id) == Some(tenure)
    ensures if OfTenure(step, id, tenure) && !step.beat.leaving && Accepts(p, step.beat)
            then q.members[id] == Refreshed(p.members[id], step.beat, step.now + ttl)
            else q.members[id] == p.members[id]
  {
    hide OnBeat, Swept, Expired, Accepts, Refreshed;
    match step {
      case Lands(b, now) =>
        if b.id != id { BeatElsewhere(p, b, now + ttl, id); }
        else if Accepts(p, b) { BeatAtSeat(p, b, now + ttl); }
        else { RefusedAtSeat(p, b, now + ttl); }
      case Sweep(now, alive, order) => SweepSeats(p, now, alive, order, id);
      case Wait(_, _) =>
    }
  }

  lemma RefreshShows(r: Record, b: Beat, deadline: Time, named: seq<Payload>)
    requires r.publication.Some? && r.publication.value < |named| && PayloadOf(r) == named[r.publication.value]
    requires b.publication.Some? && b.publication.value < |named| && Carried(b) == named[b.publication.value]
    ensures var q := Refreshed(r, b, deadline);
            q.publication == Some(Max(r.publication.value, b.publication.value)) &&
            PayloadOf(q) == named[q.publication.value]
  {
  }

  lemma CreationShows(states: seq<PoolState>, steps: seq<Step>, ttl: nat, c: nat, id: nat, tenure: nat, named: seq<Payload>)
    requires IsRun(states, steps, ttl) && c < |steps| && NamesOnePayload(steps, id, tenure, named)
    requires Stored(states[c], id) != Some(tenure) && Stored(states[c + 1], id) == Some(tenure)
    ensures ShowsHighest(states, steps, c, c + 1, id, tenure, named) && Delivered(states, steps, c, id, tenure)
  {
    hide OnBeat, Swept, Expired, Accepts, Refreshed;
    var p, step, q := states[c], steps[c], states[c + 1];
    assert Next(p, step, q, ttl);
    match step {
      case Lands(b, now) =>
        if b.id != id { BeatElsewhere(p, b, now + ttl, id); }
        else if Accepts(p, b) { BeatAtSeat(p, b, now + ttl); }
        else { RefusedAtSeat(p, b, now + ttl); }
      case Sweep(now, alive, order) => SweepSeats(p, now, alive, order, id);
      case Wait(_, _) =>
    }
  }

  /** No rollback. However one tenure's beats are delayed, duplicated or reordered, the
      record shows the highest publication delivered since the record was created at
      step c, with exactly the payload published under that number. */
  lemma {:induction false} HighestPublicationShows(states: seq<PoolState>, steps: seq<Step>, ttl: nat, c: nat, j: nat,
                                                   id: nat, tenure: nat, named: seq<Payload>)
    requires IsRun(states, steps, ttl) && c < j <= |steps| && NamesOnePayload(steps, id, tenure, named)
    requires Stored(states[c], id) != Some(tenure) && Resident(states, c + 1, j, id, tenure)
    ensures ShowsHighest(states, steps, c, j, id, tenure, named)
    decreases j
  {
    hide Next, Accepts, Refreshed;
    if j == c + 1 {
      CreationShows(states, steps, ttl, c, id, tenure, named);
    } else {
      HighestPublicationShows(states, steps, ttl, c, j - 1, id, tenure, named);
      var p, step, q := states[j - 1], steps[j - 1], states[j];
      assert Next(p, step, q, ttl);
      ResidentStep(p, step, q, ttl, id, tenure);
      if Delivered(states, steps, j - 1, id, tenure) {
        RefreshShows(p.members[id], step.beat, step.now + ttl, named);
        var w :| c <= w < j - 1 && Delivered(states, steps, w, id, tenure) &&
                 steps[w].beat.publication == p.members[id].publication;
        assert steps[w].beat.publication == q.members[id].publication || step.beat.publication == q.members[id].publication;
      }
    }
  }

  /** So a flush means what it says: once a beat showing publication v has been accepted
      at step k, the record shows v or later for as long as it stays. */
  lemma {:induction false} ConfirmedStaysPublished(states: seq<PoolState>, steps: seq<Step>, ttl: nat, k: nat, j: nat,
                                                   id: nat, tenure: nat)
    requires IsRun(states, steps, ttl) && k < j <= |steps| && Delivered(states, steps, k, id, tenure)
    requires steps[k].beat.publication.Some? && Resident(states, k + 1, j, id, tenure)
    ensures states[j].members[id].publication.Some?
    ensures states[j].members[id].publication.value >= steps[k].beat.publication.value
    decreases j
  {
    hide OnBeat, Swept, Accepts, Expired;
    var p, step, q := states[j - 1], steps[j - 1], states[j];
    assert Next(p, step, q, ttl);
    if j == k + 1 {
      BeatAtSeat(p, step.beat, step.now + ttl);
    } else {
      ConfirmedStaysPublished(states, steps, ttl, k, j - 1, id, tenure);
      ResidentStep(p, step, q, ttl, id, tenure);
    }
  }

  function Numbered(n: nat): Beat {
    Beat("p", None, 7, 1, Some(n), "", None, None, Null, 4, n % 2 == 0, false, false, [], [], map[], 0)
  }

  /** And no longer than that: when the lease lapses the record goes, and a delayed beat
      of the same tenure brings back what it carried, older number and all. */
  lemma RollbackAfterExpiry(now: Time, ttl: nat)
    ensures var shown := OnBeat(EMPTY_POOL, Numbered(6), now + ttl);
            var lapsed := Swept(shown, now + ttl, {}, [7]);
            var revived := OnBeat(lapsed, Numbered(3), now + ttl + ttl);
            && Lists([7], Expired(shown, now + ttl)) && 7 in shown.members && 7 in revived.members
            && shown.members[7].publication == Some(6) && shown.members[7].member.ready
            && revived.members[7].publication == Some(3) && !revived.members[7].member.ready
  {
    hide MemberHash, Trimmed;
    var shown := OnBeat(EMPTY_POOL, Numbered(6), now + ttl);
    assert Accepts(EMPTY_POOL, Numbered(6));
    BeatAtSeat(EMPTY_POOL, Numbered(6), now + ttl);
    assert shown.members.Keys == {7};
    assert Expired(shown, now + ttl) == {7} == IdSet([7]);
    var lapsed := Swept(shown, now + ttl, {}, [7]);
    SweepSeats(shown, now + ttl, {}, [7], 7);
    assert lapsed.members == map[];
    assert Accepts(lapsed, Numbered(3));
    BeatAtSeat(lapsed, Numbered(3), now + ttl + ttl);
  }
}
