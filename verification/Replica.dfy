/** What a client holds of the registry, and what one acknowledgement does to it. */
module Replicas {
  import opened Basics
  import opened Protocol

  /** One cached pool, without the lookup structures derived from its roster. */
  datatype Replica = Replica(version: nat, roster: nat, roll: Roll, methods: seq<string>, size: Option<nat>)

  const FRESH_REPLICA: Replica := Replica(0, 0, map[], [], None)

  type Cache = map<Name, Replica>

  function Updated(c: Replica, d: PoolDelta): Replica {
    Replica(d.version, d.roster, Patched(c.roll, d), d.methods, d.size)
  }

  /** `seenEpoch` is zero until the first acknowledgement. */
  datatype ClientState = ClientState(cache: Cache, seenEpoch: nat, accepted: bool, refused: bool)

  const NEW_CLIENT: ClientState := ClientState(map[], 0, true, false)

  /** The positions a beat reports: the version of every watched pool it holds. */
  function SeenOf(cache: Cache, watch: seq<Name>): map<Name, nat> {
    map n | n in watch && n in cache :: cache[n].version
  }

  /** The acknowledgement comes from another registry process than the cache did. */
  predicate Restarted(c: ClientState, ack: BeatAck) {
    c.seenEpoch != 0 && c.seenEpoch != ack.epoch
  }

  function EntryOf(cache: Cache, n: Name): Replica { if n in cache then cache[n] else FRESH_REPLICA }

  /** After a restart only a full roster is safe; otherwise anything not older. */
  predicate Takes(cache: Cache, restarted: bool, n: Name, d: PoolDelta) {
    !(restarted && !d.full) && d.version >= EntryOf(cache, n).version
  }

  function Merged(cache: Cache, restarted: bool, pools: map<Name, PoolDelta>): Cache {
    map n | n in cache.Keys + pools.Keys && (n in cache || Takes(cache, restarted, n, pools[n])) ::
      if n in pools && Takes(cache, restarted, n, pools[n]) then Updated(EntryOf(cache, n), pools[n]) else cache[n]
  }

  function Kept(c: ClientState, ack: BeatAck): Cache { if Restarted(c, ack) then map[] else c.cache }

  function Applied(c: ClientState, ack: BeatAck): ClientState {
    if !ack.accepted then ClientState(Kept(c, ack), ack.epoch, false, c.refused || ack.refused)
    else ClientState(Merged(Kept(c, ack), Restarted(c, ack), ack.pools), ack.epoch, c.accepted, c.refused)
  }

  /** The highest publication an accepted beat has shown. */
  function Confirming(confirmed: nat, accepted: bool, shown: Option<nat>): nat {
    if accepted && shown.Some? then Max(confirmed, shown.value) else confirmed
  }

  /** Whether waiters need to look again. */
  predicate Stirs(c: ClientState, ack: BeatAck) {
    || (Restarted(c, ack) && c.cache != map[])
    || (!ack.accepted && c.accepted)
    || (ack.accepted && exists n | n in ack.pools :: Takes(Kept(c, ack), Restarted(c, ack), n, ack.pools[n]))
  }

  /** If waiters are not told, there was nothing to tell: the cache and the fencing
      flag are what they were. */
  lemma QuietAckChangesNothing(c: ClientState, ack: BeatAck)
    requires !Stirs(c, ack)
    ensures Applied(c, ack).cache == c.cache && Applied(c, ack).accepted == c.accepted
  {
  }

  /** Fencing is for good. */
  lemma FencedForGood(c: ClientState, ack: BeatAck)
    ensures !c.accepted ==> !Applied(c, ack).accepted
  {
  }

  /** Within one epoch no cached pool is lost and none goes back. */
  lemma NeverGoesBack(c: ClientState, ack: BeatAck, n: Name)
    requires !Restarted(c, ack) && n in c.cache
    ensures n in Applied(c, ack).cache && c.cache[n].version <= Applied(c, ack).cache[n].version
  {
  }

  /** A delta that is now what the cache holds, and not of an older version than it held. */
  predicate Brought(c: ClientState, ack: BeatAck, n: Name) {
    && n in ack.pools && n in Applied(c, ack).cache && Applied(c, ack).cache[n].version == ack.pools[n].version
    && (n in c.cache && c.seenEpoch == ack.epoch ==> c.cache[n].version <= ack.pools[n].version)
  }

  /** And if they are told, there was something: another process emptied the cache, the seat
      was lost, or a delta was taken. */
  lemma LoudAckBringsSomething(c: ClientState, ack: BeatAck)
    requires Stirs(c, ack)
    ensures || (c.cache != map[] && c.seenEpoch != ack.epoch)
            || (c.accepted && !Applied(c, ack).accepted)
            || (ack.accepted && exists n :: Brought(c, ack, n))
  {
    if ack.accepted && exists n | n in ack.pools :: Takes(Kept(c, ack), Restarted(c, ack), n, ack.pools[n]) {
      var n :| n in ack.pools && Takes(Kept(c, ack), Restarted(c, ack), n, ack.pools[n]);
      assert Brought(c, ack, n);
    }
  }

  /** An answer with no news, from the process already known, tells nobody anything. */
  lemma EmptyAckIsQuiet(c: ClientState, ack: BeatAck)
    requires ack.accepted && ack.pools == map[] && c.seenEpoch == ack.epoch
    ensures !Stirs(c, ack) && Applied(c, ack) == c
  {
    assert Applied(c, ack).cache == c.cache;
  }

  /** The seat is kept exactly as long as every beat has been accepted, and why it was lost is
      remembered. */
  lemma SeatHeldExactly(c: ClientState, ack: BeatAck)
    ensures Applied(c, ack).accepted <==> c.accepted && ack.accepted
    ensures Applied(c, ack).refused <==> c.refused || (!ack.accepted && ack.refused)
    ensures Applied(c, ack).seenEpoch == ack.epoch
  {
    hide Merged;
  }
}
