/** The messages members and the registry exchange, and the roster fingerprint. */
module Protocol {
  import opened Basics
  import opened Values

  type Name = string
  /** Milliseconds on a clock that never goes backwards. */
  type Time = nat

  datatype Member = Member(
    id: nat,
    slot: Option<nat>,
    incarnation: nat,
    url: Option<string>,
    state: Value,
    ready: bool)

  datatype Beat = Beat(
    pool: Name,
    slot: Option<nat>,
    id: nat,
    incarnation: nat,
    publication: Option<nat>,
    policy: string,
    size: Option<nat>,
    url: Option<string>,
    state: Value,
    stateBytes: nat,          // serialized length of `state`, as the encoder reports it
    ready: bool,
    leaving: bool,
    exclusive: bool,
    methods: seq<string>,
    watch: seq<Name>,
    seen: map<Name, nat>,
    holdMs: nat)

  datatype PoolDelta = PoolDelta(
    version: nat,
    roster: nat,
    policy: string,
    methods: seq<string>,
    size: Option<nat>,
    changed: seq<Member>,
    removed: seq<nat>,
    full: bool)

  datatype BeatAck = BeatAck(
    epoch: nat,
    ttlMs: nat,
    accepted: bool,
    refused: bool,            // refused over the pool's shape, not over the seat
    pools: map<Name, PoolDelta>)

  /** A roster as clients see it. */
  type Roll = map<nat, Member>

  // ---------------------------------------------------------- applying a delta

  /** Inserting a list of members one after another; the last word on an id wins. */
  function Inserted(roll: Roll, changed: seq<Member>): Roll {
    if changed == [] then roll else
      var last := changed[|changed| - 1];
      Inserted(roll, changed[..|changed| - 1])[last.id := last]
  }

  function IdSet(ids: seq<nat>): set<nat> { set x | x in ids }

  /** What a replica holds after a delta. */
  function Patched(roll: Roll, d: PoolDelta): Roll {
    Inserted(if d.full then map[] else roll, d.changed) - IdSet(d.removed)
  }

  /** Distinct ids: every member listed is the one found under its id. */
  ghost predicate DistinctIds(changed: seq<Member>) {
    forall i, j | 0 <= i < j < |changed| :: changed[i].id != changed[j].id
  }

  function ChangedIds(changed: seq<Member>): set<nat> { set m | m in changed :: m.id }

  predicate ListsId(changed: seq<Member>, k: nat) {
    exists i | 0 <= i < |changed| :: changed[i].id == k
  }

  lemma {:induction false} InsertedElsewhere(roll: Roll, changed: seq<Member>, k: nat)
    ensures k in Inserted(roll, changed) <==> k in roll || ListsId(changed, k)
    ensures k in roll && !ListsId(changed, k) ==> Inserted(roll, changed)[k] == roll[k]
  {
    if changed != [] {
      var front, last := changed[..|changed| - 1], changed[|changed| - 1];
      InsertedElsewhere(roll, front, k);
      assert ListsId(front, k) ==> ListsId(changed, k) by {
        if ListsId(front, k) {
          var i :| 0 <= i < |front| && front[i].id == k;
          assert changed[i].id == k;
        }
      }
      assert ListsId(changed, k) && k != last.id ==> ListsId(front, k) by {
        if ListsId(changed, k) && k != last.id {
          var i :| 0 <= i < |changed| && changed[i].id == k;
          assert front[i].id == k;
        }
      }
    }
  }

  lemma {:induction false} InsertedListed(roll: Roll, changed: seq<Member>, i: nat)
    requires DistinctIds(changed) && i < |changed|
    ensures changed[i].id in Inserted(roll, changed) && Inserted(roll, changed)[changed[i].id] == changed[i]
  {
    if i < |changed| - 1 {
      InsertedListed(roll, changed[..|changed| - 1], i);
    }
  }

  /** A list of members with distinct ids lands exactly where it says. */
  lemma InsertedContents(roll: Roll, changed: seq<Member>)
    requires DistinctIds(changed)
    ensures Inserted(roll, changed).Keys == roll.Keys + ChangedIds(changed)
    ensures forall m | m in changed :: Inserted(roll, changed)[m.id] == m
    ensures forall k | k in roll && k !in ChangedIds(changed) :: Inserted(roll, changed)[k] == roll[k]
  {
    forall k ensures k in ChangedIds(changed) <==> ListsId(changed, k) {}
    forall k
      ensures k in Inserted(roll, changed) <==> k in roll || k in ChangedIds(changed)
      ensures k in roll && k !in ChangedIds(changed) ==> Inserted(roll, changed)[k] == roll[k]
    {
      InsertedElsewhere(roll, changed, k);
    }
    forall m | m in changed ensures m.id in Inserted(roll, changed) && Inserted(roll, changed)[m.id] == m {
      var i :| 0 <= i < |changed| && changed[i] == m;
      InsertedListed(roll, changed, i);
    }
  }

  // ------------------------------------------------------------ the fingerprint

  /** Who is here: a seat and the tenure that occupies it. */
  datatype Occupant = Occupant(id: nat, incarnation: nat)

  function LittleEndian(n: nat, width: nat): seq<nat> {
    if width == 0 then [] else [n % 256] + LittleEndian(n / 256, width - 1)
  }

  const FNV_BASIS: nat := 1469598103934665603
  const FNV_PRIME: nat := 1099511628211

  function Fnv(h: nat, bytes: seq<nat>): nat
    decreases |bytes|
  {
    if bytes == [] then h else Fnv(Xor(h, bytes[0]) * FNV_PRIME % TWO_64, bytes[1..])
  }

  /** A member's contribution: a 64-bit FNV-1a hash of seat and tenure. */
  function RosterHash(o: Occupant): nat {
    Fnv(FNV_BASIS, Encoded(o))
  }

  /** The hash, folded in byte by byte. */
  method HashOccupant(id: nat, incarnation: nat) returns (h: nat)
    ensures h == RosterHash(Occupant(id, incarnation))
  {
    var bytes := LittleEndian(id, 8) + LittleEndian(incarnation, 8);
    h := FNV_BASIS;
    var i := 0;
    while i < |bytes|
      invariant 0 <= i <= |bytes| && Fnv(h, bytes[i..]) == Fnv(FNV_BASIS, bytes)
    {
      h := Xor(h, bytes[i]) * FNV_PRIME % TWO_64;
      i := i + 1;
    }
  }

  /** The inverse of the multiplier modulo 2 to the 64. */
  const FNV_INVERSE: nat := 14886173955864302971

  lemma {:induction false} XorBelow(a: nat, b: nat, bits: nat)
    requires a < Pow2(bits) && b < Pow2(bits)
    ensures Xor(a, b) < Pow2(bits)
  {
    if a != 0 && b != 0 { XorBelow(a / 2, b / 2, bits - 1); }
  }

  function Pow2(bits: nat): nat { if bits == 0 then 1 else 2 * Pow2(bits - 1) }

  lemma EightBits(n: nat)
    ensures Pow2(n + 8) == 256 * Pow2(n)
  {
    assert Pow2(n + 2) == 4 * Pow2(n) && Pow2(n + 4) == 4 * Pow2(n + 2);
    assert Pow2(n + 6) == 4 * Pow2(n + 4) && Pow2(n + 8) == 4 * Pow2(n + 6);
  }

  lemma SixtyFourBits()
    ensures Pow2(64) == TWO_64
  {
    EightBits(0); EightBits(8); EightBits(16); EightBits(24);
    EightBits(32); EightBits(40); EightBits(48); EightBits(56);
  }

  lemma Wrapped(x: nat, turns: int)
    requires x < TWO_64
    ensures (x + TWO_64 * turns) % TWO_64 == x
  {
  }

  /** Multiplying loses nothing: the multiplier is odd. */
  lemma Unmultiplied(x: nat)
    requires x < TWO_64
    ensures (x * FNV_PRIME % TWO_64) * FNV_INVERSE % TWO_64 == x
  {
    var q := x * FNV_PRIME / TWO_64;
    assert x * FNV_PRIME % TWO_64 == x * FNV_PRIME - q * TWO_64;
    assert FNV_PRIME * FNV_INVERSE == 1 + 887285111055 * TWO_64;
    assert (x * FNV_PRIME % TWO_64) * FNV_INVERSE == x + TWO_64 * (x * 887285111055 - q * FNV_INVERSE);
    Wrapped(x, x * 887285111055 - q * FNV_INVERSE);
  }

  lemma MixApart(h: nat, byte: nat, g: nat, other: nat)
    requires h < TWO_64 && g < TWO_64 && byte < 256 && other < 256 && (h != g <==> byte == other)
    ensures Xor(h, byte) * FNV_PRIME % TWO_64 != Xor(g, other) * FNV_PRIME % TWO_64
  {
    SixtyFourBits();
    XorBelow(h, byte, 64);
    XorBelow(g, other, 64);
    Unmultiplied(Xor(h, byte));
    Unmultiplied(Xor(g, other));
    XorCancel(h, byte);
    XorCancel(g, other);
    XorComm(h, byte);
    XorComm(g, other);
    XorCancel(byte, h);
    XorCancel(other, g);
  }

  predicate Bytes(s: seq<nat>) { forall i | 0 <= i < |s| :: s[i] < 256 }

  /** What differs stays different through the rest of the bytes. */
  lemma {:induction false} FnvApart(h: nat, g: nat, bytes: seq<nat>)
    requires h < TWO_64 && g < TWO_64 && h != g && Bytes(bytes)
    ensures Fnv(h, bytes) != Fnv(g, bytes)
    decreases |bytes|
  {
    hide Xor;
    if bytes != [] {
      MixApart(h, bytes[0], g, bytes[0]);
      FnvApart(Xor(h, bytes[0]) * FNV_PRIME % TWO_64, Xor(g, bytes[0]) * FNV_PRIME % TWO_64, bytes[1..]);
    }
  }

  /** Two strings of bytes that differ in exactly one place hash apart. */
  lemma {:induction false} OneByteApart(h: nat, a: seq<nat>, b: seq<nat>, i: nat)
    requires h < TWO_64 && Bytes(a) && Bytes(b) && i < |a| == |b| && a[i] != b[i]
    requires forall j | 0 <= j < |a| && j != i :: a[j] == b[j]
    ensures Fnv(h, a) != Fnv(h, b)
    decreases |a|
  {
    hide Xor;
    if i == 0 {
      MixApart(h, a[0], h, b[0]);
      assert a[1..] == b[1..];
      FnvApart(Xor(h, a[0]) * FNV_PRIME % TWO_64, Xor(h, b[0]) * FNV_PRIME % TWO_64, a[1..]);
    } else {
      OneByteApart(Xor(h, a[0]) * FNV_PRIME % TWO_64, a[1..], b[1..], i - 1);
    }
  }

  lemma {:induction false} LittleEndianBytes(n: nat, width: nat)
    ensures |LittleEndian(n, width)| == width && Bytes(LittleEndian(n, width))
  {
    if width > 0 { LittleEndianBytes(n / 256, width - 1); }
  }

  /** Seat and tenure as the bytes that are hashed. */
  function Encoded(o: Occupant): seq<nat> { LittleEndian(o.id, 8) + LittleEndian(o.incarnation, 8) }

  /** The two differ in byte i and in no other. */
  predicate DifferAt(o: Occupant, p: Occupant, i: nat) {
    && i < |Encoded(o)| == |Encoded(p)| && Encoded(o)[i] != Encoded(p)[i]
    && forall j | 0 <= j < |Encoded(o)| && j != i :: Encoded(o)[j] == Encoded(p)[j]
  }

  /** The hash moves with the seat and with the tenure: occupants that differ in one byte of
      either, whichever it is, never share a hash. */
  lemma NeighboursHashApart(o: Occupant, p: Occupant, i: nat)
    requires DifferAt(o, p, i)
    ensures RosterHash(o) != RosterHash(p)
  {
    hide Fnv;
    LittleEndianBytes(o.id, 8);
    LittleEndianBytes(p.id, 8);
    LittleEndianBytes(o.incarnation, 8);
    LittleEndianBytes(p.incarnation, 8);
    OneByteApart(FNV_BASIS, Encoded(o), Encoded(p), i);
  }

  /** Counting a tenure up moves one byte, unless it carries. */
  lemma NextTenureDiffers(o: Occupant)
    requires o.incarnation % 256 != 255
    ensures DifferAt(o, Occupant(o.id, o.incarnation + 1), 8)
  {
    LittleEndianBytes(o.id, 8);
    LittleEndianBytes(o.incarnation, 8);
    LittleEndianBytes(o.incarnation + 1, 8);
    assert o.incarnation / 256 == (o.incarnation + 1) / 256;
  }

  ghost function SomeOccupant(s: set<Occupant>): (o: Occupant)
    requires s != {}
    ensures o in s
  {
    var o :| o in s; o
  }

  /** The exclusive or of every occupant's hash, taken in an arbitrary order. */
  ghost function Fingerprint(s: set<Occupant>): nat {
    if s == {} then 0 else
      Xor(RosterHash(SomeOccupant(s)), Fingerprint(s - {SomeOccupant(s)}))
  }

  /** The order does not matter: any occupant can be the one folded in last. */
  lemma {:induction false} FingerprintRemove(s: set<Occupant>, o: Occupant)
    requires o in s
    ensures Fingerprint(s) == Xor(RosterHash(o), Fingerprint(s - {o}))
    decreases s
  {
    var first := SomeOccupant(s);
    if first != o {
      var rest := s - {first} - {o};
      assert rest == s - {o} - {first};
      FingerprintRemove(s - {first}, o);
      FingerprintRemove(s - {o}, first);
      XorSwap(RosterHash(first), RosterHash(o), Fingerprint(rest));
    }
  }

  /** So a neighbour taking over a seat always shows in the fingerprint, whoever else is
      there: no collision is possible. */
  lemma SuccessorShows(s: set<Occupant>, o: Occupant, p: Occupant, i: nat)
    requires o in s && p !in s && DifferAt(o, p, i)
    ensures Fingerprint(s - {o} + {p}) != Fingerprint(s)
  {
    hide Fingerprint, RosterHash, Xor, DifferAt;
    var rest := s - {o};
    NeighboursHashApart(o, p, i);
    FingerprintRemove(s, o);
    FingerprintRemove(rest + {p}, p);
    assert rest + {p} - {p} == rest;
    XorCancel(RosterHash(o), Fingerprint(rest));
    XorCancel(RosterHash(p), Fingerprint(rest));
  }

  function OccupantOf(m: Member): Occupant { Occupant(m.id, m.incarnation) }

  function MemberHash(m: Member): nat { RosterHash(OccupantOf(m)) }

  function Occupants(roll: Roll): set<Occupant> {
    set k | k in roll :: OccupantOf(roll[k])
  }

  /** Every member sits under its own id. */
  predicate WellKeyed(roll: Roll) { forall k | k in roll :: roll[k].id == k }

  ghost function RosterOf(roll: Roll): nat { Fingerprint(Occupants(roll)) }

  /** Folding a stored member's hash in again takes it out of the fingerprint. */
  lemma RosterWithout(roll: Roll, k: nat)
    requires WellKeyed(roll) && k in roll
    ensures Xor(RosterOf(roll), MemberHash(roll[k])) == RosterOf(roll - {k})
  {
    var o := OccupantOf(roll[k]);
    var fewer := roll - {k};
    forall x ensures x in Occupants(fewer) <==> x in Occupants(roll) - {o} {
      if x in Occupants(roll) - {o} {
        var j :| j in roll && x == OccupantOf(roll[j]);
        assert j in fewer && x == OccupantOf(fewer[j]);
      }
    }
    assert Occupants(fewer) == Occupants(roll) - {o};
    FingerprintRemove(Occupants(roll), o);
    XorComm(RosterHash(o), RosterOf(roll - {k}));
    XorCancel(RosterOf(roll - {k}), RosterHash(o));
  }

  /** And folding a newcomer's in adds it. */
  lemma RosterWith(roll: Roll, m: Member)
    requires WellKeyed(roll) && m.id !in roll
    ensures Xor(RosterOf(roll), MemberHash(m)) == RosterOf(roll[m.id := m])
  {
    var more := roll[m.id := m];
    RosterWithout(more, m.id);
    assert more - {m.id} == roll;
    XorCancel(RosterOf(more), MemberHash(m));
  }

  /** Replacing a member by one with the same seat and tenure changes nothing. */
  lemma RosterSameTenure(roll: Roll, m: Member)
    requires WellKeyed(roll) && m.id in roll && roll[m.id].incarnation == m.incarnation
    ensures RosterOf(roll[m.id := m]) == RosterOf(roll)
  {
    var more := roll[m.id := m];
    forall o ensures o in Occupants(roll) <==> o in Occupants(more) {
      if o in Occupants(roll) {
        var k :| k in roll && o == OccupantOf(roll[k]);
        assert k in more && o == OccupantOf(more[k]);
      }
      if o in Occupants(more) {
        var k :| k in more && o == OccupantOf(more[k]);
        assert k in roll && o == OccupantOf(roll[k]);
      }
    }
    assert Occupants(roll) == Occupants(more);
  }

  /** The list form a frozen view folds over agrees with the set form. */
  function FoldRoster(members: seq<Member>): nat {
    if members == [] then 0 else
      Xor(FoldRoster(members[..|members| - 1]), MemberHash(members[|members| - 1]))
  }

  lemma {:induction false} FoldRosterIsFingerprint(members: seq<Member>)
    requires DistinctIds(members)
    ensures FoldRoster(members) == Fingerprint(set m | m in members :: OccupantOf(m))
  {
    var all := set m | m in members :: OccupantOf(m);
    if members == [] {
      assert all == {};
    } else {
      var front, last := members[..|members| - 1], members[|members| - 1];
      var others := set m | m in front :: OccupantOf(m);
      FoldRosterIsFingerprint(front);
      assert all == others + {OccupantOf(last)};
      assert OccupantOf(last) !in others;
      assert all - {OccupantOf(last)} == others;
      FingerprintRemove(all, OccupantOf(last));
      XorComm(MemberHash(last), FoldRoster(front));
    }
  }
}
