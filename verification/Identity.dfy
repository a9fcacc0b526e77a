/** Printed identities: `pool/key#incarnation`, where the key is the slot if there is
    one and the id otherwise. Pool names may contain any character, so an identity is
    read from the right. */
module Identities {
  import opened Basics
  import opened Values
  import opened Protocol

  // ------------------------------------------------------------------- decimals

  predicate IsDigit(c: char) { '0' <= c <= '9' }

  function DigitOf(d: nat): (c: char)
    requires d < 10
    ensures IsDigit(c) && DigitValue(c) == d
  {
    "0123456789"[d]
  }

  function DigitValue(c: char): int { c as int - '0' as int }

  predicate AllDigits(s: string) { forall c | c in s :: IsDigit(c) }

  function Decimal(n: nat): string {
    if n < 10 then [DigitOf(n)] else Decimal(n / 10) + [DigitOf(n % 10)]
  }

  function DecimalValue(s: string): nat
    requires AllDigits(s)
  {
    if s == [] then 0 else
      assert s[|s| - 1] in s && forall c | c in s[..|s| - 1] :: c in s;
      10 * DecimalValue(s[..|s| - 1]) + DigitValue(s[|s| - 1])
  }

  /** Reading a u64: an optional plus, then at least one digit, without overflow. */
  function ParseU64(s: string): Option<nat> {
    var t := if s != [] && s[0] == '+' then s[1..] else s;
    if t == [] || !AllDigits(t) || DecimalValue(t) >= TWO_64 then None else Some(DecimalValue(t))
  }

  lemma {:induction false} DecimalReadsBack(n: nat)
    ensures Decimal(n) != [] && AllDigits(Decimal(n)) && DecimalValue(Decimal(n)) == n
  {
    if n >= 10 {
      DecimalReadsBack(n / 10);
      var front, s := Decimal(n / 10), Decimal(n);
      assert s[..|s| - 1] == front && s[|s| - 1] == DigitOf(n % 10);
    } else {
      assert Decimal(n)[..0] == [];
    }
  }

  lemma ParsesBack(n: nat)
    ensures ParseU64(Decimal(n)) == if n < TWO_64 then Some(n) else None
  {
    DecimalReadsBack(n);
    assert Decimal(n)[0] in Decimal(n);
  }

  lemma {:induction false} ZeroInFront(s: string)
    requires AllDigits(s)
    ensures AllDigits(['0'] + s) && DecimalValue(['0'] + s) == DecimalValue(s)
  {
    if s == [] {
      assert (['0'] + s)[..0] == [];
    } else {
      var front, last := s[..|s| - 1], s[|s| - 1];
      assert last in s && forall c | c in front :: c in s;
      ZeroInFront(front);
      assert (['0'] + s)[..|s|] == ['0'] + front;
    }
  }

  /** A number is read with a plus or zeros in front of it just as without. */
  lemma PlusAndZerosAreRead(n: nat)
    ensures ParseU64("+" + Decimal(n)) == ParseU64(Decimal(n)) == ParseU64("0" + Decimal(n))
  {
    DecimalReadsBack(n);
    assert Decimal(n)[0] in Decimal(n);
    assert ("+" + Decimal(n))[1..] == Decimal(n);
    ZeroInFront(Decimal(n));
  }

  // ------------------------------------------------------------------- splitting

  datatype Halves = Halves(left: string, right: string)

  /** Split at the last occurrence. */
  function SplitLast(s: string, c: char): Option<Halves> {
    if s == [] then None
    else if s[|s| - 1] == c then Some(Halves(s[..|s| - 1], []))
    else match SplitLast(s[..|s| - 1], c)
      case None => None
      case Some(h) => Some(Halves(h.left, h.right + [s[|s| - 1]]))
  }

  lemma {:induction false} SplitsAtLast(a: string, c: char, b: string)
    requires c !in b
    ensures SplitLast(a + [c] + b, c) == Some(Halves(a, b))
    decreases |b|
  {
    var s := a + [c] + b;
    if b == [] {
      assert s[..|s| - 1] == a;
    } else {
      var front := b[..|b| - 1];
      assert s[..|s| - 1] == a + [c] + front && s[|s| - 1] == b[|b| - 1];
      assert b[|b| - 1] in b && b == front + [b[|b| - 1]];
      SplitsAtLast(a, c, front);
    }
  }

  // ------------------------------------------------------------------ identities

  datatype Parts = Parts(pool: string, key: nat, incarnation: nat)

  function KeyOfMember(m: Member): nat { if m.slot.Some? then m.slot.value else m.id }

  function MemberIdentity(pool: string, m: Member): string {
    pool + "/" + Decimal(KeyOfMember(m)) + "#" + Decimal(m.incarnation)
  }

  function IdentityParts(identity: string): Option<Parts> {
    match SplitLast(identity, '#')
    case None => None
    case Some(h) =>
      match SplitLast(h.left, '/')
      case None => None
      case Some(g) =>
        match (ParseU64(g.right), ParseU64(h.right))
        case (Some(key), Some(incarnation)) => Some(Parts(g.left, key, incarnation))
        case _ => None
  }

  predicate IdentityMatches(pool: string, m: Member, identity: string) {
    IdentityParts(identity) == Some(Parts(pool, KeyOfMember(m), m.incarnation))
  }

  lemma DigitsHoldNoMarks(n: nat)
    ensures '#' !in Decimal(n) && '/' !in Decimal(n)
  {
    DecimalReadsBack(n);
  }

  /** Ids, slots and tenures are 64-bit on the wire. */
  predicate Fits64(m: Member) { KeyOfMember(m) < TWO_64 && m.incarnation < TWO_64 }

  /** Printing then reading gives back the pool, the key and the tenure, even for a pool
      whose own name contains the separators. */
  lemma IdentityReadsBack(pool: string, m: Member)
    ensures IdentityParts(MemberIdentity(pool, m)) ==
            if Fits64(m) then Some(Parts(pool, KeyOfMember(m), m.incarnation)) else None
  {
    var key, inc := Decimal(KeyOfMember(m)), Decimal(m.incarnation);
    var head := pool + "/" + key;
    DigitsHoldNoMarks(KeyOfMember(m));
    DigitsHoldNoMarks(m.incarnation);
    assert MemberIdentity(pool, m) == head + ['#'] + inc;
    SplitsAtLast(head, '#', inc);
    assert head == pool + ['/'] + key;
    SplitsAtLast(pool, '/', key);
    ParsesBack(KeyOfMember(m));
    ParsesBack(m.incarnation);
  }

  /** So an identity printed for one member names another exactly when they share pool,
      key and tenure. */
  lemma IdentityNamesOne(pool: string, m: Member, other: string, n: Member)
    ensures IdentityMatches(other, n, MemberIdentity(pool, m)) <==>
            Fits64(m) && other == pool && KeyOfMember(n) == KeyOfMember(m) && n.incarnation == m.incarnation
  {
    IdentityReadsBack(pool, m);
  }
}
