/** Small shared vocabulary: options, ascending listings of finite sets, and
    the exclusive-or the roster fingerprint is made of. */
module Basics {

  datatype Option<+T> = None | Some(value: T)

  function Min(a: int, b: int): int { if a < b then a else b }

  function Max(a: int, b: int): int { if a < b then b else a }

  function Clamp(x: int, lo: int, hi: int): int { Min(Max(x, lo), hi) }

  // ---------------------------------------------------------------- ascending

  lemma LeastExists(s: set<nat>)
    requires s != {}
    ensures exists m :: m in s && forall x | x in s :: m <= x
  {
    var m :| m in s;
    while exists x :: x in s && x < m
      invariant m in s
      decreases m
    {
      var lower :| lower in s && lower < m;
      m := lower;
    }
  }

  function Least(s: set<nat>): (m: nat)
    requires s != {}
    ensures m in s && forall x | x in s :: m <= x
  {
    LeastExists(s);
    var m :| m in s && forall x | x in s :: m <= x;
    m
  }

  predicate StrictlyAscending(q: seq<nat>) {
    forall i, j | 0 <= i < j < |q| :: q[i] < q[j]
  }

  ghost predicate ListsSet(q: seq<nat>, s: set<nat>) {
    StrictlyAscending(q) && |q| == |s| && forall x :: x in q <==> x in s
  }

  /** The sorted listing of a set of ids: a collected key set after `sort_unstable`
      (and `dedup`, for a list that may repeat). */
  function Ascending(s: set<nat>): (q: seq<nat>)
    ensures ListsSet(q, s)
  {
    if s == {} then [] else
      var m := Least(s);
      var rest := Ascending(s - {m});
      assert forall x | x in rest :: x in s - {m} && m < x;
      [m] + rest
  }

  /** A set has one sorted listing. */
  lemma {:induction false} AscendingUnique(q: seq<nat>, r: seq<nat>)
    requires StrictlyAscending(q) && StrictlyAscending(r)
    requires |q| == |r| && forall x :: x in q <==> x in r
    ensures q == r
    decreases |q|
  {
    if q != [] {
      assert q[0] in r;
      assert r[0] in q;
      assert q[0] == r[0];
      forall x ensures x in q[1..] <==> x in r[1..] {
        if x in q[1..] { assert x in q; assert x in r; }
        if x in r[1..] { assert x in r; assert x in q; }
      }
      AscendingUnique(q[1..], r[1..]);
      assert q == [q[0]] + q[1..] && r == [r[0]] + r[1..];
    }
  }

  /** Filtering a sorted listing keeps it the sorted listing of what is kept. */
  function Keep(q: seq<nat>, keep: nat -> bool): (r: seq<nat>)
    ensures forall x :: x in r <==> x in q && keep(x)
  {
    if q == [] then [] else
      var rest := Keep(q[1..], keep);
      assert q == [q[0]] + q[1..];
      if keep(q[0]) then [q[0]] + rest else rest
  }

  lemma {:induction false} KeepAscending(q: seq<nat>, keep: nat -> bool)
    requires StrictlyAscending(q)
    ensures StrictlyAscending(Keep(q, keep))
  {
    if q != [] {
      var rest := Keep(q[1..], keep);
      KeepAscending(q[1..], keep);
      forall i | 0 <= i < |rest| ensures q[0] < rest[i] { assert rest[i] in q[1..]; }
    }
  }

  // ------------------------------------------------------------ exclusive or

  predicate Odd(a: nat) { a % 2 == 1 }

  /** Bitwise exclusive or on naturals. */
  function Xor(a: nat, b: nat): nat {
    if a == 0 then b else if b == 0 then a
    else 2 * Xor(a / 2, b / 2) + (if Odd(a) == Odd(b) then 0 else 1)
  }

  lemma {:induction false} XorDigit(a: nat, b: nat)
    ensures Xor(a, b) / 2 == Xor(a / 2, b / 2)
    ensures Odd(Xor(a, b)) == (Odd(a) != Odd(b))
  {
  }

  lemma {:induction false} XorComm(a: nat, b: nat)
    ensures Xor(a, b) == Xor(b, a)
    decreases a
  {
    if a != 0 && b != 0 { XorComm(a / 2, b / 2); }
  }

  lemma SameDigits(l: nat, r: nat)
    requires l / 2 == r / 2 && Odd(l) == Odd(r)
    ensures l == r
  {
  }

  lemma {:induction false} XorAssoc(a: nat, b: nat, c: nat)
    ensures Xor(Xor(a, b), c) == Xor(a, Xor(b, c))
    decreases a
  {
    if a != 0 {
      XorAssoc(a / 2, b / 2, c / 2);
      XorDigit(a, b);
      XorDigit(Xor(a, b), c);
      XorDigit(b, c);
      XorDigit(a, Xor(b, c));
      SameDigits(Xor(Xor(a, b), c), Xor(a, Xor(b, c)));
    }
  }

  lemma {:induction false} XorSelf(a: nat)
    ensures Xor(a, a) == 0
  {
    if a != 0 { XorSelf(a / 2); }
  }

  lemma XorSwap(a: nat, b: nat, c: nat)
    ensures Xor(a, Xor(b, c)) == Xor(b, Xor(a, c))
  {
    XorAssoc(a, b, c);
    XorComm(a, b);
    XorAssoc(b, a, c);
  }

  /** Folding a value in twice cancels it. */
  lemma XorCancel(a: nat, b: nat)
    ensures Xor(Xor(a, b), b) == a
  {
    XorAssoc(a, b, b);
    XorSelf(b);
    XorComm(a, 0);
  }
}
