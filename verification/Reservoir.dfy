/** Choosing among members met one at a time: the k-th replaces the choice so far with a
    one-in-k throw. Everyone ends up chosen by the same number of outcomes. */
module Reservoirs {
  /** All the outcomes of throwing a one-sided die, a two-sided one, up to n sides. */
  function Throws(n: nat): set<seq<nat>> {
    if n == 0 then {[]} else Extended(Throws(n - 1), 0, n)
  }

  /** These outcomes, each followed by a throw from lo up to hi. */
  function Extended(s: set<seq<nat>>, lo: nat, hi: nat): set<seq<nat>> {
    set d, x | d in s && lo <= x < hi :: d + [x]
  }

  /** Whose turn it was when a throw last came up zero. */
  function Chosen(dice: seq<nat>): int {
    if dice == [] then -1
    else if dice[|dice| - 1] == 0 then |dice| - 1
    else Chosen(dice[..|dice| - 1])
  }

  function Factorial(n: nat): nat { if n == 0 then 1 else n * Factorial(n - 1) }

  lemma {:induction false} ThrowsShape(n: nat, d: seq<nat>)
    requires d in Throws(n)
    ensures |d| == n && (n > 0 ==> d[0] == 0) && forall i | 0 <= i < n :: d[i] <= i
  {
    if n > 0 {
      var e, x :| e in Throws(n - 1) && 0 <= x < n && d == e + [x];
      ThrowsShape(n - 1, e);
    }
  }

  /** Somebody is always chosen, and only somebody there is. */
  lemma {:induction false} ChosenInRange(d: seq<nat>)
    ensures -1 <= Chosen(d) < |d|
    ensures d != [] && d[0] == 0 ==> 0 <= Chosen(d)
  {
    if d != [] { ChosenInRange(d[..|d| - 1]); }
  }

  // -------------------------------------------------------------------- counting

  lemma NewTail(s: set<seq<nat>>, d: seq<nat>, x: nat)
    requires d !in s
    ensures d + [x] !in Extended(s, x, x + 1)
  {
    forall e | e in s ensures e + [x] != d + [x] {
      assert (e + [x])[..|e|] == e && (d + [x])[..|d|] == d;
    }
  }

  lemma Regrown(s: set<seq<nat>>, d: seq<nat>, x: nat)
    requires d in s
    ensures Extended(s, x, x + 1) == Extended(s - {d}, x, x + 1) + {d + [x]}
  {
    var all, most := Extended(s, x, x + 1), Extended(s - {d}, x, x + 1) + {d + [x]};
    forall f ensures f in all <==> f in most {
      if f in all {
        var e, y :| e in s && x <= y < x + 1 && f == e + [y];
        assert e == d || e in s - {d};
      }
    }
  }

  lemma {:induction false} TailSize(s: set<seq<nat>>, x: nat)
    ensures |Extended(s, x, x + 1)| == |s|
  {
    hide Extended;
    if s == {} {
      NothingExtended(x, x + 1);
    } else {
      var d :| d in s;
      TailSize(s - {d}, x);
      NewTail(s - {d}, d, x);
      Regrown(s, d, x);
    }
  }

  lemma NothingExtended(lo: nat, hi: nat)
    ensures Extended({}, lo, hi) == {}
  {
  }

  lemma OneMoreThrow(s: set<seq<nat>>, lo: nat, hi: nat)
    requires lo < hi
    ensures Extended(s, lo, hi) == Extended(s, lo, hi - 1) + Extended(s, hi - 1, hi)
    ensures Extended(s, lo, hi - 1) !! Extended(s, hi - 1, hi)
  {
    var all, parts := Extended(s, lo, hi), Extended(s, lo, hi - 1) + Extended(s, hi - 1, hi);
    forall f ensures f in all <==> f in parts {
      if f in all { var e, y :| e in s && lo <= y < hi && f == e + [y]; }
    }
    forall e, y, d, x | e in s && d in s && lo <= y < hi - 1 && hi - 1 <= x < hi ensures e + [y] != d + [x] {
      assert (e + [y])[|e + [y]| - 1] == y && (d + [x])[|d + [x]| - 1] == x;
    }
  }

  lemma OneMoreColumn(rows: nat, lo: nat, hi: nat)
    requires lo < hi
    ensures rows * (hi - 1 - lo) + rows == rows * (hi - lo)
  {
  }

  lemma NoThrow(s: set<seq<nat>>, lo: nat)
    ensures Extended(s, lo, lo) == {} && |s| * (lo - lo) == 0
  {
  }

  lemma {:induction false} ExtendedSize(s: set<seq<nat>>, lo: nat, hi: nat)
    requires lo <= hi
    ensures |Extended(s, lo, hi)| == |s| * (hi - lo)
    decreases hi
  {
    hide Extended;
    if lo == hi {
      NoThrow(s, lo);
    } else {
      ExtendedSize(s, lo, hi - 1);
      TailSize(s, hi - 1);
      OneMoreThrow(s, lo, hi);
      OneMoreColumn(|s|, lo, hi);
    }
  }

  /** The outcomes that choose i. */
  function Choosing(n: nat, i: int): set<seq<nat>> { set d | d in Throws(n) && Chosen(d) == i }

  lemma ChoosingLast(n: nat)
    requires n > 0
    ensures Choosing(n, n - 1) == Extended(Throws(n - 1), 0, 1)
  {
    var those, ended := Choosing(n, n - 1), Extended(Throws(n - 1), 0, 1);
    forall d ensures d in those <==> d in ended {
      if d in those {
        var e, x :| e in Throws(n - 1) && 0 <= x < n && d == e + [x];
        ThrowsShape(n - 1, e);
        assert d[..|d| - 1] == e;
        ChosenInRange(e);
      }
      if d in ended {
        var e, x :| e in Throws(n - 1) && 0 <= x < 1 && d == e + [x];
        ThrowsShape(n - 1, e);
        assert d in Throws(n);
      }
    }
  }

  lemma ChoosingEarlier(n: nat, i: nat)
    requires i < n - 1
    ensures Choosing(n, i) == Extended(Choosing(n - 1, i), 1, n)
  {
    var those, ended := Choosing(n, i), Extended(Choosing(n - 1, i), 1, n);
    forall d ensures d in those <==> d in ended {
      if d in those {
        var e, x :| e in Throws(n - 1) && 0 <= x < n && d == e + [x];
        ThrowsShape(n - 1, e);
        assert d[..|d| - 1] == e;
        assert e in Choosing(n - 1, i) && x >= 1;
      }
      if d in ended {
        var e, x :| e in Choosing(n - 1, i) && 1 <= x < n && d == e + [x];
        assert d[..|d| - 1] == e;
        assert d in Throws(n);
      }
    }
  }

  lemma {:induction false} ThrowsSize(n: nat)
    ensures |Throws(n)| == Factorial(n)
  {
    if n > 0 {
      ThrowsSize(n - 1);
      ExtendedSize(Throws(n - 1), 0, n);
      NextFactorial(n - 1);
    }
  }

  lemma NextFactorial(n: nat)
    ensures Factorial(n) * (n + 1) == Factorial(n + 1)
  {
  }

  /** A fair choice: of the n! equally likely outcomes, each of the n members is chosen by
      (n - 1)! of them. */
  lemma {:induction false} ChoiceIsFair(n: nat, i: nat)
    requires i < n
    ensures |Throws(n)| == Factorial(n) && |Choosing(n, i)| == Factorial(n - 1)
    decreases n
  {
    hide Throws, Choosing, Extended, Factorial;
    ThrowsSize(n);
    if i == n - 1 {
      ChoosingLast(n);
      ExtendedSize(Throws(n - 1), 0, 1);
      ThrowsSize(n - 1);
    } else {
      ChoosingEarlier(n, i);
      ChoiceIsFair(n - 1, i);
      ExtendedSize(Choosing(n - 1, i), 1, n);
      NextFactorial(n - 2);
    }
  }
}
