/** What a delta is reckoned to cost when it is cached, against what it takes to write it out
    as JSON text. */
module Costs {
  import opened Basics
  import opened Values
  import opened Protocol
  import opened PoolModel
  import opened Pools
  import opened Identities

  // ------------------------------------------------------------------------- numbers

  function Power10(k: nat): nat { if k == 0 then 1 else 10 * Power10(k - 1) }

  lemma {:induction false} DigitsAtMost(n: nat, k: nat)
    requires k > 0 && n < Power10(k)
    ensures |Decimal(n)| <= k
    decreases k
  {
    if n >= 10 { DigitsAtMost(n / 10, k - 1); }
  }

  lemma TwentyDigits(n: nat)
    requires n < TWO_64
    ensures |Decimal(n)| <= 20
  {
    assert Power10(5) == 100_000;
    assert Power10(10) == 100_000 * Power10(5);
    assert Power10(15) == 100_000 * Power10(10);
    assert Power10(20) == 100_000 * Power10(15);
    DigitsAtMost(n, 20);
  }

  // --------------------------------------------------------------------------- text

  /** A quoted string, each character written in its own number of bytes. */
  function Quoted(s: string, width: char -> nat): nat {
    if s == [] then 2 else Quoted(s[..|s| - 1], width) + width(s[|s| - 1])
  }

  /** Escaping takes six bytes at most. */
  ghost predicate Escapes(width: char -> nat) { forall c :: width(c) <= 6 }

  lemma {:induction false} QuotedAtMost(s: string, width: char -> nat)
    requires Escapes(width)
    ensures Quoted(s, width) <= 6 * |s| + 2
  {
    if s != [] { QuotedAtMost(s[..|s| - 1], width); }
  }

  function Quotes(list: seq<string>, width: char -> nat): nat {
    if list == [] then 0 else Quotes(list[..|list| - 1], width) + Quoted(list[|list| - 1], width) + |","|
  }

  lemma {:induction false} QuotesAtMost(list: seq<string>, width: char -> nat)
    requires Escapes(width)
    ensures Quotes(list, width) <= MethodsCost(list)
  {
    if list != [] {
      QuotesAtMost(list[..|list| - 1], width);
      QuotedAtMost(list[|list| - 1], width);
    }
  }

  // ------------------------------------------------------------------------ members

  function MemberText(m: Member, stateBytes: nat, width: char -> nat): nat {
    |"{'id':"| + |Decimal(m.id)|
    + (if m.slot.Some? then |",'slot':"| + |Decimal(m.slot.value)| else 0)
    + |",'incarnation':"| + |Decimal(m.incarnation)|
    + (if m.url.Some? then |",'url':"| + Quoted(m.url.value, width) else 0)
    + |",'state':"| + stateBytes + |",'ready':"| + (if m.ready then |"true"| else |"false"|) + |"}"|
  }

  /** Every number in it is 64-bit. */
  predicate Narrow(m: Member) { m.id < TWO_64 && m.incarnation < TWO_64 && (m.slot.Some? ==> m.slot.value < TWO_64) }

  lemma MemberAtMost(r: Record, width: char -> nat)
    requires Escapes(width) && Narrow(r.member)
    ensures MemberText(r.member, r.stateBytes, width) + |","| <= RecordCost(r)
  {
    hide Decimal, Quoted;
    TwentyDigits(r.member.id);
    TwentyDigits(r.member.incarnation);
    if r.member.slot.Some? { TwentyDigits(r.member.slot.value); }
    if r.member.url.Some? { QuotedAtMost(r.member.url.value, width); }
  }

  /** The members listed, each with its comma. */
  function MembersText(members: map<nat, Record>, changed: seq<Member>, width: char -> nat): nat
    requires forall m | m in changed :: m.id in members
  {
    if changed == [] then 0 else
      var last := changed[|changed| - 1];
      MembersText(members, changed[..|changed| - 1], width) + MemberText(last, members[last.id].stateBytes, width) + |","|
  }

  lemma {:induction false} MembersAtMost(members: map<nat, Record>, changed: seq<Member>, width: char -> nat)
    requires Escapes(width) && forall m | m in changed :: m.id in members && members[m.id].member == m && Narrow(m)
    ensures MembersText(members, changed, width) <= ListingCost(members, changed)
  {
    hide MemberText, RecordCost, Narrow;
    if changed != [] {
      var front, last := changed[..|changed| - 1], changed[|changed| - 1];
      assert last in changed && forall m | m in front :: m in changed;
      MembersAtMost(members, front, width);
      MemberAtMost(members[last.id], width);
    }
  }

  function NumbersText(ids: seq<nat>): nat {
    if ids == [] then 0 else NumbersText(ids[..|ids| - 1]) + |Decimal(ids[|ids| - 1])| + |","|
  }

  lemma {:induction false} NumbersAtMost(ids: seq<nat>)
    requires forall id | id in ids :: id < TWO_64
    ensures NumbersText(ids) <= 21 * |ids|
  {
    if ids != [] {
      var front := ids[..|ids| - 1];
      forall id | id in front ensures id < TWO_64 { assert id in ids; }
      NumbersAtMost(front);
      assert ids[|ids| - 1] in ids;
      TwentyDigits(ids[|ids| - 1]);
    }
  }

  // ------------------------------------------------------------------------- a delta

  function DeltaText(members: map<nat, Record>, d: PoolDelta, width: char -> nat): nat
    requires forall m | m in d.changed :: m.id in members
  {
    |"{'version':"| + |Decimal(d.version)| + |",'roster':"| + |Decimal(d.roster)|
    + |",'policy':"| + Quoted(d.policy, width) + |",'methods':["| + Quotes(d.methods, width) + |"]"|
    + |",'size':"| + (if d.size.Some? then |Decimal(d.size.value)| else |"null"|)
    + |",'changed':["| + MembersText(members, d.changed, width) + |"]"|
    + |",'removed':["| + NumbersText(d.removed) + |"]"| + |",'full':"| + (if d.full then |"true"| else |"false"|) + |"}"|
  }

  predicate NarrowDelta(d: PoolDelta) {
    && d.version < TWO_64 && d.roster < TWO_64 && (d.size.Some? ==> d.size.value < TWO_64)
    && (forall m | m in d.changed :: Narrow(m)) && forall id | id in d.removed :: id < TWO_64
  }

  /** The reckoning is on the safe side: whatever the characters take to escape, a delta a
      pool builds is never longer written out than it is reckoned to be. So the cache, within
      its bound, never holds more text than that. */
  lemma CostCoversText(p: PoolState, since: Option<nat>, d: PoolDelta, width: char -> nat)
    requires Keyed(p.members) && IsDelta(p, since, d) && NarrowDelta(d) && Escapes(width)
    ensures forall m | m in d.changed :: m.id in p.members
    ensures DeltaText(p.members, d, width) <= DeltaCost(p.members, d)
  {
    hide Decimal, Quoted, Quotes, MembersText, NumbersText, ListingCost, MethodsCost, Narrow, Escapes;
    Stored(p, since, d);
    TwentyDigits(d.version);
    TwentyDigits(d.roster);
    if d.size.Some? { TwentyDigits(d.size.value); }
    QuotedAtMost(d.policy, width);
    QuotesAtMost(d.methods, width);
    MembersAtMost(p.members, d.changed, width);
    NumbersAtMost(d.removed);
  }

  lemma Stored(p: PoolState, since: Option<nat>, d: PoolDelta)
    requires IsDelta(p, since, d)
    ensures forall m | m in d.changed :: m.id in p.members && p.members[m.id].member == m
  {
  }
}
