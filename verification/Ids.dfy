/** generate_session_id and generate_seat_id: ids made from a serial that wraps, tried in
    turn until one is not in the table. */
module Ids {
  import opened Text

  /** (gint32) serial < 0 from here on */
  const SIGN_BIT: nat := 0x8000_0000

  /** The serial left behind by one draw; first is 1 for sessions and 0 for seats. */
  function NextSerial(first: nat, serial: nat): (r: nat)
    requires first <= serial < SIGN_BIT && first <= 1
    ensures first <= r < SIGN_BIT
  {
    if serial + 1 < SIGN_BIT then serial + 1 else first
  }

  function Nth(first: nat, serial: nat, n: nat): (r: nat)
    requires first <= serial < SIGN_BIT && first <= 1
    ensures first <= r < SIGN_BIT
  {
    if n == 0 then serial else NextSerial(first, Nth(first, serial, n - 1))
  }

  function IdAt(prefix: string, first: nat, serial: nat, n: nat): string
    requires first <= serial < SIGN_BIT && first <= 1
  {
    prefix + Decimal(Nth(first, serial, n))
  }

  /** How many ids there are before the serial comes round. */
  function Period(first: nat): nat
    requires first <= 1
  {
    SIGN_BIT - first
  }

  /** id is the first candidate not in the table, found within |table| + 1 tries, and next
      is the serial left behind. */
  ghost predicate IsFresh(prefix: string, first: nat, serial: nat, table: set<string>, id: string, next: nat)
    requires first <= serial < SIGN_BIT && first <= 1
  {
    exists n: nat :: n <= |table| && FoundAt(prefix, first, serial, table, id, next, n)
  }

  ghost predicate FoundAt(prefix: string, first: nat, serial: nat, table: set<string>, id: string, next: nat, n: nat)
    requires first <= serial < SIGN_BIT && first <= 1
  {
    && (forall i: nat :: i < n ==> IdAt(prefix, first, serial, i) in table)
    && id == IdAt(prefix, first, serial, n) && id !in table
    && next == Nth(first, serial, n + 1)
  }

  /** The n-th serial in closed form: it goes round a cycle of Period(first) numbers. */
  lemma {:induction false} NthOnCycle(first: nat, serial: nat, n: nat)
    requires first <= serial < SIGN_BIT && first <= 1 && n < Period(first)
    ensures Nth(first, serial, n) == if serial + n < SIGN_BIT then serial + n else serial + n - Period(first)
  {
    if n > 0 {
      NthOnCycle(first, serial, n - 1);
    }
  }

  lemma CandidatesDiffer(prefix: string, first: nat, serial: nat, i: nat, j: nat)
    requires first <= serial < SIGN_BIT && first <= 1 && i < j < Period(first)
    ensures IdAt(prefix, first, serial, i) != IdAt(prefix, first, serial, j)
  {
    NthOnCycle(first, serial, i);
    NthOnCycle(first, serial, j);
    var a, b := Decimal(Nth(first, serial, i)), Decimal(Nth(first, serial, j));
    assert (prefix + a)[|prefix|..] == a && (prefix + b)[|prefix|..] == b;
    if a == b {
      DecimalInjective(Nth(first, serial, i), Nth(first, serial, j));
    }
  }

  /** What is drawn depends on nothing but the serial and the table. */
  lemma FreshIsUnique(prefix: string, first: nat, serial: nat, table: set<string>, id1: string, next1: nat,
      id2: string, next2: nat)
    requires first <= serial < SIGN_BIT && first <= 1
    requires IsFresh(prefix, first, serial, table, id1, next1)
    requires IsFresh(prefix, first, serial, table, id2, next2)
    ensures id1 == id2 && next1 == next2
  {
    var n1: nat :| n1 <= |table| && FoundAt(prefix, first, serial, table, id1, next1, n1);
    var n2: nat :| n2 <= |table| && FoundAt(prefix, first, serial, table, id2, next2, n2);
  }

  /** It is made from a number: from the serial itself, if that gives an id not in the table. */
  lemma FreshForm(prefix: string, first: nat, serial: nat, table: set<string>, id: string, next: nat)
    requires first <= serial < SIGN_BIT && first <= 1
    requires IsFresh(prefix, first, serial, table, id, next)
    ensures id !in table && exists k: nat :: id == prefix + Decimal(k)
    ensures prefix + Decimal(serial) !in table ==> id == prefix + Decimal(serial)
  {
    var n: nat :| n <= |table| && FoundAt(prefix, first, serial, table, id, next, n);
    assert n > 0 ==> IdAt(prefix, first, serial, 0) in table;
  }

  lemma SubsetCardinality<T>(a: set<T>, b: set<T>)
    requires a <= b
    ensures |a| <= |b|
  {
    if a != {} {
      var x :| x in a;
      SubsetCardinality(a - {x}, b - {x});
    }
  }

  /** The retry loop ends: from any serial, with fewer ids in the table than there are
      serials, a fresh id is found within one try more than the table has entries. */
  method GenerateId(prefix: string, first: nat, serial: nat, table: set<string>) returns (id: string, next: nat)
    requires first <= serial < SIGN_BIT && first <= 1
    requires |table| < Period(first)
    ensures first <= next < SIGN_BIT
    ensures id !in table && IsFresh(prefix, first, serial, table, id, next)
  {
    ghost var n: nat := 0;
    ghost var tried: set<string> := {};
    next := NextSerial(first, serial);
    id := prefix + Decimal(serial);
    while id in table
      invariant n <= |table| && |tried| == n && tried <= table
      invariant forall i: nat :: i < n ==> IdAt(prefix, first, serial, i) in tried
      invariant forall x :: x in tried ==> exists i: nat :: i < n && x == IdAt(prefix, first, serial, i)
      invariant id == IdAt(prefix, first, serial, n) && next == Nth(first, serial, n + 1)
      decreases |table| - n
    {
      if id in tried {
        var i: nat :| i < n && id == IdAt(prefix, first, serial, i);
        CandidatesDiffer(prefix, first, serial, i, n);
        assert false;
      }
      tried := tried + {id};
      n := n + 1;
      SubsetCardinality(tried, table);
      id := prefix + Decimal(next);
      next := NextSerial(first, next);
    }
    assert FoundAt(prefix, first, serial, table, id, next, n);
  }
}
