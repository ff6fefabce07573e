/** The regular expressions of ck-log-event.c: literal text alternating with named runs of
    one character class. Read greedily, and proved against what it means for a text to
    have such a form. */
module Pattern {
  import opened Text

  /** [a-zA-Z0-9/], [a-zA-Z0-9 ], [0-9a-zA-Z.:], [^'], [a-zA-Z] and [0-9] */
  datatype CharClass = Ident | Words | Display | Unquoted | Letters | Digits

  predicate IsAlnum(c: char) { 'a' <= c <= 'z' || 'A' <= c <= 'Z' || '0' <= c <= '9' }

  predicate In(c: char, cls: CharClass) {
    match cls
    case Ident => IsAlnum(c) || c == '/'
    case Words => IsAlnum(c) || c == ' '
    case Display => IsAlnum(c) || c == '.' || c == ':'
    case Unquoted => c != '\''
    case Letters => 'a' <= c <= 'z' || 'A' <= c <= 'Z'
    case Digits => IsDigit(c)
  }

  predicate AllIn(s: string, cls: CharClass) { forall i :: 0 <= i < |s| ==> In(s[i], cls) }

  /** Literal text followed by a group: one or more (some) or any number of characters of
      the class. */
  datatype Piece<G> = Piece(before: string, group: G, cls: CharClass, some: bool)

  /** The text with the groups filled in. */
  function Filled<G>(ps: seq<Piece<G>>, fields: seq<string>, tail: string): string
    requires |fields| == |ps|
  {
    if ps == [] then tail else ps[0].before + (fields[0] + Filled(ps[1..], fields[1..], tail))
  }

  /** Each text followed by its field, and the tail after them. */
  function InTurn(parts: seq<(string, string)>, tail: string): string {
    if parts == [] then tail else parts[0].0 + (parts[0].1 + InTurn(parts[1..], tail))
  }

  function Parts<G>(ps: seq<Piece<G>>, fields: seq<string>): (r: seq<(string, string)>)
    requires |fields| == |ps|
    ensures |r| == |ps| && forall i :: 0 <= i < |ps| ==> r[i] == (ps[i].before, fields[i])
  {
    seq(|ps|, i requires 0 <= i < |ps| => (ps[i].before, fields[i]))
  }

  lemma {:induction false} FilledInTurn<G>(ps: seq<Piece<G>>, fields: seq<string>, tail: string)
    requires |fields| == |ps|
    ensures Filled(ps, fields, tail) == InTurn(Parts(ps, fields), tail)
  {
    if ps != [] {
      FilledInTurn(ps[1..], fields[1..], tail);
      assert Parts(ps, fields)[1..] == Parts(ps[1..], fields[1..]);
    }
  }

  predicate Accepts<G>(p: Piece<G>, field: string) {
    AllIn(field, p.cls) && (p.some ==> field != "")
  }

  /** What a group may be followed by: text that does not start in its class, or, at the
      very end, nothing. */
  predicate Ends(cls: CharClass, next: string) { next == "" || !In(next[0], cls) }

  /** Every group is cut off by the text after it. */
  predicate Separated<G>(ps: seq<Piece<G>>, tail: string) {
    forall i :: 0 <= i < |ps| ==> SeparatedAt(ps, tail, i)
  }

  predicate SeparatedAt<G>(ps: seq<Piece<G>>, tail: string, i: nat)
    requires i < |ps|
  {
    if i + 1 < |ps| then ps[i + 1].before != "" && Ends(ps[i].cls, ps[i + 1].before) else Ends(ps[i].cls, tail)
  }

  // ----- reading

  /** The longest leading run of the class. */
  function RunOf(s: string, cls: CharClass): (k: nat)
    ensures k <= |s| && AllIn(s[..k], cls)
    ensures k < |s| ==> !In(s[k], cls)
  {
    if s != [] && In(s[0], cls) then
      var k := 1 + RunOf(s[1..], cls);
      assert s[..k] == [s[0]] + s[1..][..k - 1];
      k
    else 0
  }

  /** The groups' texts when the expression is matched greedily at the start of s. */
  function MatchAt<G>(ps: seq<Piece<G>>, tail: string, s: string): Option<seq<string>> {
    if ps == [] then if tail <= s then Some([]) else None
    else if !(ps[0].before <= s) then None
    else
      var t := s[|ps[0].before|..];
      var k := RunOf(t, ps[0].cls);
      if ps[0].some && k == 0 then None
      else
        match MatchAt(ps[1..], tail, t[k..])
        case None => None
        case Some(fields) => Some([t[..k]] + fields)
  }

  /** g_regex_match: the leftmost match */
  function Search<G>(ps: seq<Piece<G>>, tail: string, s: string): Option<seq<string>>
    decreases |s|
  {
    var m := MatchAt(ps, tail, s);
    if m.Some? || s == [] then m else Search(ps, tail, s[1..])
  }

  // ----- what it means

  /** s starts with the text filled in with these fields, each acceptable to its group; a
      group that ends the expression takes all it can. */
  ghost predicate Reads<G>(ps: seq<Piece<G>>, tail: string, s: string, fields: seq<string>) {
    && |fields| == |ps| && (forall i :: 0 <= i < |ps| ==> Accepts(ps[i], fields[i]))
    && var text := Filled(ps, fields, tail);
       && text <= s
       && (ps != [] && tail == "" ==> Ends(ps[|ps| - 1].cls, s[|text|..]))
  }

  lemma RunIs(field: string, next: string, cls: CharClass)
    requires AllIn(field, cls) && Ends(cls, next)
    ensures RunOf(field + next, cls) == |field|
  {
    var s := field + next;
    var k := RunOf(s, cls);
    assert forall i :: 0 <= i < |field| ==> s[i] == field[i];
    assert next != "" ==> s[|field|] == next[0];
    assert forall i :: 0 <= i < k ==> s[..k][i] == s[i];
  }

  /** The expression without its first group. */
  lemma SeparatedRest<G>(ps: seq<Piece<G>>, tail: string)
    requires ps != [] && Separated(ps, tail)
    ensures Separated(ps[1..], tail)
  {
    forall i | 0 <= i < |ps| - 1 ensures SeparatedAt(ps[1..], tail, i) {
      assert SeparatedAt(ps, tail, i + 1);
    }
  }

  lemma Cut(a: string, b: string)
    ensures (a + b)[..|a|] == a && (a + b)[|a|..] == b && a <= a + b
  {
  }

  lemma Regroup(a: string, b: string, c: string)
    ensures (a + b) + c == a + (b + c)
  {
  }

  lemma Split(s: string, k: nat)
    requires k <= |s|
    ensures s == s[..k] + s[k..]
  {
  }

  /** Read greedily, a separated expression gives the fields if and only if the text has
      that form: no other way of matching is ever overlooked. */
  lemma {:induction false} MatchExactly<G>(ps: seq<Piece<G>>, tail: string, s: string, fields: seq<string>)
    requires Separated(ps, tail)
    ensures MatchAt(ps, tail, s) == Some(fields) <==> Reads(ps, tail, s, fields)
    decreases |ps|
  {
    if ps != [] {
      SeparatedRest(ps, tail);
      if MatchAt(ps, tail, s) == Some(fields) {
        MatchSound(ps, tail, s, fields);
      }
      if Reads(ps, tail, s, fields) {
        MatchComplete(ps, tail, s, fields);
      }
    }
  }

  lemma {:induction false} MatchSound<G>(ps: seq<Piece<G>>, tail: string, s: string, fields: seq<string>)
    requires MatchAt(ps, tail, s) == Some(fields)
    ensures Reads(ps, tail, s, fields)
    decreases |ps|
  {
    if ps != [] {
      var u := MatchStep(ps, tail, s, fields);
      MatchSound(ps[1..], tail, u, fields[1..]);
      SameLength(ps[1..], tail, u, fields[1..]);
      ReadsMore(ps, tail, fields, u);
    }
  }

  lemma SameLength<G>(ps: seq<Piece<G>>, tail: string, s: string, fields: seq<string>)
    requires Reads(ps, tail, s, fields)
    ensures |fields| == |ps|
  {
  }

  /** One step of reading, as a statement about texts. */
  lemma MatchStep<G>(ps: seq<Piece<G>>, tail: string, s: string, fields: seq<string>) returns (u: string)
    requires ps != [] && MatchAt(ps, tail, s) == Some(fields)
    ensures fields != [] && s == ps[0].before + (fields[0] + u)
    ensures Accepts(ps[0], fields[0]) && Ends(ps[0].cls, u) && MatchAt(ps[1..], tail, u) == Some(fields[1..])
  {
    var t := s[|ps[0].before|..];
    var k := RunOf(t, ps[0].cls);
    u := t[k..];
    Split(s, |ps[0].before|);
    Split(t, k);
    assert fields == [t[..k]] + MatchAt(ps[1..], tail, u).value;
  }

  /** A group and the text before it, put in front of a text of the rest's form. */
  lemma ReadsMore<G>(ps: seq<Piece<G>>, tail: string, fields: seq<string>, u: string)
    requires ps != [] && |fields| == |ps| && Accepts(ps[0], fields[0]) && Reads(ps[1..], tail, u, fields[1..])
    requires |ps| == 1 && tail == "" ==> Ends(ps[0].cls, u)
    ensures Reads(ps, tail, ps[0].before + (fields[0] + u), fields)
  {
    var text := Filled(ps[1..], fields[1..], tail);
    var more := u[|text|..];
    Split(u, |text|);
    Regroup(fields[0], text, more);
    Regroup(ps[0].before, fields[0] + text, more);
    Cut(Filled(ps, fields, tail), more);
    forall i | 0 <= i < |ps| ensures Accepts(ps[i], fields[i]) {
      if i > 0 { assert Accepts(ps[1..][i - 1], fields[1..][i - 1]); }
    }
    assert |ps| > 1 ==> ps[1..][|ps| - 2] == ps[|ps| - 1];
  }

  lemma {:induction false} MatchComplete<G>(ps: seq<Piece<G>>, tail: string, s: string, fields: seq<string>)
    requires Separated(ps, tail) && Reads(ps, tail, s, fields)
    ensures MatchAt(ps, tail, s) == Some(fields)
    decreases |ps|
  {
    if ps != [] {
      var u := ReadsLess(ps, tail, s, fields);
      SeparatedRest(ps, tail);
      MatchComplete(ps[1..], tail, u, fields[1..]);
      Cut(ps[0].before, fields[0] + u);
      Cut(fields[0], u);
      RunIs(fields[0], u, ps[0].cls);
      assert [fields[0]] + fields[1..] == fields;
    }
  }

  /** The converse: what is left has the rest's form, and does not go on in the class. */
  lemma ReadsLess<G>(ps: seq<Piece<G>>, tail: string, s: string, fields: seq<string>) returns (u: string)
    requires ps != [] && Separated(ps, tail) && Reads(ps, tail, s, fields)
    ensures s == ps[0].before + (fields[0] + u)
    ensures Accepts(ps[0], fields[0]) && Ends(ps[0].cls, u)
    ensures Reads(ps[1..], tail, u, fields[1..])
  {
    var text := Filled(ps[1..], fields[1..], tail);
    var full := Filled(ps, fields, tail);
    var more := s[|full|..];
    Split(s, |full|);
    u := text + more;
    Regroup(fields[0], text, more);
    Regroup(ps[0].before, fields[0] + text, more);
    Cut(text, more);
    NextText(ps, fields[1..], tail, more);
    forall i | 0 <= i < |ps| - 1 ensures Accepts(ps[1..][i], fields[1..][i]) {
      assert Accepts(ps[i + 1], fields[i + 1]);
    }
    assert |ps| > 1 ==> ps[1..][|ps| - 2] == ps[|ps| - 1];
  }

  /** What follows the first group is the start of the next literal, or the end. */
  lemma NextText<G>(ps: seq<Piece<G>>, rest: seq<string>, tail: string, more: string)
    requires ps != [] && |rest| == |ps| - 1 && Separated(ps, tail)
    requires |ps| == 1 && tail == "" ==> Ends(ps[0].cls, more)
    ensures Ends(ps[0].cls, Filled(ps[1..], rest, tail) + more)
  {
    assert SeparatedAt(ps, tail, 0);
    if |ps| > 1 {
      assert ps[1..][0] == ps[1];
      assert Filled(ps[1..], rest, tail)[0] == ps[1].before[0];
    } else {
      assert Filled(ps[1..], rest, tail) == tail;
      assert tail == "" ==> tail + more == more;
    }
  }

  /** A text that was filled in is read back, field by field. */
  lemma ReadBack<G>(ps: seq<Piece<G>>, tail: string, fields: seq<string>)
    requires Separated(ps, tail) && |fields| == |ps| && forall i :: 0 <= i < |ps| ==> Accepts(ps[i], fields[i])
    ensures Search(ps, tail, Filled(ps, fields, tail)) == Some(fields)
  {
    MatchComplete(ps, tail, Filled(ps, fields, tail), fields);
  }

  /** Whatever is found is acceptable. */
  lemma {:induction false} FoundIsAcceptable<G>(ps: seq<Piece<G>>, tail: string, s: string)
    ensures Search(ps, tail, s).Some? ==>
      var fields := Search(ps, tail, s).value;
      |fields| == |ps| && forall i :: 0 <= i < |ps| ==> Accepts(ps[i], fields[i])
    decreases |s|
  {
    var m := MatchAt(ps, tail, s);
    if m.Some? {
      MatchSound(ps, tail, s, m.value);
    } else if s != [] {
      FoundIsAcceptable(ps, tail, s[1..]);
    }
  }

  /** The text can be read from place i on, and from no place before. */
  ghost predicate FirstReadAt<G>(ps: seq<Piece<G>>, tail: string, s: string, i: nat, fields: seq<string>) {
    && i <= |s| && Reads(ps, tail, s[i..], fields)
    && forall j, gs :: 0 <= j < i ==> !Reads(ps, tail, s[j..], gs)
  }

  /** The fields found are those of the leftmost place from which the text can be read. */
  lemma {:induction false} SearchExactly<G>(ps: seq<Piece<G>>, tail: string, s: string, fields: seq<string>)
    requires Separated(ps, tail)
    ensures Search(ps, tail, s) == Some(fields) <==> exists i :: FirstReadAt(ps, tail, s, i, fields)
    decreases |s|
  {
    hide Separated, Reads, MatchAt;
    var m := MatchAt(ps, tail, s);
    assert s[0..] == s;
    forall gs ensures m == Some(gs) <==> Reads(ps, tail, s, gs) {
      MatchExactly(ps, tail, s, gs);
    }
    if m.Some? {
      assert m == Some(fields) ==> FirstReadAt(ps, tail, s, 0, fields);
      forall i | FirstReadAt(ps, tail, s, i, fields) ensures i == 0 {
        assert Reads(ps, tail, s[0..], m.value);
      }
    } else if s == [] {
      assert forall i: nat :: i <= |s| ==> s[i..] == s;
    } else {
      SearchExactly(ps, tail, s[1..], fields);
      OneFurther(ps, tail, s, fields);
    }
  }

  lemma OneFurther<G>(ps: seq<Piece<G>>, tail: string, s: string, fields: seq<string>)
    requires s != [] && forall gs :: !Reads(ps, tail, s, gs)
    ensures (exists i :: FirstReadAt(ps, tail, s, i, fields)) <==> exists i :: FirstReadAt(ps, tail, s[1..], i, fields)
  {
    hide Reads;
    var t := s[1..];
    assert s[0..] == s;
    assert forall i :: 0 <= i < |s| ==> t[i..] == s[i + 1..];
    if i: nat :| FirstReadAt(ps, tail, s, i, fields) {
      assert i > 0;
      forall j, gs | 0 <= j < i - 1 ensures !Reads(ps, tail, t[j..], gs) {
        assert t[j..] == s[j + 1..];
      }
      assert FirstReadAt(ps, tail, t, i - 1, fields);
    }
    if i: nat :| FirstReadAt(ps, tail, t, i, fields) {
      forall j, gs | 0 <= j < i + 1 ensures !Reads(ps, tail, s[j..], gs) {
        assert j > 0 ==> s[j..] == t[j - 1..];
      }
      assert FirstReadAt(ps, tail, s, i + 1, fields);
    }
  }

  // ----- fetching a group by name

  /** g_match_info_fetch_named: nothing when the expression has no group of that name */
  function Fetch<G(==)>(ps: seq<Piece<G>>, fields: seq<string>, group: G): Option<string>
    requires |fields| == |ps|
  {
    if ps == [] then None
    else if ps[0].group == group then Some(fields[0])
    else Fetch(ps[1..], fields[1..], group)
  }

  lemma {:induction false} FetchAt<G>(ps: seq<Piece<G>>, fields: seq<string>, i: nat)
    requires |fields| == |ps| && i < |ps| && forall j :: 0 <= j < i ==> ps[j].group != ps[i].group
    ensures Fetch(ps, fields, ps[i].group) == Some(fields[i])
  {
    if i > 0 {
      assert ps[1..][i - 1] == ps[i] && fields[1..][i - 1] == fields[i];
      FetchAt(ps[1..], fields[1..], i - 1);
    }
  }

  lemma {:induction false} FetchNone<G>(ps: seq<Piece<G>>, fields: seq<string>, group: G)
    requires |fields| == |ps| && forall j :: 0 <= j < |ps| ==> ps[j].group != group
    ensures Fetch(ps, fields, group).None?
  {
    if ps != [] {
      FetchNone(ps[1..], fields[1..], group);
    }
  }
}
