/** Lists with one element taken out, lists without repetition, and some elements of a list
    in order. */
module Lists {

  function RemoveAt<T>(s: seq<T>, i: nat): seq<T>
    requires i < |s|
  {
    s[..i] + s[i + 1..]
  }

  predicate Distinct<T(==)>(s: seq<T>) {
    forall i, j :: 0 <= i < j < |s| ==> s[i] != s[j]
  }

  /** The places, in order, at which the flag is set. */
  ghost predicate Picks(at: seq<nat>, flags: seq<bool>) {
    && (forall k, l :: 0 <= k < l < |at| ==> at[k] < at[l])
    && (forall k :: 0 <= k < |at| ==> at[k] < |flags| && flags[at[k]])
    && (forall i :: 0 <= i < |flags| && flags[i] ==> i in at)
  }

  ghost predicate PicksOut<T(!new)>(at: seq<nat>, flags: seq<bool>, items: seq<T>, picked: seq<T>) {
    && Picks(at, flags) && |items| == |flags| && |picked| == |at|
    && forall k :: 0 <= k < |at| ==> picked[k] == items[at[k]]
  }

  /** picked are the items flagged, each once and in order. */
  ghost predicate Picked<T(!new)>(flags: seq<bool>, items: seq<T>, picked: seq<T>) {
    exists at: seq<nat> :: PicksOut(at, flags, items, picked)
  }

  lemma NothingPicked<T(!new)>()
    ensures Picked<T>([], [], [])
  {
    assert PicksOut<T>([], [], [], []);
  }

  lemma PickedOneMore<T(!new)>(flags: seq<bool>, items: seq<T>, picked: seq<T>, flag: bool, item: T)
    requires Picked(flags, items, picked)
    ensures Picked(flags + [flag], items + [item], if flag then picked + [item] else picked)
  {
    hide Picks;
    var at: seq<nat> :| PicksOut(at, flags, items, picked);
    var r := if flag then at + [|flags|] else at;
    PicksOneMore(at, flags, flag);
    assert forall k :: 0 <= k < |at| ==> at[k] < |flags| by { PicksBounds(at, flags); }
    assert PicksOut(r, flags + [flag], items + [item], if flag then picked + [item] else picked);
  }

  lemma PicksBounds(at: seq<nat>, flags: seq<bool>)
    requires Picks(at, flags)
    ensures forall k :: 0 <= k < |at| ==> at[k] < |flags|
  {
  }

  lemma PicksOneMore(at: seq<nat>, flags: seq<bool>, flag: bool)
    requires Picks(at, flags)
    ensures Picks(if flag then at + [|flags|] else at, flags + [flag])
  {
    var r := if flag then at + [|flags|] else at;
    forall i | 0 <= i < |flags| + 1 && (flags + [flag])[i] ensures i in r {
      if i < |flags| {
        assert i in at;
      } else {
        assert r[|at|] == i;
      }
    }
  }
}
