/** What it means that a loop has gone through a sequence, kept some of its elements and mapped them. */
module Sequences {
  /** The positions of the kept elements, in order. */
  ghost predicate Keeps<T(!new)>(at: seq<nat>, s: seq<T>, keep: T -> bool) {
    && (forall i, j :: 0 <= i < j < |at| ==> at[i] < at[j])
    && (forall k: nat :: k in at <==> k < |s| && keep(s[k]))
  }

  /** out is made of the kept elements, each as often as it occurs and in the same order, mapped by f. */
  ghost predicate InOrder<T(!new), U(!new)>(out: seq<U>, s: seq<T>, keep: T -> bool, f: T -> U) {
    exists at: seq<nat> :: Keeps(at, s, keep) && Maps(out, s, at, f)
  }

  ghost predicate Maps<T(!new), U(!new)>(out: seq<U>, s: seq<T>, at: seq<nat>, f: T -> U) {
    |out| == |at| && forall i :: 0 <= i < |at| ==> at[i] < |s| && out[i] == f(s[at[i]])
  }

  lemma InOrderEmpty<T(!new), U(!new)>(keep: T -> bool, f: T -> U)
    ensures InOrder([], [], keep, f)
  {
    var at: seq<nat> := [];
    assert Keeps(at, [], keep) && Maps([], [], at, f);
  }

  lemma InOrderSnoc<T(!new), U(!new)>(out: seq<U>, s: seq<T>, keep: T -> bool, f: T -> U, x: T)
    requires InOrder(out, s, keep, f)
    ensures InOrder(if keep(x) then out + [f(x)] else out, s + [x], keep, f)
  {
    hide Keeps;
    hide Maps;
    var at: seq<nat> :| Keeps(at, s, keep) && Maps(out, s, at, f);
    KeepsSnoc(at, s, keep, x);
    MapsSnoc(out, s, at, f, x);
    var longer := if keep(x) then at + [|s|] else at;
    assert Keeps(longer, s + [x], keep);
  }

  lemma KeepsSnoc<T(!new)>(at: seq<nat>, s: seq<T>, keep: T -> bool, x: T)
    requires Keeps(at, s, keep)
    ensures Keeps(if keep(x) then at + [|s|] else at, s + [x], keep)
  {
    assert forall i :: 0 <= i < |at| ==> at[i] in at;
    forall k: nat ensures k in at + [|s|] <==> k in at || k == |s| {
    }
  }

  lemma MapsSnoc<T(!new), U(!new)>(out: seq<U>, s: seq<T>, at: seq<nat>, f: T -> U, x: T)
    requires Maps(out, s, at, f)
    ensures Maps(out, s + [x], at, f) && Maps(out + [f(x)], s + [x], at + [|s|], f)
  {
  }
}
