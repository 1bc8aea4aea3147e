/** Keeping the elements of a sequence that satisfy a condition, in their order. */
module Filters {
  function Filter<T(!new)>(s: seq<T>, keep: T -> bool): (r: seq<T>)
    ensures forall x :: x in r <==> x in s && keep(x)
    ensures |r| <= |s| && (|r| == |s| <==> forall x :: x in s ==> keep(x))
  {
    if s == [] then []
    else
      var init := Filter(s[..|s| - 1], keep);
      var last := s[|s| - 1];
      assert forall x :: x in s <==> x in s[..|s| - 1] || x == last;
      if keep(last) then init + [last] else init
  }

  /** `places` are the places of the elements that are kept, from first to last. */
  ghost predicate Keeps<T(!new)>(s: seq<T>, keep: T -> bool, r: seq<T>, places: seq<nat>) {
    && |places| == |r|
    && (forall k :: 0 <= k < |r| ==> places[k] < |s| && r[k] == s[places[k]] && keep(r[k]))
    && (forall j, k :: 0 <= j < k < |r| ==> places[j] < places[k])
    && (forall i: nat :: i < |s| && keep(s[i]) ==> i in places)
  }

  lemma KeepsOneMore<T(!new)>(s: seq<T>, keep: T -> bool, r: seq<T>, places: seq<nat>, x: T)
    requires Keeps(s, keep, r, places)
    ensures keep(x) ==> Keeps(s + [x], keep, r + [x], places + [|s|])
    ensures !keep(x) ==> Keeps(s + [x], keep, r, places)
  {
    if keep(x) {
      forall i: nat | i < |s| + 1 && keep((s + [x])[i]) ensures i in places + [|s|] {
        if i < |s| { assert keep(s[i]); }
      }
    }
  }

  lemma {:induction false} FilterKeeps<T(!new)>(s: seq<T>, keep: T -> bool) returns (places: seq<nat>)
    ensures Keeps(s, keep, Filter(s, keep), places)
  {
    if s == [] {
      places := [];
    } else {
      hide Keeps;
      var init, last := s[..|s| - 1], s[|s| - 1];
      places := FilterKeeps(init, keep);
      KeepsOneMore(init, keep, Filter(init, keep), places, last);
      assert init + [last] == s;
      if keep(last) { places := places + [|s| - 1]; }
    }
  }
}
