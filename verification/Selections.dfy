/** The elements of a list that meet a condition, in their order. */
module Selections {

  function Filter<T>(xs: seq<T>, keep: T -> bool): seq<T> {
    if xs == [] then [] else
    var front := Filter(xs[..|xs| - 1], keep);
    if keep(xs[|xs| - 1]) then front + [xs[|xs| - 1]] else front
  }

  /** Those places of the list, and only those, that meet the condition are selected, in
      ascending order. */
  ghost predicate Selects<T>(xs: seq<T>, keep: T -> bool, picked: seq<T>, at: seq<int>) {
    && |at| == |picked|
    && (forall k :: 0 <= k < |at| ==> 0 <= at[k] < |xs| && picked[k] == xs[at[k]] && keep(xs[at[k]]))
    && (forall j, k :: 0 <= j < k < |at| ==> at[j] < at[k])
    && (forall i :: 0 <= i < |xs| && keep(xs[i]) ==> i in at)
  }

  lemma SelectsMore<T>(xs: seq<T>, x: T, keep: T -> bool, picked: seq<T>, at: seq<int>)
    requires Selects(xs, keep, picked, at)
    ensures keep(x) ==> Selects(xs + [x], keep, picked + [x], at + [|xs|])
    ensures !keep(x) ==> Selects(xs + [x], keep, picked, at)
  {
    var more := xs + [x];
    assert forall i :: 0 <= i < |xs| ==> more[i] == xs[i];
  }

  lemma {:induction false} FilterSelects<T>(xs: seq<T>, keep: T -> bool) returns (at: seq<int>)
    ensures Selects(xs, keep, Filter(xs, keep), at)
  {
    hide Selects;
    if xs == [] {
      at := [];
      NothingSelected(keep);
    } else {
      var n := |xs| - 1;
      at := FilterSelects(xs[..n], keep);
      SelectsMore(xs[..n], xs[n], keep, Filter(xs[..n], keep), at);
      assert xs == xs[..n] + [xs[n]];
      at := if keep(xs[n]) then at + [n] else at;
    }
  }

  lemma NothingSelected<T>(keep: T -> bool)
    ensures Selects([], keep, [], [])
  {
  }

  /** There is one such selection. */
  lemma {:induction false} SelectsOnce<T>(xs: seq<T>, keep: T -> bool, picked: seq<T>, at: seq<int>)
    requires Selects(xs, keep, picked, at)
    ensures picked == Filter(xs, keep)
  {
    hide Selects;
    if xs == [] {
      NoneSelected(keep, picked, at);
    } else {
      var n, m := |xs| - 1, |at| - 1;
      if keep(xs[n]) {
        SelectsLast(xs, keep, picked, at);
        SelectsLess(xs, keep, picked, at);
        SelectsOnce(xs[..n], keep, picked[..m], at[..m]);
        assert picked == picked[..m] + [picked[m]];
      } else {
        SelectsRest(xs, keep, picked, at);
        SelectsOnce(xs[..n], keep, picked, at);
      }
    }
  }

  lemma NoneSelected<T>(keep: T -> bool, picked: seq<T>, at: seq<int>)
    requires Selects([], keep, picked, at)
    ensures picked == []
  {
    assert |at| == 0 || 0 <= Place(at, 0) < 0;
  }

  ghost function Place(at: seq<int>, k: int): int {
    if 0 <= k < |at| then at[k] else -1
  }

  lemma SelectsLast<T>(xs: seq<T>, keep: T -> bool, picked: seq<T>, at: seq<int>)
    requires Selects(xs, keep, picked, at) && xs != [] && keep(xs[|xs| - 1])
    ensures |at| == |picked| > 0 && at[|at| - 1] == |xs| - 1 && picked[|at| - 1] == xs[|xs| - 1]
  {
    var k :| 0 <= k < |at| && at[k] == |xs| - 1;
    assert k < |at| - 1 ==> Place(at, k) < Place(at, |at| - 1);
  }

  lemma SelectsRest<T>(xs: seq<T>, keep: T -> bool, picked: seq<T>, at: seq<int>)
    requires Selects(xs, keep, picked, at) && xs != [] && !keep(xs[|xs| - 1])
    ensures Selects(xs[..|xs| - 1], keep, picked, at)
  {
    var n := |xs| - 1;
    assert forall k :: 0 <= k < |at| ==> at[k] != n;
    assert forall i :: 0 <= i < n ==> xs[..n][i] == xs[i];
  }

  lemma SelectsLess<T>(xs: seq<T>, keep: T -> bool, picked: seq<T>, at: seq<int>)
    requires Selects(xs, keep, picked, at) && xs != [] && at != [] && at[|at| - 1] == |xs| - 1
    ensures Selects(xs[..|xs| - 1], keep, picked[..|at| - 1], at[..|at| - 1])
  {
    var n, m := |xs| - 1, |at| - 1;
    forall i | 0 <= i < n && keep(xs[..n][i]) ensures i in at[..m] {
      assert xs[..n][i] == xs[i];
      var k :| 0 <= k < |at| && at[k] == i;
      assert at[..m][k] == i;
    }
  }

  lemma OneMoreFiltered<T>(xs: seq<T>, x: T, keep: T -> bool)
    ensures Filter(xs + [x], keep) == Filter(xs, keep) + if keep(x) then [x] else []
  {
    assert (xs + [x])[..|xs|] == xs;
  }

  lemma {:induction false} FilterJoined<T>(xs: seq<T>, ys: seq<T>, keep: T -> bool)
    ensures Filter(xs + ys, keep) == Filter(xs, keep) + Filter(ys, keep)
  {
    if ys == [] {
      assert xs + ys == xs;
    } else {
      var m := |ys| - 1;
      assert (xs + ys)[..|xs + ys| - 1] == xs + ys[..m];
      FilterJoined(xs, ys[..m], keep);
    }
  }

  lemma {:induction false} AllOrNone<T>(xs: seq<T>, keep: T -> bool)
    ensures (forall x :: x in xs ==> keep(x)) ==> Filter(xs, keep) == xs
    ensures (forall x :: x in xs ==> !keep(x)) ==> Filter(xs, keep) == []
    ensures forall x :: x in Filter(xs, keep) <==> x in xs && keep(x)
  {
    if xs != [] {
      var front := xs[..|xs| - 1];
      AllOrNone(front, keep);
      assert xs == front + [xs[|xs| - 1]];
    }
  }

  /** These elements occur, for the first time at these places, in this order; no other
      element occurs. */
  ghost predicate FirstAt<T>(all: seq<T>, firsts: seq<T>, at: seq<int>) {
    && |at| == |firsts|
    && (forall k :: 0 <= k < |at| ==> 0 <= at[k] < |all| && all[at[k]] == firsts[k])
    && (forall j, k :: 0 <= j < k < |at| ==> at[j] < at[k])
    && (forall i :: 0 <= i < |all| ==> MetBy(firsts, at, all[i], i))
  }

  /** The element is among the first ones, with a place no later than this. */
  ghost predicate MetBy<T>(firsts: seq<T>, at: seq<int>, x: T, i: int)
    requires |at| == |firsts|
  {
    exists k :: 0 <= k < |at| && at[k] <= i && firsts[k] == x
  }

  lemma MetStays<T>(firsts: seq<T>, at: seq<int>, x: T, i: int, y: T, n: int)
    requires |at| == |firsts| && MetBy(firsts, at, x, i)
    ensures MetBy(firsts + [y], at + [n], x, i)
  {
    var k :| 0 <= k < |at| && at[k] <= i && firsts[k] == x;
    assert (firsts + [y])[k] == x && (at + [n])[k] == at[k];
  }

  lemma MetNow<T>(firsts: seq<T>, at: seq<int>, x: T, n: int)
    requires |at| == |firsts|
    ensures MetBy(firsts + [x], at + [n], x, n)
  {
    assert (firsts + [x])[|firsts|] == x && (at + [n])[|at|] == n;
  }

  lemma MetAgain<T>(all: seq<T>, x: T, firsts: seq<T>, at: seq<int>)
    requires FirstAt(all, firsts, at) && x in firsts
    ensures FirstAt(all + [x], firsts, at)
  {
    var k :| 0 <= k < |firsts| && firsts[k] == x;
    assert MetBy(firsts, at, x, |all|);
  }

  lemma MetFirst<T>(all: seq<T>, x: T, firsts: seq<T>, at: seq<int>)
    requires FirstAt(all, firsts, at)
    ensures FirstAt(all + [x], firsts + [x], at + [|all|])
  {
    hide MetBy;
    var n := |all|;
    MetNow(firsts, at, x, n);
    forall i | 0 <= i < n ensures MetBy(firsts + [x], at + [n], all[i], i) {
      MetStays(firsts, at, all[i], i, x, n);
    }
  }
}
