/** Ordered selections from a sequence. */
module Subsequences {
  /** a is b with some elements left out. */
  ghost predicate Subsequence<T>(a: seq<T>, b: seq<T>) {
    if a == [] then true
    else if b == [] then false
    else
      || (a[|a| - 1] == b[|b| - 1] && Subsequence(a[..|a| - 1], b[..|b| - 1]))
      || Subsequence(a, b[..|b| - 1])
  }

  lemma {:induction false} SubsequenceGrows<T>(a: seq<T>, b: seq<T>, c: seq<T>)
    requires Subsequence(a, b) && b <= c
    ensures Subsequence(a, c)
    decreases |c|
  {
    if |b| == |c| {
      assert b == c;
    } else if a != [] {
      SubsequenceGrows(a, b, c[..|c| - 1]);
    }
  }

  lemma SubsequenceBoth<T>(a: seq<T>, b: seq<T>, x: T)
    requires Subsequence(a, b)
    ensures Subsequence(a + [x], b + [x])
  {}

  lemma SumAssociates<T>(a: seq<T>, b: seq<T>, c: seq<T>)
    ensures a + (b + c) == a + b + c
  {}

  lemma {:induction false} SubsequenceAppend<T>(a: seq<T>, b: seq<T>, c: seq<T>)
    requires Subsequence(a, b)
    ensures Subsequence(a + c, b + c)
    decreases |c|
  {
    hide Subsequence;
    if c == [] {
      assert a + c == a && b + c == b;
    } else {
      var front, x := c[..|c| - 1], c[|c| - 1];
      SubsequenceAppend(a, b, front);
      SubsequenceBoth(a + front, b + front, x);
      assert c == front + [x];
      SumAssociates(a, front, [x]);
      SumAssociates(b, front, [x]);
    }
  }

  /** Leaving out an element in the middle as well. */
  lemma {:induction false} SubsequenceSkips<T>(a: seq<T>, x: T, c: seq<T>, b: seq<T>)
    requires Subsequence(a + [x] + c, b)
    ensures Subsequence(a + c, b)
    decreases |b|
  {
    var all := a + [x] + c;
    var b' := b[..|b| - 1];
    if Subsequence(all, b') {
      SubsequenceSkips(a, x, c, b');
      SubsequenceGrows(a + c, b', b);
    } else if c == [] {
      assert all[..|all| - 1] == a + c;
      SubsequenceGrows(a + c, b', b);
    } else {
      assert all[..|all| - 1] == a + [x] + c[..|c| - 1];
      SubsequenceSkips(a, x, c[..|c| - 1], b');
      SubsequenceBoth(a + c[..|c| - 1], b', b[|b| - 1]);
      assert a + c == a + c[..|c| - 1] + [c[|c| - 1]] && b == b' + [b[|b| - 1]];
    }
  }

  /** The places of a selection: ascending, and each holds what was selected. */
  lemma {:induction false} SelectedFrom<T>(a: seq<T>, b: seq<T>) returns (at: seq<nat>)
    requires Subsequence(a, b)
    ensures |at| == |a| && forall k :: 0 <= k < |a| ==> at[k] < |b| && b[at[k]] == a[k]
    ensures forall j, k :: 0 <= j < k < |a| ==> at[j] < at[k]
    decreases |b|
  {
    if a == [] {
      at := [];
    } else {
      var b' := b[..|b| - 1];
      if Subsequence(a, b') {
        at := SelectedFrom(a, b');
      } else {
        at := SelectedFrom(a[..|a| - 1], b');
        at := at + [|b| - 1];
      }
    }
  }
}
