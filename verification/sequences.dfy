/** The two list primitives the storefront builds its state from: a stable
    filter (JavaScript's `Array.prototype.filter`) and a left-to-right sum
    (the `reduce((acc, x) => acc + f(x), 0)` idiom). */
module Sequences {

  /** The elements of `s` that satisfy `keep`, in their original order: no
      longer than `s`, and holding only kept elements. */
  function Filter<T(!new)>(s: seq<T>, keep: T -> bool): (r: seq<T>)
    ensures |r| <= |s|
    ensures forall i :: 0 <= i < |r| ==> keep(r[i])
  {
    if s == [] then []
    else if keep(s[0]) then [s[0]] + Filter(s[1..], keep)
    else Filter(s[1..], keep)
  }

  /** An element is in the filtered sequence exactly when it is in `s` and
      is kept. */
  lemma {:induction false} FilterMembers<T(!new)>(s: seq<T>, keep: T -> bool)
    ensures forall x :: x in Filter(s, keep) <==> x in s && keep(x)
  {
    if s != [] {
      FilterMembers(s[1..], keep);
      assert s == [s[0]] + s[1..];
    }
  }

  /** `idx` embeds `r` into `s` in increasing position order, and it hits
      every position of `s` whose element is kept. */
  ghost predicate Embeds<T(!new)>(s: seq<T>, keep: T -> bool, r: seq<T>, idx: seq<nat>)
  {
    && |idx| == |r|
    && (forall k :: 0 <= k < |idx| ==> idx[k] < |s| && r[k] == s[idx[k]])
    && (forall k, l :: 0 <= k < l < |idx| ==> idx[k] < idx[l])
    && (forall i :: 0 <= i < |s| && keep(s[i]) ==> i in idx)
  }

  /** `r` is exactly the kept elements of `s`, in the source order: `idx`
      embeds it into `s` position by position, every element of `r` is kept,
      and no kept position of `s` is missed. */
  ghost predicate IsSelection<T(!new)>(s: seq<T>, keep: T -> bool, r: seq<T>, idx: seq<nat>)
  {
    Embeds(s, keep, r, idx) && (forall k :: 0 <= k < |r| ==> keep(r[k]))
  }

  /** Filtering is stable: its result is an order-preserving selection of
      exactly the kept positions. */
  lemma FilterIsSelection<T(!new)>(s: seq<T>, keep: T -> bool) returns (idx: seq<nat>)
    ensures IsSelection(s, keep, Filter(s, keep), idx)
  {
    idx := FilterEmbeds(s, keep);
  }

  lemma {:induction false} FilterEmbeds<T(!new)>(s: seq<T>, keep: T -> bool) returns (idx: seq<nat>)
    ensures Embeds(s, keep, Filter(s, keep), idx)
  {
    if s == [] {
      idx := [];
    } else {
      var r := Filter(s[1..], keep);
      var rest := FilterEmbeds(s[1..], keep);
      if keep(s[0]) {
        assert Filter(s, keep) == [s[0]] + r;
        idx := KeepHead(s, keep, r, rest);
      } else {
        assert Filter(s, keep) == r;
        idx := DropHead(s, keep, r, rest);
      }
    }
  }

  /** An embedding into `s[1..]` extends to `s` when the head is kept ... */
  lemma KeepHead<T(!new)>(s: seq<T>, keep: T -> bool, r: seq<T>, rest: seq<nat>) returns (idx: seq<nat>)
    requires s != [] && keep(s[0])
    requires Embeds(s[1..], keep, r, rest)
    ensures Embeds(s, keep, [s[0]] + r, idx)
  {
    var shifted := ShiftSelection(s, keep, r, rest);
    idx := [0] + shifted;
    forall k | 0 < k < |idx|
      ensures idx[k] < |s| && ([s[0]] + r)[k] == s[idx[k]]
    {
      assert idx[k] == shifted[k - 1];
    }
    forall i | 0 < i < |s| && keep(s[i])
      ensures i in idx
    {
      assert i in shifted;
    }
  }

  /** ... and when it is dropped. */
  lemma DropHead<T(!new)>(s: seq<T>, keep: T -> bool, r: seq<T>, rest: seq<nat>) returns (idx: seq<nat>)
    requires s != [] && !keep(s[0])
    requires Embeds(s[1..], keep, r, rest)
    ensures Embeds(s, keep, r, idx)
  {
    idx := ShiftSelection(s, keep, r, rest);
  }

  /** Moves an embedding into `s[1..]` into `s` by shifting each position by one. */
  lemma ShiftSelection<T(!new)>(s: seq<T>, keep: T -> bool, r: seq<T>, rest: seq<nat>) returns (shifted: seq<nat>)
    requires s != []
    requires Embeds(s[1..], keep, r, rest)
    ensures |shifted| == |r|
    ensures forall k :: 0 <= k < |shifted| ==> 0 < shifted[k] < |s| && r[k] == s[shifted[k]]
    ensures forall k, l :: 0 <= k < l < |shifted| ==> shifted[k] < shifted[l]
    ensures forall i :: 0 < i < |s| && keep(s[i]) ==> i in shifted
  {
    shifted := seq(|rest|, k requires 0 <= k < |rest| => rest[k] + 1);
    forall i | 0 < i < |s| && keep(s[i])
      ensures i in shifted
    {
      assert s[1..][i - 1] == s[i];
      assert i - 1 in rest;
      var k :| 0 <= k < |rest| && rest[k] == i - 1;
      assert shifted[k] == i;
    }
  }

  lemma {:induction false} FilterAppend<T(!new)>(a: seq<T>, b: seq<T>, keep: T -> bool)
    ensures Filter(a + b, keep) == Filter(a, keep) + Filter(b, keep)
  {
    if a == [] {
      assert a + b == b;
    } else {
      assert (a + b)[0] == a[0];
      assert (a + b)[1..] == a[1..] + b;
      FilterAppend(a[1..], b, keep);
    }
  }

  /** Filtering with a predicate that keeps every element returns `s` itself. */
  lemma {:induction false} FilterKeepsAll<T(!new)>(s: seq<T>, keep: T -> bool)
    requires forall x :: x in s ==> keep(x)
    ensures Filter(s, keep) == s
  {
    if s != [] {
      assert s[0] in s;
      FilterKeepsAll(s[1..], keep);
      assert [s[0]] + s[1..] == s;
    }
  }

  /** Filtering with a predicate that keeps no element returns nothing. */
  lemma {:induction false} FilterKeepsNone<T(!new)>(s: seq<T>, keep: T -> bool)
    requires forall i :: 0 <= i < |s| ==> !keep(s[i])
    ensures Filter(s, keep) == []
  {
    if s != [] {
      assert forall i :: 1 <= i < |s| ==> s[1..][i - 1] == s[i];
      FilterKeepsNone(s[1..], keep);
    }
  }

  /** Two predicates that agree on the elements of `s` filter it alike. */
  lemma {:induction false} FilterAgrees<T(!new)>(s: seq<T>, keep: T -> bool, keep': T -> bool)
    requires forall x :: x in s ==> keep(x) == keep'(x)
    ensures Filter(s, keep) == Filter(s, keep')
  {
    if s != [] {
      assert s[0] in s;
      FilterAgrees(s[1..], keep, keep');
    }
  }

  /** `s.reduce((acc, x) => acc + f(x), 0)`: the left-to-right sum of `f`
      over `s`. It is zero exactly when every term is. */
  function Sum<T>(s: seq<T>, f: T -> nat): (r: nat)
    ensures r == 0 <==> forall i :: 0 <= i < |s| ==> f(s[i]) == 0
  {
    if s == [] then 0
    else
      var n := |s| - 1;
      assert forall i :: 0 <= i < n ==> s[..n][i] == s[i];
      Sum(s[..n], f) + f(s[n])
  }

  lemma {:induction false} SumAppend<T>(a: seq<T>, b: seq<T>, f: T -> nat)
    ensures Sum(a + b, f) == Sum(a, f) + Sum(b, f)
  {
    if b == [] {
      assert a + b == a;
    } else {
      var n := |b| - 1;
      assert (a + b)[..|a + b| - 1] == a + b[..n];
      assert (a + b)[|a + b| - 1] == b[n];
      SumAppend(a, b[..n], f);
    }
  }

  lemma SumSingle<T>(x: T, f: T -> nat)
    ensures Sum([x], f) == f(x)
  {
    assert [x][..0] == [];
  }

  /** Replacing the element at `k` changes the sum by the difference of the
      two terms, and nothing else. */
  lemma {:induction false} SumUpdate<T>(s: seq<T>, k: nat, x: T, f: T -> nat)
    requires k < |s|
    ensures Sum(s[k := x], f) + f(s[k]) == Sum(s, f) + f(x)
  {
    assert s == s[..k] + [s[k]] + s[k + 1..];
    assert s[k := x] == s[..k] + [x] + s[k + 1..];
    SumAppend(s[..k] + [s[k]], s[k + 1..], f);
    SumAppend(s[..k], [s[k]], f);
    SumAppend(s[..k] + [x], s[k + 1..], f);
    SumAppend(s[..k], [x], f);
    SumSingle(s[k], f);
    SumSingle(x, f);
  }

  /** Removing the element at `k` lowers the sum by exactly its term. */
  lemma {:induction false} SumRemoveAt<T>(s: seq<T>, k: nat, f: T -> nat)
    requires k < |s|
    ensures Sum(s[..k] + s[k + 1..], f) + f(s[k]) == Sum(s, f)
  {
    assert s == s[..k] + [s[k]] + s[k + 1..];
    SumAppend(s[..k] + [s[k]], s[k + 1..], f);
    SumAppend(s[..k], [s[k]], f);
    SumAppend(s[..k], s[k + 1..], f);
    SumSingle(s[k], f);
  }
}
