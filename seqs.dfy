/** Order-preserving selection and concatenation of sequences: the table
    operations behind a boolean row mask (`df[mask]`) and `pd.concat`. */
module Seqs {

  /** The elements of `s` that satisfy `p`, in their original order. */
  function Filter<T>(s: seq<T>, p: T -> bool): (r: seq<T>)
    ensures |r| <= |s|
  {
    if s == [] then [] else (if p(s[0]) then [s[0]] else []) + Filter(s[1..], p)
  }

  /** An element is kept exactly when it occurs in `s` and satisfies `p`. */
  lemma {:induction false} FilterMembers<T>(s: seq<T>, p: T -> bool)
    ensures forall x :: x in Filter(s, p) <==> x in s && p(x)
  {
    if s != [] {
      FilterMembers(s[1..], p);
      assert s == [s[0]] + s[1..];
    }
  }

  /** Filtering a concatenation filters each part. */
  lemma {:induction false} FilterAppend<T>(a: seq<T>, b: seq<T>, p: T -> bool)
    ensures Filter(a + b, p) == Filter(a, p) + Filter(b, p)
  {
    if a != [] {
      assert (a + b)[1..] == a[1..] + b;
      FilterAppend(a[1..], b, p);
    } else {
      assert a + b == b;
    }
  }

  lemma FilterCons<T>(x: T, s: seq<T>, p: T -> bool)
    ensures Filter([x] + s, p) == (if p(x) then [x] else []) + Filter(s, p)
  {
    assert ([x] + s)[1..] == s;
  }

  lemma FilterSingleton<T>(x: T, p: T -> bool)
    ensures Filter([x], p) == if p(x) then [x] else []
  {
    assert [x][1..] == [];
  }

  /** Extending the scanned prefix by one element adds that element exactly
      when it satisfies `p`. */
  lemma FilterSnoc<T>(s: seq<T>, i: nat, p: T -> bool)
    requires i < |s|
    ensures Filter(s[..i + 1], p) == Filter(s[..i], p) + (if p(s[i]) then [s[i]] else [])
  {
    assert s[..i + 1] == s[..i] + [s[i]];
    FilterAppend(s[..i], [s[i]], p);
  }

  /** Filtering with `p` and then with `q` is filtering once with both. */
  lemma {:induction false} FilterTwice<T>(s: seq<T>, p: T -> bool, q: T -> bool, pq: T -> bool)
    requires forall x :: pq(x) == (p(x) && q(x))
    ensures Filter(Filter(s, p), q) == Filter(s, pq)
  {
    if s != [] {
      FilterTwice(s[1..], p, q, pq);
      var head := if p(s[0]) then [s[0]] else [];
      FilterAppend(head, Filter(s[1..], p), q);
    }
  }

  /** The ascending positions `i >= from` of `s` at which `p` holds. */
  function KeptFrom<T>(s: seq<T>, p: T -> bool, from: nat): (idx: seq<nat>)
    requires from <= |s|
    ensures forall k | 0 <= k < |idx| :: from <= idx[k] < |s|
    decreases |s| - from
  {
    if from == |s| then []
    else (if p(s[from]) then [from] else []) + KeptFrom(s, p, from + 1)
  }

  /** Every kept position satisfies `p`. */
  lemma {:induction false} KeptFromSatisfy<T>(s: seq<T>, p: T -> bool, from: nat)
    requires from <= |s|
    ensures forall k | 0 <= k < |KeptFrom(s, p, from)| :: p(s[KeptFrom(s, p, from)[k]])
    decreases |s| - from
  {
    if from < |s| {
      KeptFromSatisfy(s, p, from + 1);
      var idx, idx' := KeptFrom(s, p, from), KeptFrom(s, p, from + 1);
      if p(s[from]) {
        assert idx == [from] + idx';
        forall k | 0 <= k < |idx| ensures p(s[idx[k]]) {
          if k > 0 {
            assert idx[k] == idx'[k - 1];
          }
        }
      } else {
        assert idx == idx';
      }
    }
  }

  /** Strictly increasing positions. */
  predicate Ascending(xs: seq<nat>)
  {
    forall k, l | 0 <= k < l < |xs| :: xs[k] < xs[l]
  }

  lemma AscendingCons(x: nat, xs: seq<nat>)
    requires Ascending(xs) && forall k | 0 <= k < |xs| :: x < xs[k]
    ensures Ascending([x] + xs)
  {
    var ys := [x] + xs;
    forall k, l | 0 <= k < l < |ys| ensures ys[k] < ys[l] {
      assert ys[l] == xs[l - 1];
      if k > 0 {
        assert ys[k] == xs[k - 1];
      }
    }
  }

  /** The kept positions ascend. */
  lemma {:induction false} KeptFromAscending<T>(s: seq<T>, p: T -> bool, from: nat)
    requires from <= |s|
    ensures Ascending(KeptFrom(s, p, from))
    decreases |s| - from
  {
    if from < |s| {
      KeptFromAscending(s, p, from + 1);
      if p(s[from]) {
        KeptFromSatisfy(s, p, from + 1);
        AscendingCons(from, KeptFrom(s, p, from + 1));
      }
    }
  }

  /** Every satisfying position from `from` on is kept. */
  lemma {:induction false} KeptFromComplete<T>(s: seq<T>, p: T -> bool, from: nat)
    requires from <= |s|
    ensures forall i | from <= i < |s| && p(s[i]) :: i in KeptFrom(s, p, from)
    decreases |s| - from
  {
    if from < |s| {
      KeptFromComplete(s, p, from + 1);
    }
  }

  /** The filtered sequence lists exactly the satisfying positions of `s`,
      once each and in ascending order: filtering keeps every survivor,
      drops every other element and never reorders. */
  lemma {:induction false} FilterIsSubsequence<T>(s: seq<T>, p: T -> bool, from: nat)
    requires from <= |s|
    ensures var idx := KeptFrom(s, p, from);
            |Filter(s[from..], p)| == |idx|
            && forall k | 0 <= k < |idx| :: Filter(s[from..], p)[k] == s[idx[k]]
    decreases |s| - from
  {
    if from < |s| {
      var rest := s[from + 1..];
      assert s[from..] == [s[from]] + rest;
      FilterCons(s[from], rest, p);
      FilterIsSubsequence(s, p, from + 1);
      if p(s[from]) {
        var idx, idx' := KeptFrom(s, p, from), KeptFrom(s, p, from + 1);
        assert idx == [from] + idx';
        forall k | 0 < k < |idx|
          ensures Filter(s[from..], p)[k] == s[idx[k]]
        {
          assert idx[k] == idx'[k - 1];
        }
      }
    }
  }

  /** `frame.apply(f, axis=1)`: `f` applied to each row in turn, the
      results in row order. */
  method Apply<A, B>(rows: seq<A>, f: A -> B) returns (out: seq<B>)
    ensures |out| == |rows| && forall k | 0 <= k < |rows| :: out[k] == f(rows[k])
  {
    out := [];
    var k := 0;
    while k < |rows|
      invariant 0 <= k <= |rows|
      invariant |out| == k && forall l | 0 <= l < k :: out[l] == f(rows[l])
    {
      out := out + [f(rows[k])];
      k := k + 1;
    }
  }

  /** `pd.concat` of a list of tables. */
  function Flatten<T>(ts: seq<seq<T>>): seq<T>
  {
    if ts == [] then [] else Flatten(ts[..|ts| - 1]) + ts[|ts| - 1]
  }

  lemma {:induction false} FlattenAppend<T>(a: seq<seq<T>>, b: seq<seq<T>>)
    ensures Flatten(a + b) == Flatten(a) + Flatten(b)
    decreases |b|
  {
    if b != [] {
      assert (a + b)[..|a + b| - 1] == a + b[..|b| - 1];
      FlattenAppend(a, b[..|b| - 1]);
    } else {
      assert a + b == a;
    }
  }

  /** An element of the concatenation is an element of one of the parts. */
  lemma {:induction false} FlattenMember<T>(ts: seq<seq<T>>, x: T)
    requires x in Flatten(ts)
    ensures exists t | t in ts :: x in t
  {
    var n := |ts| - 1;
    if x !in ts[n] {
      FlattenMember(ts[..n], x);
      var t :| t in ts[..n] && x in t;
      assert t in ts;
    }
  }

  /** The concatenation splits around the table at position `i`. */
  lemma FlattenAround<T>(ts: seq<seq<T>>, i: nat)
    requires i < |ts|
    ensures Flatten(ts) == Flatten(ts[..i]) + ts[i] + Flatten(ts[i + 1..])
  {
    SplitAt(ts, i + 1);
    TakeSnoc(ts, i);
    FlattenAppend(ts[..i + 1], ts[i + 1..]);
    FlattenAppend(ts[..i], [ts[i]]);
    FlattenSingleton(ts[i]);
  }

  /** One more sequence of a prefix adds its elements at the end. */
  lemma FlattenTakeSnoc<T>(ts: seq<seq<T>>, i: nat)
    requires i < |ts|
    ensures Flatten(ts[..i + 1]) == Flatten(ts[..i]) + ts[i]
  {
    TakeSnoc(ts, i);
    FlattenAppend(ts[..i], [ts[i]]);
    FlattenSingleton(ts[i]);
  }

  lemma AppendTakeSnoc<T>(a: seq<T>, t: seq<T>, j: nat)
    requires j < |t|
    ensures a + t[..j + 1] == (a + t[..j]) + [t[j]]
  {
    TakeSnoc(t, j);
  }

  lemma SplitAt<T>(s: seq<T>, i: nat)
    requires i <= |s|
    ensures s == s[..i] + s[i..]
  {
  }

  lemma TakeSnoc<T>(s: seq<T>, i: nat)
    requires i < |s|
    ensures s[..i + 1] == s[..i] + [s[i]]
  {
  }

  lemma FlattenSingleton<T>(t: seq<T>)
    ensures Flatten([t]) == t
  {
    assert [t][..0] == [];
  }

  predicate NonEmpty<T>(t: seq<T>)
  {
    t != []
  }

  /** Leaving out empty tables does not change the concatenation. */
  lemma {:induction false} FlattenWithoutEmpty<T>(ts: seq<seq<T>>)
    ensures Flatten(Filter(ts, NonEmpty)) == Flatten(ts)
  {
    if ts != [] {
      FlattenWithoutEmpty(ts[1..]);
      assert ts == [ts[0]] + ts[1..];
      FlattenAppend([ts[0]], ts[1..]);
      var head := if ts[0] != [] then [ts[0]] else [];
      FlattenAppend(head, Filter(ts[1..], NonEmpty));
      assert Flatten([ts[0]]) == ts[0] by { assert [ts[0]][..0] == []; }
      assert Flatten<T>([]) == [];
    }
  }

  /** Each element mapped to a sequence, the sequences concatenated in
      order. */
  function FlatMap<A, B>(s: seq<A>, f: A -> seq<B>): seq<B>
  {
    if s == [] then [] else FlatMap(s[..|s| - 1], f) + f(s[|s| - 1])
  }

  lemma {:induction false} FlatMapAppend<A, B>(a: seq<A>, b: seq<A>, f: A -> seq<B>)
    ensures FlatMap(a + b, f) == FlatMap(a, f) + FlatMap(b, f)
    decreases |b|
  {
    if b != [] {
      assert (a + b)[..|a + b| - 1] == a + b[..|b| - 1];
      FlatMapAppend(a, b[..|b| - 1], f);
    } else {
      assert a + b == a;
    }
  }
}
