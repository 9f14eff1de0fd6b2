/** Ordering of the registry's establishment files: each path is keyed by
    the number in its first `PLAN<digits>` token (the regular expression
    `PLAN(\d+)`), and the paths are sorted stably by that number. A path
    without the token aborts the run. */
module Sources {
  import opened Common
  import opened Text
  import opened Seqs

  /** The regular expression `PLAN(\d+)` matches at position `i`. */
  predicate MatchesAt(p: string, i: nat)
  {
    i + 5 <= |p| && p[i..i + 4] == "PLAN" && IsDigit(p[i + 4])
  }

  /** `re.search`: the leftmost position at or after `from` where the
      pattern matches. */
  function FirstMatch(p: string, from: nat): (r: Option<nat>)
    ensures r.Some? ==> from <= r.value && MatchesAt(p, r.value)
                        && forall j | from <= j < r.value :: !MatchesAt(p, j)
    ensures r.None? ==> forall j | from <= j :: !MatchesAt(p, j)
    decreases |p| - from
  {
    if from + 5 > |p| then None
    else if MatchesAt(p, from) then Some(from)
    else FirstMatch(p, from + 1)
  }

  /** Length of the greedy `\d+` run that starts at `i`. */
  function DigitRun(p: string, i: nat): (n: nat)
    requires i <= |p|
    ensures i + n <= |p|
    ensures forall j | i <= j < i + n :: IsDigit(p[j])
    ensures i + n < |p| ==> !IsDigit(p[i + n])
    decreases |p| - i
  {
    if i == |p| || !IsDigit(p[i]) then 0 else 1 + DigitRun(p, i + 1)
  }

  /** `int(re.search(PLAN_PATTERN, path).group(1))`, or None where
      `re.search` finds nothing (and `.group` would raise). */
  function PlanKey(p: string): Option<nat>
  {
    match FirstMatch(p, 0)
    case None => None
    case Some(i) => Some(DigitsValue(p[i + 4 .. i + 4 + DigitRun(p, i + 4)]))
  }

  /** A path that begins with `PLAN` and the decimal text of `n`, followed
      by anything that is not a further digit, has key `n`. */
  lemma PlanKeyOfToken(n: nat, rest: string)
    requires rest == [] || !IsDigit(rest[0])
    ensures PlanKey("PLAN" + NatToString(n) + rest) == Some(n)
  {
    var d := NatToString(n);
    var p := "PLAN" + d + rest;
    assert FirstMatch(p, 0) == Some(0) by {
      assert p[..4] == "PLAN" && p[4] == d[0];
    }
    assert p[4 .. 4 + |d|] == d;
    assert DigitRun(p, 4) == |d| by {
      assert 4 + |d| < |p| ==> p[4 + |d|] == rest[0];
      DigitRunIs(p, 4, |d|);
    }
    DigitsValueOfNatToString(n);
  }

  /** A maximal run of `n` digits at `i` is the run `DigitRun` finds. */
  lemma DigitRunIs(p: string, i: nat, n: nat)
    requires i + n <= |p| && AllDigits(p[i..i + n])
    requires i + n < |p| ==> !IsDigit(p[i + n])
    ensures DigitRun(p, i) == n
  {
    var m := DigitRun(p, i);
    forall j | i <= j < i + n ensures IsDigit(p[j]) {
      assert p[i..i + n][j - i] == p[j];
    }
    forall j | i <= j < i + m ensures IsDigit(p[j]) {
      assert p[i..i + m][j - i] == p[j];
    }
  }

  /** A path paired with its sort key. */
  datatype Source = Source(key: nat, path: string)

  /** Keys of every path, in the given order; the first path without a
      token raises. */
  function KeyAll(paths: seq<string>): (r: Result<seq<Source>, Failure>)
    ensures r.Ok? ==> |r.value| == |paths|
                      && forall k | 0 <= k < |paths| :: PlanKey(paths[k]).Some?
                                                       && r.value[k] == Source(PlanKey(paths[k]).value, paths[k])
    ensures r.Err? <==> exists k | 0 <= k < |paths| :: PlanKey(paths[k]).None?
    ensures r.Err? ==> r.error.NoSequenceToken? && PlanKey(r.error.path).None? && r.error.path in paths
  {
    if paths == [] then Ok([])
    else match PlanKey(paths[0])
      case None => Err(NoSequenceToken(paths[0]))
      case Some(n) =>
        match KeyAll(paths[1..])
        case Err(e) => Err(e)
        case Ok(rest) => Ok([Source(n, paths[0])] + rest)
  }

  predicate SortedByKey(s: seq<Source>)
  {
    forall k, l | 0 <= k < l < |s| :: s[k].key <= s[l].key
  }

  /** Place `x` before the first element whose key is at least its own. */
  function Insert(x: Source, s: seq<Source>): seq<Source>
  {
    if s == [] || x.key <= s[0].key then [x] + s else [s[0]] + Insert(x, s[1..])
  }

  /** `sorted(..., key=...)`: insertion sort that keeps equal keys in their
      input order. */
  function SortByKey(s: seq<Source>): seq<Source>
  {
    if s == [] then [] else Insert(s[0], SortByKey(s[1..]))
  }

  /** Insertion adds exactly `x` and keeps a sorted sequence sorted. */
  lemma {:induction false} InsertSorted(x: Source, s: seq<Source>)
    requires SortedByKey(s)
    ensures SortedByKey(Insert(x, s))
    ensures multiset(Insert(x, s)) == multiset(s) + multiset{x}
  {
    InsertPermutes(x, s);
    if s != [] && x.key > s[0].key {
      var tail := s[1..];
      var r := Insert(x, tail);
      InsertSorted(x, tail);
      InsertPermutes(x, tail);
      forall y | y in r ensures s[0].key <= y.key {
        assert y in multiset(r);
      }
      ConsSorted(s[0], r);
    }
  }

  lemma {:induction false} InsertPermutes(x: Source, s: seq<Source>)
    ensures multiset(Insert(x, s)) == multiset(s) + multiset{x}
  {
    if s != [] && x.key > s[0].key {
      InsertPermutes(x, s[1..]);
      assert s == [s[0]] + s[1..];
    }
  }

  /** An element no larger than any element of a sorted sequence can be
      put in front of it. */
  lemma ConsSorted(h: Source, r: seq<Source>)
    requires SortedByKey(r) && forall y | y in r :: h.key <= y.key
    ensures SortedByKey([h] + r)
  {
    var hr := [h] + r;
    forall k, l | 0 <= k < l < |hr| ensures hr[k].key <= hr[l].key {
      assert hr[l] == r[l - 1];
      if k > 0 {
        assert hr[k] == r[k - 1];
      }
    }
  }

  /** The sort yields a rearrangement of its input that is ascending in the
      key. */
  lemma {:induction false} SortByKeySorted(s: seq<Source>)
    ensures SortedByKey(SortByKey(s))
    ensures multiset(SortByKey(s)) == multiset(s)
  {
    if s != [] {
      SortByKeySorted(s[1..]);
      InsertSorted(s[0], SortByKey(s[1..]));
      InsertPermutes(s[0], SortByKey(s[1..]));
      assert s == [s[0]] + s[1..];
    }
  }

  function KeyIs(v: nat): Source -> bool
  {
    (x: Source) => x.key == v
  }

  /** Insertion puts `x` ahead of every element with the same key and
      leaves the order among each key's elements alone. */
  lemma {:induction false} InsertKeepsKeyOrder(x: Source, s: seq<Source>, v: nat)
    ensures Filter(Insert(x, s), KeyIs(v)) == Filter([x] + s, KeyIs(v))
  {
    if s != [] && x.key > s[0].key {
      var p := KeyIs(v);
      var tail := s[1..];
      var r := Insert(x, tail);
      InsertKeepsKeyOrder(x, tail, v);
      assert Insert(x, s) == [s[0]] + r;
      assert s == [s[0]] + tail;
      var hx := if p(x) then [x] else [];
      var h0 := if p(s[0]) then [s[0]] else [];
      FilterCons(s[0], r, p);
      FilterCons(x, tail, p);
      FilterCons(x, s, p);
      FilterCons(s[0], tail, p);
      // x and s[0] have different keys, so at most one of them is kept
      assert hx == [] || h0 == [];
      calc {
        Filter(Insert(x, s), p);
        h0 + (hx + Filter(tail, p));
        hx + (h0 + Filter(tail, p));
        Filter([x] + s, p);
      }
    }
  }

  /** `sorted` is stable: among paths with the same key, the input order is
      kept. */
  lemma {:induction false} SortIsStable(s: seq<Source>, v: nat)
    ensures Filter(SortByKey(s), KeyIs(v)) == Filter(s, KeyIs(v))
  {
    if s != [] {
      var p := KeyIs(v);
      var rest := SortByKey(s[1..]);
      SortIsStable(s[1..], v);
      InsertKeepsKeyOrder(s[0], rest, v);
      FilterAppend([s[0]], rest, p);
      FilterSingleton(s[0], p);
      assert SortByKey(s) == Insert(s[0], rest);
    }
  }

  function Paths(s: seq<Source>): (r: seq<string>)
    ensures |r| == |s| && forall k | 0 <= k < |s| :: r[k] == s[k].path
  {
    if s == [] then [] else [s[0].path] + Paths(s[1..])
  }

  /** The establishment files in processing order. */
  function OrderSources(paths: seq<string>): Result<seq<string>, Failure>
  {
    match KeyAll(paths)
    case Err(e) => Err(e)
    case Ok(keyed) => Ok(Paths(SortByKey(keyed)))
  }

  /** The processing order is a rearrangement of the given paths that is
      ascending in the numeric key and keeps equal keys in input order;
      it fails exactly when some path lacks the token. */
  lemma OrderSourcesSpec(paths: seq<string>)
    ensures OrderSources(paths).Err? <==> exists k | 0 <= k < |paths| :: PlanKey(paths[k]).None?
    ensures OrderSources(paths).Ok? ==>
              var keyed := KeyAll(paths).value;
              var sorted := SortByKey(keyed);
              && OrderSources(paths).value == Paths(sorted)
              && multiset(sorted) == multiset(keyed)
              && (forall x | x in sorted :: PlanKey(x.path) == Some(x.key))
              && SortedByKey(sorted)
              && (forall v :: Filter(sorted, KeyIs(v)) == Filter(keyed, KeyIs(v)))
  {
    if KeyAll(paths).Ok? {
      var keyed := KeyAll(paths).value;
      var sorted := SortByKey(keyed);
      SortByKeySorted(keyed);
      forall x | x in sorted ensures PlanKey(x.path) == Some(x.key) {
        assert x in multiset(sorted);
        assert x in multiset(keyed);
        var k :| 0 <= k < |keyed| && keyed[k] == x;
      }
      forall v ensures Filter(sorted, KeyIs(v)) == Filter(keyed, KeyIs(v)) {
        SortIsStable(keyed, v);
      }
    }
  }

  /** Every path in the processing order is one of the given paths. */
  lemma OrderedFromInput(paths: seq<string>)
    requires OrderSources(paths).Ok?
    ensures forall p | p in OrderSources(paths).value :: p in paths
  {
    var keyed := KeyAll(paths).value;
    var sorted := SortByKey(keyed);
    SortByKeySorted(keyed);
    forall p | p in OrderSources(paths).value ensures p in paths {
      var k :| 0 <= k < |sorted| && Paths(sorted)[k] == p;
      assert sorted[k] in multiset(keyed);
      var j :| 0 <= j < |keyed| && keyed[j] == sorted[k];
      assert paths[j] == p;
    }
  }

  /** Three sources whose keys arrive in the order middle, largest,
      smallest are sorted smallest, middle, largest. */
  lemma SortThree(a: Source, b: Source, c: Source)
    requires c.key < a.key < b.key
    ensures SortByKey([a, b, c]) == [c, a, b]
  {
    assert [a, b, c][1..] == [b, c] && [b, c][1..] == [c] && [c][1..] == [];
    assert SortByKey([c]) == [c];
    assert Insert(b, [c]) == [c, b] by {
      assert Insert(b, []) == [b];
    }
    assert SortByKey([b, c]) == [c, b];
    assert Insert(a, [c, b]) == [c, a, b] by {
      assert [c, b][1..] == [b] && Insert(a, [b]) == [a, b];
      assert [c] + [a, b] == [c, a, b];
    }
  }

  /** Numeric, not lexical: files numbered 2, 10 and 1 (for instance
      `PLAN2.ESTABELE`, `PLAN10.ESTABELE`, `PLAN1.ESTABELE`, see
      PlanKeyOfToken) are processed as 1, 2, 10. */
  lemma NumericOrderExample(p2: string, p10: string, p1: string)
    requires PlanKey(p2) == Some(2) && PlanKey(p10) == Some(10) && PlanKey(p1) == Some(1)
    ensures OrderSources([p2, p10, p1]) == Ok([p1, p2, p10])
  {
    var s2, s10, s1 := Source(2, p2), Source(10, p10), Source(1, p1);
    assert KeyAll([p2, p10, p1]) == Ok([s2, s10, s1]) by {
      assert [p2, p10, p1][1..] == [p10, p1] && [p10, p1][1..] == [p1] && [p1][1..] == [];
      assert KeyAll([p1]) == Ok([s1]) by { assert [s1] + [] == [s1]; }
      assert KeyAll([p10, p1]) == Ok([s10, s1]) by { assert [s10] + [s1] == [s10, s1]; }
      assert [s2] + [s10, s1] == [s2, s10, s1];
    }
    SortThree(s2, s10, s1);
    assert Paths([s1, s2, s10]) == [p1, p2, p10];
  }
}
