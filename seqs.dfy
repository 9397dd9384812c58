/** Order-preserving selection from a sequence, the model of JavaScript's `Array.prototype.filter`. */
module Seqs {

  /** The elements of `s` for which `keep` holds, in their original order. */
  function Filter<T>(s: seq<T>, keep: T -> bool): (r: seq<T>)
    ensures |r| <= |s|
    ensures forall i :: 0 <= i < |r| ==> r[i] in s && keep(r[i])
    ensures forall i :: 0 <= i < |s| && keep(s[i]) ==> s[i] in r
    ensures (forall i :: 0 <= i < |s| ==> keep(s[i])) ==> r == s
    ensures SubsequenceOf(r, s)
  {
    if s == [] then []
    else
      var rest := Filter(s[1..], keep);
      assert s == [s[0]] + s[1..];
      if keep(s[0]) then [s[0]] + rest else rest
  }

  /** Every kept value occurs in the result exactly as often as in the input: no copy is lost. */
  lemma {:induction false} FilterKeepsCounts<T>(s: seq<T>, keep: T -> bool)
    ensures forall i :: 0 <= i < |s| && keep(s[i]) ==> multiset(Filter(s, keep))[s[i]] == multiset(s)[s[i]]
  {
    if s != [] {
      var rest := Filter(s[1..], keep);
      FilterKeepsCounts(s[1..], keep);
      assert s == [s[0]] + s[1..];
      forall i | 0 <= i < |s| && keep(s[i]) ensures multiset(rest)[s[i]] == multiset(s[1..])[s[i]] {
        var x := s[i];
        if x in s[1..] {
          var j :| 0 <= j < |s[1..]| && s[1..][j] == x;
        } else {
          assert x !in rest;
        }
      }
      if keep(s[0]) {
        assert Filter(s, keep) == [s[0]] + rest;
      }
    }
  }

  /** `r` can be obtained from `s` by deleting elements, without reordering the rest. */
  ghost predicate SubsequenceOf<T>(r: seq<T>, s: seq<T>)
    decreases |s|
  {
    r == [] || (s != [] && ((r[0] == s[0] && SubsequenceOf(r[1..], s[1..])) || SubsequenceOf(r, s[1..])))
  }

  /** Filtering distributes over concatenation: the kept elements keep their relative order. */
  lemma {:induction false} FilterAppend<T>(a: seq<T>, b: seq<T>, keep: T -> bool)
    ensures Filter(a + b, keep) == Filter(a, keep) + Filter(b, keep)
  {
    if a != [] {
      var x, u := a[0], a[1..];
      assert a == [x] + u;
      FilterAppend(u, b, keep);
      AppendAssoc([x], u, b);
      FilterCons(x, u + b, keep);
      FilterCons(x, u, keep);
      if keep(x) {
        AppendAssoc([x], Filter(u, keep), Filter(b, keep));
      }
    } else {
      assert a + b == b;
    }
  }

  /** Concatenation is associative. */
  lemma AppendAssoc<T>(a: seq<T>, b: seq<T>, c: seq<T>)
    ensures a + (b + c) == (a + b) + c
  {
  }

  /** One step of filtering: the head is kept or dropped, the tail filtered. */
  lemma FilterCons<T>(x: T, t: seq<T>, keep: T -> bool)
    ensures Filter([x] + t, keep) == if keep(x) then [x] + Filter(t, keep) else Filter(t, keep)
  {
    assert ([x] + t)[0] == x && ([x] + t)[1..] == t;
  }

  /** Filtering a one-element sequence keeps it exactly when `keep` holds of it. */
  lemma FilterSingleton<T>(x: T, keep: T -> bool)
    ensures Filter([x], keep) == if keep(x) then [x] else []
  {
    assert [x][1..] == [];
  }
}
