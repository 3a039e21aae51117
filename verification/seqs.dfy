/** The two array combinators the application is built from:
    `Array.prototype.filter` and `Array.prototype.find`. */
module Seqs {
  import opened Wrappers

  /** `s.filter(p)`: the elements of `s` satisfying `p`, in their original order. */
  function Filter<T>(s: seq<T>, p: T -> bool): (r: seq<T>)
    ensures |r| <= |s|
  {
    if |s| == 0 then []
    else
      var rest := Filter(s[1..], p);
      if p(s[0]) then [s[0]] + rest else rest
  }

  /** An element is kept exactly when it occurs in `s` and satisfies `p`; so
      nothing is dropped when every element satisfies `p`, and nothing is
      kept when none does. */
  lemma {:induction false} FilterMembers<T(!new)>(s: seq<T>, p: T -> bool)
    ensures forall x :: x in Filter(s, p) <==> x in s && p(x)
    ensures (forall i :: 0 <= i < |s| ==> p(s[i])) ==> Filter(s, p) == s
    ensures (forall i :: 0 <= i < |s| ==> !p(s[i])) ==> Filter(s, p) == []
  {
    if |s| > 0 {
      FilterMembers(s[1..], p);
      assert s == [s[0]] + s[1..];
    }
  }

  /** Filtering keeps every element satisfying `p` as often as it occurred
      and drops every other one entirely. */
  lemma {:induction false} FilterCounts<T(!new)>(s: seq<T>, p: T -> bool)
    ensures forall x :: multiset(Filter(s, p))[x] == if p(x) then multiset(s)[x] else 0
    ensures multiset(Filter(s, p)) <= multiset(s)
  {
    if |s| > 0 {
      FilterCounts(s[1..], p);
      assert s == [s[0]] + s[1..];
      assert multiset(s) == multiset{s[0]} + multiset(s[1..]);
    }
  }

  /** Filtering distributes over concatenation: the relative order of the
      kept elements is the order they had in the input. */
  lemma {:induction false} FilterAppend<T>(a: seq<T>, b: seq<T>, p: T -> bool)
    ensures Filter(a + b, p) == Filter(a, p) + Filter(b, p)
  {
    if |a| == 0 {
      assert a + b == b;
    } else {
      assert (a + b)[0] == a[0];
      assert (a + b)[1..] == a[1..] + b;
      FilterAppend(a[1..], b, p);
      if p(a[0]) {
        calc {
          Filter(a + b, p);
          [a[0]] + Filter(a[1..] + b, p);
          [a[0]] + (Filter(a[1..], p) + Filter(b, p));
          ([a[0]] + Filter(a[1..], p)) + Filter(b, p);
        }
      }
    }
  }

  /** If filtering `rest` gives what filtering the tail of `r` and then `t`
      gives, then filtering `r`'s head followed by `rest` gives what
      filtering `r` and then `t` gives. */
  lemma FilterConsAppend<T>(r: seq<T>, rest: seq<T>, t: seq<T>, p: T -> bool)
    requires |r| > 0
    requires Filter(rest, p) == Filter(r[1..], p) + Filter(t, p)
    ensures Filter([r[0]] + rest, p) == Filter(r, p) + Filter(t, p)
  {
  }

  /** `s.find(p)`: the first element satisfying `p`, or `undefined`. */
  function Find<T(==)>(s: seq<T>, p: T -> bool): (r: Option<T>)
    ensures r.None? <==> forall i :: 0 <= i < |s| ==> !p(s[i])
    ensures r.Some? ==> exists i :: 0 <= i < |s| && s[i] == r.value && p(s[i]) && FirstMatch(s, p, i)
  {
    if |s| == 0 then None
    else if p(s[0]) then
      assert FirstMatch(s, p, 0);
      Some(s[0])
    else
      var r := Find(s[1..], p);
      if r.None? then
        assert forall i :: 1 <= i < |s| ==> s[i] == s[1..][i - 1];
        r
      else
        var i :| 0 <= i < |s| - 1 && s[1..][i] == r.value && p(s[1..][i]) && FirstMatch(s[1..], p, i);
        assert FirstMatch(s, p, i + 1) by {
          forall j | 0 <= j < i + 1 ensures !p(s[j]) {
            if j > 0 { assert s[j] == s[1..][j - 1]; }
          }
        }
        r
  }

  /** No element before index `i` satisfies `p`. */
  predicate FirstMatch<T>(s: seq<T>, p: T -> bool, i: int)
    requires 0 <= i <= |s|
  {
    forall j :: 0 <= j < i ==> !p(s[j])
  }
}
