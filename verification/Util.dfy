/** Small vocabulary shared by every part of the model. */
module Util {

  datatype Option<+T> = None | Some(value: T)

  type Byte = x: int | 0 <= x < 256

  /** The last element of a non-empty sequence. */
  function Last<T>(s: seq<T>): T
    requires |s| > 0
  {
    s[|s| - 1]
  }

  /** No element stands twice. */
  ghost predicate Distinct<T(!new)>(xs: seq<T>) {
    forall i, j | 0 <= i < j < |xs| :: xs[i] != xs[j]
  }

  lemma Member<T>(s: set<T>) returns (x: T)
    requires s != {}
    ensures x in s
  {
    x :| x in s;
  }

  lemma {:induction false} Least(s: set<int>) returns (x: int)
    requires s != {}
    ensures x in s && forall y | y in s :: x <= y
    decreases |s|
  {
    x := Member(s);
    var rest := s - {x};
    if rest != {} {
      var y := Least(rest);
      assert forall z | z in s :: z == x || z in rest;
      x := if y < x then y else x;
    } else {
      assert forall z | z in s :: z == x || z in rest;
    }
  }

  /** The elements to keep, in order. */
  function Filter<T>(s: seq<T>, keep: T -> bool): seq<T> {
    if |s| == 0 then [] else (if keep(s[0]) then [s[0]] else []) + Filter(s[1..], keep)
  }

  lemma {:induction false} FilterAppend<T>(a: seq<T>, b: seq<T>, keep: T -> bool)
    ensures Filter(a + b, keep) == Filter(a, keep) + Filter(b, keep)
  {
    if |a| == 0 {
      assert a + b == b;
    } else {
      assert (a + b)[1..] == a[1..] + b;
      FilterAppend(a[1..], b, keep);
      Assoc(if keep(a[0]) then [a[0]] else [], Filter(a[1..], keep), Filter(b, keep));
    }
  }

  lemma FilterOne<T>(x: T, keep: T -> bool)
    ensures Filter([x], keep) == if keep(x) then [x] else []
  {
    assert [x][1..] == [];
  }

  lemma FilterPush<T>(s: seq<T>, x: T, keep: T -> bool)
    ensures Filter(s + [x], keep) == Filter(s, keep) + if keep(x) then [x] else []
  {
    FilterAppend(s, [x], keep);
    FilterOne(x, keep);
  }

  /** Each element stays as often as it was there, if it is to be kept. */
  lemma {:induction false} FilterCounts<T>(s: seq<T>, keep: T -> bool, x: T)
    ensures multiset(Filter(s, keep))[x] == if keep(x) then multiset(s)[x] else 0
  {
    if |s| > 0 {
      assert s == [s[0]] + s[1..];
      FilterCounts(s[1..], keep, x);
    }
  }

  lemma {:induction false} FilterTwice<T(!new)>(s: seq<T>, f: T -> bool, g: T -> bool, both: T -> bool)
    requires forall x :: both(x) <==> f(x) && g(x)
    ensures Filter(Filter(s, f), g) == Filter(s, both)
  {
    if |s| > 0 {
      FilterTwice(s[1..], f, g, both);
      var first := if f(s[0]) then [s[0]] else [];
      FilterAppend(first, Filter(s[1..], f), g);
      FilterOne(s[0], g);
    }
  }

  lemma Assoc<T>(a: seq<T>, b: seq<T>, c: seq<T>)
    ensures a + (b + c) == a + b + c
  {
  }

  /** The chunk stands in the sequence at the given offset. */
  ghost predicate Holds<T>(s: seq<T>, offset: nat, chunk: seq<T>) {
    offset + |chunk| <= |s| && s[offset..offset + |chunk|] == chunk
  }

  lemma SplitSlice<T>(s: seq<T>, offset: nat, a: seq<T>, b: seq<T>)
    requires Holds(s, offset, a + b)
    ensures Holds(s, offset, a) && Holds(s, offset + |a|, b)
  {
    assert s[offset..offset + |a|] == s[offset..offset + |a + b|][..|a|];
    assert s[offset + |a|..offset + |a| + |b|] == s[offset..offset + |a + b|][|a|..];
  }

  lemma JoinSlices<T>(s: seq<T>, offset: nat, a: seq<T>, b: seq<T>)
    requires Holds(s, offset, a) && Holds(s, offset + |a|, b)
    ensures Holds(s, offset, a + b)
  {
    assert s[offset..offset + |a + b|] == s[offset..offset + |a|] + s[offset + |a|..offset + |a| + |b|];
  }
}
