/** Optional values, used for calls that either produce a value or fail. */
module Options {
  datatype Option<+T> = None | Some(value: T)
}

/** Order-preserving list operations the scripts use: keeping the elements a
    test accepts, keeping the values a partial step produces (a loop that
    pushes onto an array only on success), and flattening a list of lists
    (`Array.prototype.flat`). */
module Seqs {
  import opened Options

  /** `a` is `b` with some elements removed, the rest in their order. */
  predicate IsSubsequence<T(==)>(a: seq<T>, b: seq<T>)
    decreases |b|
  {
    a == [] || (b != [] && ((a[0] == b[0] && IsSubsequence(a[1..], b[1..])) || IsSubsequence(a, b[1..])))
  }

  /** The elements of `s` that `f` accepts, in order. */
  function Filter<T>(s: seq<T>, f: T -> bool): (r: seq<T>)
    ensures |r| <= |s|
    ensures forall i :: 0 <= i < |r| ==> f(r[i])
  {
    if s == [] then [] else (if f(s[0]) then [s[0]] else []) + Filter(s[1..], f)
  }

  lemma {:induction false} FilterAppend<T>(a: seq<T>, b: seq<T>, f: T -> bool)
    ensures Filter(a + b, f) == Filter(a, f) + Filter(b, f)
  {
    if a != [] {
      var h := if f(a[0]) then [a[0]] else [];
      assert (a + b)[0] == a[0];
      assert (a + b)[1..] == a[1..] + b;
      FilterAppend(a[1..], b, f);
      assert Filter(a + b, f) == h + (Filter(a[1..], f) + Filter(b, f));
      assert Filter(a, f) + Filter(b, f) == (h + Filter(a[1..], f)) + Filter(b, f);
    } else {
      assert a + b == b;
    }
  }

  /** A list whose elements all pass is unchanged by filtering. */
  lemma {:induction false} FilterKeepsAll<T>(s: seq<T>, f: T -> bool)
    requires forall i :: 0 <= i < |s| ==> f(s[i])
    ensures Filter(s, f) == s
  {
    if s != [] {
      FilterKeepsAll(s[1..], f);
    }
  }

  /** Filtering by a test and then by a stronger one is filtering by the
      stronger one. */
  lemma {:induction false} FilterNarrow<T>(s: seq<T>, f: T -> bool, g: T -> bool)
    requires forall i :: 0 <= i < |s| && g(s[i]) ==> f(s[i])
    ensures Filter(Filter(s, f), g) == Filter(s, g)
  {
    if s != [] {
      FilterNarrow(s[1..], f, g);
      var rest := Filter(s[1..], f);
      if f(s[0]) {
        assert Filter(s, f) == [s[0]] + rest;
        assert Filter(s, f)[0] == s[0] && Filter(s, f)[1..] == rest;
      } else {
        assert Filter(s, f) == rest;
      }
    }
  }

  lemma {:induction false} FilterIsSubsequence<T>(s: seq<T>, f: T -> bool)
    ensures IsSubsequence(Filter(s, f), s)
  {
    if s != [] {
      FilterIsSubsequence(s[1..], f);
      if !f(s[0]) {
        assert Filter(s, f) == Filter(s[1..], f);
        SubsequenceOfTail(Filter(s, f), s);
      } else {
        assert Filter(s, f)[0] == s[0];
        assert Filter(s, f)[1..] == Filter(s[1..], f);
      }
    }
  }

  lemma {:induction false} SubsequenceOfTail<T>(a: seq<T>, b: seq<T>)
    requires b != [] && IsSubsequence(a, b[1..])
    ensures IsSubsequence(a, b)
  {
  }

  /** The values `f` produces over `s`, in order; the elements for which it
      produces nothing are skipped. */
  function FilterMap<A, B>(s: seq<A>, f: A --> Option<B>): (r: seq<B>)
    requires forall i :: 0 <= i < |s| ==> f.requires(s[i])
    ensures |r| <= |s|
  {
    if s == [] then []
    else (if f(s[0]).Some? then [f(s[0]).value] else []) + FilterMap(s[1..], f)
  }

  lemma {:induction false} FilterMapAppend<A, B>(a: seq<A>, b: seq<A>, f: A --> Option<B>)
    requires forall i :: 0 <= i < |a| ==> f.requires(a[i])
    requires forall i :: 0 <= i < |b| ==> f.requires(b[i])
    ensures forall i :: 0 <= i < |a + b| ==> f.requires((a + b)[i])
    ensures FilterMap(a + b, f) == FilterMap(a, f) + FilterMap(b, f)
  {
    assert forall i :: 0 <= i < |a + b| ==> (a + b)[i] == if i < |a| then a[i] else b[i - |a|];
    if a != [] {
      var h := if f(a[0]).Some? then [f(a[0]).value] else [];
      assert (a + b)[0] == a[0];
      assert (a + b)[1..] == a[1..] + b;
      FilterMapAppend(a[1..], b, f);
      assert FilterMap(a + b, f) == h + (FilterMap(a[1..], f) + FilterMap(b, f));
      assert FilterMap(a, f) + FilterMap(b, f) == (h + FilterMap(a[1..], f)) + FilterMap(b, f);
    } else {
      assert a + b == b;
    }
  }

  /** One more element adds the value the step produces on it, if any. */
  lemma {:induction false} FilterMapSnoc<A, B>(s: seq<A>, x: A, f: A -> Option<B>)
    ensures FilterMap(s + [x], f) == FilterMap(s, f) + (if f(x).Some? then [f(x).value] else [])
  {
    FilterMapAppend(s, [x], f);
    assert [x][0] == x && [x][1..] == [];
  }

  /** Every value produced comes from some element of the input. */
  lemma {:induction false} FilterMapFrom<A, B>(s: seq<A>, f: A --> Option<B>, k: nat)
    requires forall i :: 0 <= i < |s| ==> f.requires(s[i])
    requires k < |FilterMap(s, f)|
    ensures exists i :: 0 <= i < |s| && f(s[i]) == Some(FilterMap(s, f)[k])
  {
    var r := FilterMap(s, f);
    if f(s[0]).Some? && k == 0 {
      assert f(s[0]) == Some(r[0]);
    } else {
      var k' := if f(s[0]).Some? then k - 1 else k;
      assert r[k] == FilterMap(s[1..], f)[k'];
      FilterMapFrom(s[1..], f, k');
      var i :| 0 <= i < |s[1..]| && f(s[1..][i]) == Some(r[k]);
      assert f(s[i + 1]) == Some(r[k]);
    }
  }

  /** `FilterMap` is filtering by "produces a value" and then taking the
      values: element `k` of the output comes from element `k` of the
      filtered input. */
  lemma {:induction false} FilterMapIsFilterThenMap<A, B>(s: seq<A>, f: A -> Option<B>, produces: A -> bool)
    requires forall x :: produces(x) == f(x).Some?
    ensures |FilterMap(s, f)| == |Filter(s, produces)|
    ensures forall k :: 0 <= k < |FilterMap(s, f)| ==> Some(FilterMap(s, f)[k]) == f(Filter(s, produces)[k])
  {
    if s != [] {
      FilterMapIsFilterThenMap(s[1..], f, produces);
      var r, rest := FilterMap(s, f), FilterMap(s[1..], f);
      var t, tRest := Filter(s, produces), Filter(s[1..], produces);
      if f(s[0]).Some? {
        assert r == [f(s[0]).value] + rest && t == [s[0]] + tRest;
        assert forall k :: 1 <= k < |r| ==> r[k] == rest[k - 1] && t[k] == tRest[k - 1];
      } else {
        assert r == rest && t == tRest;
      }
    }
  }

  /** Every value the step produces on an element is in the output. */
  lemma {:induction false} FilterMapHas<A, B>(s: seq<A>, f: A --> Option<B>, i: nat)
    requires forall j :: 0 <= j < |s| ==> f.requires(s[j])
    requires i < |s| && f(s[i]).Some?
    ensures f(s[i]).value in FilterMap(s, f)
  {
    if i > 0 {
      assert s[1..][i - 1] == s[i];
      FilterMapHas(s[1..], f, i - 1);
    }
  }

  /** When each element makes exactly one of `f` and `g` produce a value,
      the two outputs together are as long as the input. */
  lemma {:induction false} FilterMapPartition<A, B, C>(s: seq<A>, f: A --> Option<B>, g: A --> Option<C>)
    requires forall i :: 0 <= i < |s| ==> f.requires(s[i]) && g.requires(s[i])
    requires forall i :: 0 <= i < |s| ==> f(s[i]).Some? != g(s[i]).Some?
    ensures |FilterMap(s, f)| + |FilterMap(s, g)| == |s|
  {
    if s != [] {
      FilterMapPartition(s[1..], f, g);
    }
  }

  /** `ss.flat()`: the lists of `ss` one after another. */
  function Flatten<T>(ss: seq<seq<T>>): (r: seq<T>)
  {
    if ss == [] then [] else ss[0] + Flatten(ss[1..])
  }

  lemma {:induction false} FlattenAppend<T>(a: seq<seq<T>>, b: seq<seq<T>>)
    ensures Flatten(a + b) == Flatten(a) + Flatten(b)
  {
    if a != [] {
      assert (a + b)[0] == a[0];
      assert (a + b)[1..] == a[1..] + b;
      FlattenAppend(a[1..], b);
      assert Flatten(a + b) == a[0] + (Flatten(a[1..]) + Flatten(b));
      assert Flatten(a) + Flatten(b) == (a[0] + Flatten(a[1..])) + Flatten(b);
    } else {
      assert a + b == b;
    }
  }

  /** An element is in the flattened list exactly when it is in one of the
      lists. */
  lemma {:induction false} FlattenHas<T>(ss: seq<seq<T>>, x: T)
    ensures x in Flatten(ss) <==> exists i :: 0 <= i < |ss| && x in ss[i]
  {
    if ss != [] {
      FlattenHas(ss[1..], x);
      assert Flatten(ss) == ss[0] + Flatten(ss[1..]);
      if exists i :: 0 <= i < |ss| && x in ss[i] {
        var i :| 0 <= i < |ss| && x in ss[i];
        if i > 0 {
          assert ss[1..][i - 1] == ss[i];
        }
      }
      if exists i :: 0 <= i < |ss[1..]| && x in ss[1..][i] {
        var i :| 0 <= i < |ss[1..]| && x in ss[1..][i];
        assert ss[i + 1] == ss[1..][i];
      }
    }
  }
}
