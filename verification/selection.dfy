/**
 `Array.prototype.filter` as a pure function on sequences: the elements that
 satisfy a predicate, in their original relative order. `Select` visits the
 elements left to right, appending each kept one, the way the array method
 does; `Kept` records the indices it keeps, and `IsOrderedSelection` is the
 independent definition the two are proved against.
 */
module Selection {

  /** The kept elements of `xs`, in order. */
  function Select<T>(xs: seq<T>, p: T -> bool): (r: seq<T>)
    ensures |r| <= |xs|
    ensures forall k :: 0 <= k < |r| ==> p(r[k]) && r[k] in xs
  {
    if xs == [] then []
    else
      var init := Select(xs[..|xs| - 1], p);
      if p(xs[|xs| - 1]) then init + [xs[|xs| - 1]] else init
  }

  /** The indices of the kept elements, in increasing order. */
  function Kept<T>(xs: seq<T>, p: T -> bool): (idx: seq<int>)
    ensures forall k :: 0 <= k < |idx| ==> 0 <= idx[k] < |xs|
    ensures forall k, l :: 0 <= k < l < |idx| ==> idx[k] < idx[l]
  {
    if xs == [] then []
    else
      var init := Kept(xs[..|xs| - 1], p);
      if p(xs[|xs| - 1]) then init + [|xs| - 1] else init
  }

  /** `r` is the subsequence of `xs` picked out by the strictly increasing
      indices `idx`, and `idx` holds exactly the indices whose element
      satisfies `p`: nothing that satisfies `p` is dropped, nothing that
      fails it is kept, and nothing is reordered. */
  ghost predicate IsOrderedSelection<T>(r: seq<T>, xs: seq<T>, p: T -> bool, idx: seq<int>) {
    && |idx| == |r|
    && (forall k :: 0 <= k < |idx| ==> 0 <= idx[k] < |xs| && r[k] == xs[idx[k]])
    && (forall k, l :: 0 <= k < l < |idx| ==> idx[k] < idx[l])
    && (forall i :: 0 <= i < |xs| ==> (p(xs[i]) <==> i in idx))
  }

  /** The kept elements are the input's elements at the kept indices. */
  lemma {:induction false} SelectAtKept<T>(xs: seq<T>, p: T -> bool)
    ensures |Kept(xs, p)| == |Select(xs, p)|
    ensures forall k :: 0 <= k < |Kept(xs, p)| ==> Select(xs, p)[k] == xs[Kept(xs, p)[k]]
  {
    if xs != [] {
      var front := xs[..|xs| - 1];
      SelectAtKept(front, p);
      var r0, idx0 := Select(front, p), Kept(front, p);
      assert forall k :: 0 <= k < |idx0| ==> r0[k] == front[idx0[k]] == xs[idx0[k]];
    }
  }

  /** An index is kept exactly when its element satisfies the predicate. */
  lemma {:induction false} KeptExactly<T>(xs: seq<T>, p: T -> bool)
    ensures forall i :: 0 <= i < |xs| ==> (p(xs[i]) <==> i in Kept(xs, p))
  {
    if xs != [] {
      var n := |xs| - 1;
      var front := xs[..n];
      KeptExactly(front, p);
      var idx, idx0 := Kept(xs, p), Kept(front, p);
      forall i | 0 <= i < |xs|
        ensures p(xs[i]) <==> i in idx
      {
        if i < n {
          assert front[i] == xs[i];
          assert i in idx <==> i in idx0;
        }
      }
    }
  }

  /** `Select` keeps exactly the satisfying elements, in order, at the indices `Kept` lists. */
  lemma SelectIsOrderedSelection<T>(xs: seq<T>, p: T -> bool)
    ensures IsOrderedSelection(Select(xs, p), xs, p, Kept(xs, p))
  {
    SelectAtKept(xs, p);
    KeptExactly(xs, p);
  }

  /** Two strictly increasing index sequences with the same members are equal. */
  lemma {:induction false} IncreasingWithSameMembersEqual(a: seq<int>, b: seq<int>)
    requires forall k, l :: 0 <= k < l < |a| ==> a[k] < a[l]
    requires forall k, l :: 0 <= k < l < |b| ==> b[k] < b[l]
    requires forall x :: x in a <==> x in b
    ensures a == b
    decreases |a|
  {
    if a != [] {
      assert a[0] in a;
    }
    if b != [] {
      assert b[0] in b;
    }
    if a != [] {
      var la, lb := a[|a| - 1], b[|b| - 1];
      assert la <= lb by {
        assert la in a;
        var k :| 0 <= k < |b| && b[k] == la;
        if k < |b| - 1 {
          assert b[k] < lb;
        }
      }
      assert lb <= la by {
        assert lb in b;
        var k :| 0 <= k < |a| && a[k] == lb;
        if k < |a| - 1 {
          assert a[k] < la;
        }
      }
      var a', b' := a[..|a| - 1], b[..|b| - 1];
      forall x
        ensures x in a' <==> x in b'
      {
        assert x in a' <==> x in a && x != la;
        assert x in b' <==> x in b && x != lb;
      }
      IncreasingWithSameMembersEqual(a', b');
      assert a == a' + [la] && b == b' + [lb];
    }
  }

  /** `Select` is the one and only ordered selection: a sequence is the
      result of filtering `xs` by `p` exactly when some index sequence
      exhibits it as the ordered selection of the satisfying elements. */
  lemma SelectCharacterised<T>(xs: seq<T>, p: T -> bool, r: seq<T>)
    ensures r == Select(xs, p) <==> exists idx :: IsOrderedSelection(r, xs, p, idx)
  {
    SelectIsOrderedSelection(xs, p);
    if idx :| IsOrderedSelection(r, xs, p, idx) {
      var kept := Kept(xs, p);
      forall x
        ensures x in idx <==> x in kept
      {
        if x in idx {
          var k :| 0 <= k < |idx| && idx[k] == x;
          assert 0 <= x < |xs|;
        }
        if x in kept {
          var k :| 0 <= k < |kept| && kept[k] == x;
          assert 0 <= x < |xs|;
        }
      }
      IncreasingWithSameMembersEqual(idx, kept);
      assert r == Select(xs, p);
    }
  }

  /** Filtering distributes over concatenation. */
  lemma {:induction false} SelectAppend<T>(a: seq<T>, b: seq<T>, p: T -> bool)
    ensures Select(a + b, p) == Select(a, p) + Select(b, p)
    decreases |b|
  {
    if b == [] {
      assert a + b == a;
    } else {
      var b' := b[..|b| - 1];
      SelectAppend(a, b', p);
      assert (a + b)[..|a + b| - 1] == a + b';
    }
  }

  /** An element survives filtering exactly when it is in the input and satisfies the predicate. */
  lemma {:induction false} SelectMembership<T>(xs: seq<T>, p: T -> bool, x: T)
    ensures x in Select(xs, p) <==> x in xs && p(x)
  {
    SelectIsOrderedSelection(xs, p);
    var r, idx := Select(xs, p), Kept(xs, p);
    if x in xs && p(x) {
      var i :| 0 <= i < |xs| && xs[i] == x;
      assert i in idx;
      var k :| 0 <= k < |idx| && idx[k] == i;
      assert r[k] == x;
    }
  }

  /** Filtering never adds occurrences: the result is a sub-multiset of the input. */
  lemma {:induction false} SelectSubMultiset<T>(xs: seq<T>, p: T -> bool)
    ensures multiset(Select(xs, p)) <= multiset(xs)
  {
    if xs != [] {
      var front := xs[..|xs| - 1];
      SelectSubMultiset(front, p);
      assert xs == front + [xs[|xs| - 1]];
    }
  }

  /** The positions of `xs` whose element satisfies `p`. */
  function Satisfying<T>(xs: seq<T>, p: T -> bool): set<int> {
    set i | 0 <= i < |xs| && p(xs[i])
  }

  /** The number of kept elements is the number of positions whose element satisfies the predicate. */
  lemma {:induction false} SelectCount<T>(xs: seq<T>, p: T -> bool)
    ensures |Select(xs, p)| == |Satisfying(xs, p)|
  {
    if xs != [] {
      var n := |xs| - 1;
      var front := xs[..n];
      SelectCount(front, p);
      var a := Satisfying(front, p);
      var b := Satisfying(xs, p);
      assert forall i :: 0 <= i < n ==> front[i] == xs[i];
      if p(xs[n]) {
        assert b == a + {n};
      } else {
        assert b == a;
      }
    }
  }
}
