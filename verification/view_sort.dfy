/**
 Sorting by views, descending, as `[...filtered].sort((a, b) => b.views - a.views)`
 does it. `Array.prototype.sort` is stable (section 22.1.3.27 of ECMA-262,
 10th edition): records with equal views keep their relative order. The
 model is an insertion sort on sequences; it is proved sorted, a permutation
 and stable, and proved to be the only sequence with all three properties,
 so any stable sort the engine uses yields the same result.
 */
module ViewSort {
  import opened Videos
  import opened Selection

  /** The comparator passed to `sort`: negative when `a` goes first,
      positive when `b` goes first, zero for a tie. */
  function CompareByViews(a: Video, b: Video): (c: int)
    ensures c < 0 <==> a.views > b.views
    ensures c == 0 <==> a.views == b.views
    ensures c > 0 <==> a.views < b.views
  {
    b.views - a.views
  }

  /** Every record has at least as many views as every later record. */
  ghost predicate SortedByViews(s: seq<Video>) {
    forall i, j :: 0 <= i < j < |s| ==> s[i].views >= s[j].views
  }

  /** Every record has at least as many views as the next one. */
  ghost predicate AdjacentSortedByViews(s: seq<Video>) {
    forall i :: 0 <= i < |s| - 1 ==> s[i].views >= s[i + 1].views
  }

  /** The comparator never asks to swap a neighbouring pair. */
  ghost predicate ComparatorRespected(s: seq<Video>) {
    forall i :: 0 <= i < |s| - 1 ==> CompareByViews(s[i], s[i + 1]) <= 0
  }

  /** The records of `s` with exactly `n` views, in their order in `s`. */
  function WithViews(s: seq<Video>, n: nat): seq<Video> {
    Select(s, HasViews(n))
  }

  function HasViews(n: nat): Video -> bool {
    (v: Video) => v.views == n
  }

  /** No record of `s` has more than `m` views. */
  ghost predicate ViewsAtMost(s: seq<Video>, m: nat) {
    forall k :: 0 <= k < |s| ==> s[k].views <= m
  }

  /** Insert `x` in front of the first record of `s` it does not sort
      after; on a tie `x` stays in front, since it came first. */
  function Insert(x: Video, s: seq<Video>): (r: seq<Video>)
    ensures multiset(r) == multiset(s) + multiset{x}
    ensures |r| == |s| + 1
  {
    if s == [] || CompareByViews(x, s[0]) <= 0 then [x] + s
    else
      assert s == [s[0]] + s[1..];
      [s[0]] + Insert(x, s[1..])
  }

  /** A bound on views that holds of `t` and of `x` holds of any rearrangement of `t` plus `x`. */
  lemma BoundSurvivesInsert(t: seq<Video>, x: Video, r: seq<Video>, m: nat)
    requires multiset(r) == multiset(t) + multiset{x}
    requires ViewsAtMost(t, m) && x.views <= m
    ensures ViewsAtMost(r, m)
  {
    forall k | 0 <= k < |r|
      ensures r[k].views <= m
    {
      assert r[k] in multiset(r);
      if r[k] != x {
        assert r[k] in multiset(t);
        var j :| 0 <= j < |t| && t[j] == r[k];
      }
    }
  }

  /** Inserting into a sorted sequence gives a sorted sequence. */
  lemma {:induction false} InsertSorted(x: Video, s: seq<Video>)
    requires SortedByViews(s)
    ensures SortedByViews(Insert(x, s))
  {
    if s != [] && CompareByViews(x, s[0]) > 0 {
      var tail := s[1..];
      InsertSorted(x, tail);
      var rest := Insert(x, tail);
      assert ViewsAtMost(tail, s[0].views) by {
        assert forall k :: 0 <= k < |tail| ==> tail[k] == s[k + 1];
      }
      BoundSurvivesInsert(tail, x, rest, s[0].views);
      assert Insert(x, s) == [s[0]] + rest;
    }
  }

  /** The sorted copy of `xs`: each record is inserted into the already
      sorted copy of the records that follow it. */
  function SortByViews(xs: seq<Video>): (r: seq<Video>)
    ensures SortedByViews(r)
    ensures multiset(r) == multiset(xs)
    ensures |r| == |xs|
  {
    if xs == [] then []
    else
      assert xs == [xs[0]] + xs[1..];
      var rest := SortByViews(xs[1..]);
      InsertSorted(xs[0], rest);
      Insert(xs[0], rest)
  }

  /** Sorting keeps exactly the records it was given. */
  lemma SortSameMembers(xs: seq<Video>)
    ensures forall v :: v in SortByViews(xs) <==> v in xs
  {
    var r := SortByViews(xs);
    forall v
      ensures v in r <==> v in xs
    {
      assert v in r <==> v in multiset(r);
      assert v in xs <==> v in multiset(xs);
    }
  }

  /** Sortedness checked on neighbours is sortedness on all pairs, and it
      is exactly what the comparator asks for. */
  lemma {:induction false} SortedIffAdjacent(s: seq<Video>)
    ensures SortedByViews(s) <==> AdjacentSortedByViews(s)
    ensures AdjacentSortedByViews(s) <==> ComparatorRespected(s)
  {
    if s != [] && AdjacentSortedByViews(s) {
      var t := s[1..];
      assert AdjacentSortedByViews(t) by {
        forall i | 0 <= i < |t| - 1
          ensures t[i].views >= t[i + 1].views
        {
          assert t[i] == s[i + 1] && t[i + 1] == s[i + 2];
        }
      }
      SortedIffAdjacent(t);
      forall i, j | 0 <= i < j < |s|
        ensures s[i].views >= s[j].views
      {
        if i > 0 {
          assert s[i] == t[i - 1] && s[j] == t[j - 1];
        } else if j > 1 {
          assert s[1] == t[0] && s[j] == t[j - 1];
        }
      }
    }
  }

  /** A one-record sequence forms a group of its own or none at all. */
  lemma SingletonGroup(x: Video, n: nat)
    ensures WithViews([x], n) == if x.views == n then [x] else []
  {
    assert [x][..0] == [];
  }

  /** Two sequences, one of them empty, can be swapped in front of a third. */
  lemma SwapWhenOneEmpty<T>(a: seq<T>, b: seq<T>, c: seq<T>)
    requires a == [] || b == []
    ensures a + (b + c) == b + (a + c)
  {
    if a == [] {
      assert a + (b + c) == b + c;
    } else {
      assert b + (a + c) == a + c;
    }
  }

  /** Inserting `x` adds it to the front of its own views group and leaves
      every other group unchanged. */
  lemma {:induction false} InsertStable(x: Video, s: seq<Video>, n: nat)
    requires SortedByViews(s)
    ensures WithViews(Insert(x, s), n) == WithViews([x], n) + WithViews(s, n)
  {
    var p := HasViews(n);
    if s == [] || CompareByViews(x, s[0]) <= 0 {
      SelectAppend([x], s, p);
    } else {
      var s0, tail := s[0], s[1..];
      var rest := Insert(x, tail);
      assert s == [s0] + tail;
      assert Insert(x, s) == [s0] + rest;
      var gx, g0, gt := WithViews([x], n), WithViews([s0], n), WithViews(tail, n);
      InsertStable(x, tail, n);
      assert WithViews(rest, n) == gx + gt;
      SelectAppend([s0], rest, p);
      assert WithViews(Insert(x, s), n) == g0 + (gx + gt);
      SelectAppend([s0], tail, p);
      assert WithViews(s, n) == g0 + gt;
      SingletonGroup(x, n);
      SingletonGroup(s0, n);
      SwapWhenOneEmpty(g0, gx, gt);
    }
  }

  /** The sort is stable: each views group keeps its order from the input. */
  lemma {:induction false} SortStable(xs: seq<Video>, n: nat)
    ensures WithViews(SortByViews(xs), n) == WithViews(xs, n)
  {
    if xs != [] {
      var x := xs[0];
      SortStable(xs[1..], n);
      InsertStable(x, SortByViews(xs[1..]), n);
      assert xs == [x] + xs[1..];
      SelectAppend([x], xs[1..], HasViews(n));
    }
  }

  /** The first record of a non-empty sorted sequence leads its views group. */
  lemma HeadGroup(a: seq<Video>)
    requires a != []
    ensures WithViews(a, a[0].views) == [a[0]] + WithViews(a[1..], a[0].views)
  {
    assert a == [a[0]] + a[1..];
    SelectAppend([a[0]], a[1..], HasViews(a[0].views));
    SingletonGroup(a[0], a[0].views);
  }

  /** A record of one sorted sequence appears in another with the same
      views groups, so the other's first record has at least its views. */
  lemma LeaderDominates(a: seq<Video>, b: seq<Video>, i: nat)
    requires SortedByViews(b)
    requires forall n: nat :: WithViews(a, n) == WithViews(b, n)
    requires i < |a|
    ensures b != [] && b[0].views >= a[i].views
  {
    var m := a[i].views;
    assert a[i] in a;
    assert WithViews(a, m) == WithViews(b, m);
    SelectMembership(a, HasViews(m), a[i]);
    SelectMembership(b, HasViews(m), a[i]);
    var j :| 0 <= j < |b| && b[j] == a[i];
  }

  /** Removing equal first records from two sequences with the same views
      groups leaves tails with the same views groups. */
  lemma TailsAgree(a: seq<Video>, b: seq<Video>)
    requires a != [] && b != [] && a[0] == b[0]
    requires forall n: nat :: WithViews(a, n) == WithViews(b, n)
    ensures forall n: nat :: WithViews(a[1..], n) == WithViews(b[1..], n)
  {
    forall n: nat
      ensures WithViews(a[1..], n) == WithViews(b[1..], n)
    {
      assert a == [a[0]] + a[1..] && b == [b[0]] + b[1..];
      assert WithViews(a, n) == WithViews(b, n);
      SelectAppend([a[0]], a[1..], HasViews(n));
      SelectAppend([b[0]], b[1..], HasViews(n));
      var hd := WithViews([a[0]], n);
      assert WithViews(a[1..], n) == (hd + WithViews(a[1..], n))[|hd|..];
      assert WithViews(b[1..], n) == (hd + WithViews(b[1..], n))[|hd|..];
    }
  }

  /** Two sorted sequences with the same views groups are equal. */
  lemma {:induction false} StableSortUnique(a: seq<Video>, b: seq<Video>)
    requires SortedByViews(a) && SortedByViews(b)
    requires forall n: nat :: WithViews(a, n) == WithViews(b, n)
    ensures a == b
    decreases |a|
  {
    if a != [] {
      LeaderDominates(a, b, 0);
    }
    if b != [] {
      LeaderDominates(b, a, 0);
    }
    if a != [] {
      var m := a[0].views;
      HeadGroup(a);
      HeadGroup(b);
      assert WithViews(a, m) == WithViews(b, m);
      assert a[0] == ([a[0]] + WithViews(a[1..], m))[0];
      assert b[0] == ([b[0]] + WithViews(b[1..], m))[0];
      TailsAgree(a, b);
      StableSortUnique(a[1..], b[1..]);
      assert a == [a[0]] + a[1..] && b == [b[0]] + b[1..];
    }
  }

  /** `SortByViews(xs)` is exactly the sequence that is sorted by views,
      descending, and keeps every views group of `xs` in its input order. */
  lemma SortCharacterised(xs: seq<Video>, r: seq<Video>)
    ensures r == SortByViews(xs) <==>
              SortedByViews(r) && forall n: nat :: WithViews(r, n) == WithViews(xs, n)
  {
    forall n: nat
      ensures WithViews(SortByViews(xs), n) == WithViews(xs, n)
    {
      SortStable(xs, n);
    }
    if SortedByViews(r) && forall n: nat :: WithViews(r, n) == WithViews(xs, n) {
      StableSortUnique(r, SortByViews(xs));
    }
  }

  /** Sorting a sequence that is already sorted changes nothing. */
  lemma SortIdempotent(xs: seq<Video>)
    requires SortedByViews(xs)
    ensures SortByViews(xs) == xs
  {
    SortCharacterised(xs, xs);
  }
}
