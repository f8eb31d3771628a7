/** Sorting posts newest first, as both the listing and the featured card
    do with `sort((a, b) => time(b.date) - time(a.date))`. The comparator
    is a consistent total preorder, so every stable sort yields the same
    order: the one `SortNewest` defines by stable insertion. */
module NewestFirst {
  import opened BlogData

  function Key(p: Post): nat
  {
    DateKey(p.date)
  }

  /** No post is newer than one before it. */
  predicate Sorted(s: seq<Post>)
  {
    forall i, j :: 0 <= i < j < |s| ==> Key(s[j]) <= Key(s[i])
  }

  /** Places `p` after every post at least as new, before the first older
      one: a later post never jumps ahead of an equal one. */
  function Insert(s: seq<Post>, p: Post): seq<Post>
  {
    if s == [] then [p]
    else if Key(s[0]) < Key(p) then [p] + s
    else [s[0]] + Insert(s[1..], p)
  }

  /** Stable sort, newest first. */
  function SortNewest(s: seq<Post>): seq<Post>
  {
    if s == [] then [] else Insert(SortNewest(s[..|s| - 1]), s[|s| - 1])
  }

  lemma {:induction false} InsertMultiset(s: seq<Post>, p: Post)
    ensures multiset(Insert(s, p)) == multiset(s) + multiset{p}
  {
    if s != [] && Key(s[0]) >= Key(p) {
      InsertMultiset(s[1..], p);
      assert s == [s[0]] + s[1..];
    }
  }

  /** Inserting keeps every key under a bound that all keys were under. */
  lemma {:induction false} InsertBounded(s: seq<Post>, p: Post, b: int)
    requires forall k :: 0 <= k < |s| ==> Key(s[k]) <= b
    requires Key(p) <= b
    ensures forall k :: 0 <= k < |Insert(s, p)| ==> Key(Insert(s, p)[k]) <= b
  {
    if s != [] && Key(s[0]) >= Key(p) {
      InsertBounded(s[1..], p, b);
    }
  }

  lemma {:induction false} InsertSorted(s: seq<Post>, p: Post)
    requires Sorted(s)
    ensures Sorted(Insert(s, p))
  {
    if s != [] && Key(s[0]) >= Key(p) {
      assert Sorted(s[1..]) by {
        forall i, j | 0 <= i < j < |s| - 1 ensures Key(s[1..][j]) <= Key(s[1..][i]) {
          assert s[1..][j] == s[j + 1] && s[1..][i] == s[i + 1];
        }
      }
      InsertSorted(s[1..], p);
      InsertBounded(s[1..], p, Key(s[0]));
    }
  }

  lemma InsertKeeps(s: seq<Post>, p: Post)
    requires Sorted(s)
    ensures Sorted(Insert(s, p))
    ensures multiset(Insert(s, p)) == multiset(s) + multiset{p}
  {
    InsertSorted(s, p);
    InsertMultiset(s, p);
  }

  /** The result is ordered newest first and holds exactly the input
      posts. */
  lemma {:induction false} SortNewestSpec(s: seq<Post>)
    ensures Sorted(SortNewest(s))
    ensures multiset(SortNewest(s)) == multiset(s)
  {
    if s != [] {
      var init := s[..|s| - 1];
      SortNewestSpec(init);
      InsertKeeps(SortNewest(init), s[|s| - 1]);
      assert s == init + [s[|s| - 1]];
    }
  }

  /** Inserting a post no newer than any present appends it. */
  lemma {:induction false} InsertOldest(s: seq<Post>, p: Post)
    requires forall k :: 0 <= k < |s| ==> Key(p) <= Key(s[k])
    ensures Insert(s, p) == s + [p]
  {
    if s != [] {
      InsertOldest(s[1..], p);
      assert [s[0]] + (s[1..] + [p]) == s + [p];
    }
  }

  /** A list already newest first is left as it is. */
  lemma {:induction false} SortSortedIsIdentity(s: seq<Post>)
    requires Sorted(s)
    ensures SortNewest(s) == s
  {
    if s != [] {
      var init := s[..|s| - 1];
      assert Sorted(init);
      SortSortedIsIdentity(init);
      InsertOldest(init, s[|s| - 1]);
      assert init + [s[|s| - 1]] == s;
    }
  }

  /** Sorting twice is sorting once. */
  lemma SortIdempotent(s: seq<Post>)
    ensures SortNewest(SortNewest(s)) == SortNewest(s)
  {
    SortNewestSpec(s);
    SortSortedIsIdentity(SortNewest(s));
  }

  /** Where the inserted post lands in a sorted list. */
  lemma {:induction false} InsertAt(s: seq<Post>, p: Post, j: nat)
    requires j <= |s|
    requires forall k :: 0 <= k < j ==> Key(p) <= Key(s[k])
    requires forall k :: j <= k < |s| ==> Key(s[k]) < Key(p)
    ensures Insert(s, p) == s[..j] + [p] + s[j..]
  {
    if s != [] {
      if j == 0 {
        assert s[..0] + [p] + s[0..] == [p] + s;
      } else {
        InsertAt(s[1..], p, j - 1);
        assert [s[0]] + (s[1..][..j - 1] + [p] + s[1..][j - 1..]) == s[..j] + [p] + s[j..];
      }
    }
  }

  /** The declared order of the sample posts is already newest first. */
  lemma SamplePostsSorted()
    ensures Sorted(SamplePosts)
    ensures SortNewest(SamplePosts) == SamplePosts
  {
    ShippedNewestFirst();
    ThreeDescending(SamplePosts);
  }

  lemma ThreeDescending(s: seq<Post>)
    requires |s| == 3 && Key(s[1]) < Key(s[0]) && Key(s[2]) < Key(s[1])
    ensures Sorted(s) && SortNewest(s) == s
  {
    AdjacentSorted(s);
    SortSortedIsIdentity(s);
  }

  lemma {:induction false} AdjacentSorted(s: seq<Post>)
    requires forall k :: 0 < k < |s| ==> Key(s[k]) <= Key(s[k - 1])
    ensures Sorted(s)
  {
    if s != [] {
      var init := s[..|s| - 1];
      AdjacentSorted(init);
      forall i, j | 0 <= i < j < |s| ensures Key(s[j]) <= Key(s[i]) {
        if j < |s| - 1 {
          assert s[j] == init[j] && s[i] == init[i];
        } else if i < j - 1 {
          assert s[j - 1] == init[j - 1] && s[i] == init[i];
        }
      }
    }
  }

  /** One pass of the in-place sort: slides `a[i]` left past the older
      posts before it. */
  method InsertStep(a: array<Post>, i: nat)
    requires i < a.Length && Sorted(a[..i])
    modifies a
    ensures a[..i + 1] == Insert(old(a[..i]), old(a[i]))
    ensures a[i + 1..] == old(a[i + 1..])
  {
    ghost var sorted := a[..i];
    ghost var rest := a[i + 1..];
    var p := a[i];
    var j := FindGap(a, i, p);
    ShiftRight(a, j, i);
    a[j] := p;
    assert forall k :: 0 <= k < j ==> a[k] == sorted[k];
    assert forall k :: j < k <= i ==> a[k] == sorted[k - 1];
    StepResult(sorted, p, j, a[..i + 1]);
    assert forall k :: 0 <= k < |rest| ==> a[i + 1..][k] == rest[k];
  }

  /** The comparisons of the inner loop: walking left from `i`, the first
      place whose left neighbour is at least as new as `p`. */
  method FindGap(a: array<Post>, i: nat, p: Post) returns (j: nat)
    requires i <= a.Length
    ensures j <= i
    ensures j == 0 || Key(p) <= Key(a[j - 1])
    ensures forall k :: j <= k < i ==> Key(a[k]) < Key(p)
  {
    j := i;
    while j > 0 && Key(a[j - 1]) < Key(p)
      invariant j <= i
      invariant forall k :: j <= k < i ==> Key(a[k]) < Key(p)
    {
      j := j - 1;
    }
  }

  /** The moves of the inner loop: every post in `a[j..i]` goes one place
      right, over `a[i]`. */
  method ShiftRight(a: array<Post>, j: nat, i: nat)
    requires j <= i < a.Length
    modifies a
    ensures forall k :: 0 <= k <= j ==> a[k] == old(a[k])
    ensures forall k :: j < k <= i ==> a[k] == old(a[k - 1])
    ensures forall k :: i < k < a.Length ==> a[k] == old(a[k])
  {
    var m := i;
    while m > j
      invariant j <= m <= i
      invariant forall k :: 0 <= k <= m ==> a[k] == old(a[k])
      invariant forall k :: m < k <= i ==> a[k] == old(a[k - 1])
      invariant forall k :: i < k < a.Length ==> a[k] == old(a[k])
    {
      a[m] := a[m - 1];
      m := m - 1;
    }
  }

  lemma StepResult(sorted: seq<Post>, p: Post, j: nat, r: seq<Post>)
    requires Sorted(sorted) && j <= |sorted| && |r| == |sorted| + 1
    requires forall k :: 0 <= k < j ==> r[k] == sorted[k]
    requires r[j] == p
    requires forall k :: j < k <= |sorted| ==> r[k] == sorted[k - 1]
    requires j == 0 || Key(p) <= Key(sorted[j - 1])
    requires forall k :: j <= k < |sorted| ==> Key(sorted[k]) < Key(p)
    ensures r == Insert(sorted, p)
  {
    forall k | 0 <= k < j ensures Key(p) <= Key(sorted[k]) {
      assert Key(sorted[j - 1]) <= Key(sorted[k]);
    }
    InsertAt(sorted, p, j);
    assert r == sorted[..j] + [p] + sorted[j..];
  }

  /** The in-place sort of a shared array. */
  method SortInPlace(a: array<Post>)
    modifies a
    ensures a[..] == SortNewest(old(a[..]))
  {
    ghost var orig := a[..];
    var i := 0;
    while i < a.Length
      invariant 0 <= i <= a.Length
      invariant a[..i] == SortNewest(orig[..i])
      invariant a[i..] == orig[i..]
    {
      SortNewestSpec(orig[..i]);
      assert a[i] == a[i..][0] == orig[i..][0] == orig[i];
      assert a[i + 1..] == a[i..][1..] == orig[i..][1..] == orig[i + 1..];
      ghost var prefix := orig[..i + 1];
      assert prefix[..i] == orig[..i] && prefix[i] == orig[i];
      InsertStep(a, i);
      assert a[..i + 1] == SortNewest(prefix);
      assert a[i + 1..] == orig[i + 1..];
      i := i + 1;
    }
    assert orig[..a.Length] == orig;
  }
}
