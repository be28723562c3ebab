/** The canvas object list as Fabric.js keeps it: index 0 is painted first, the last index is
    on top. These are the list operations behind the layer buttons, `canvas.add` and
    `canvas.remove`. */
module Stacking {

  /** The elements at indices `i` and `j` differ. */
  ghost predicate Distinct<T>(s: seq<T>, i: nat, j: nat)
  {
    i < |s| && j < |s| && s[i] != s[j]
  }

  /** No object occurs in the list twice. The quantifier fires only on `Distinct` terms, so
      a proof asks for the pairs it needs. */
  ghost predicate NoDuplicates<T>(s: seq<T>)
  {
    forall i, j {:trigger Distinct(s, i, j)} :: 0 <= i < j < |s| ==> Distinct(s, i, j)
  }

  /** A list without duplicates loses none of that by dropping its first element, and its
      first element is not in the rest. */
  lemma NoDuplicatesTail<T>(s: seq<T>)
    requires NoDuplicates(s) && s != []
    ensures NoDuplicates(s[1..]) && s[0] !in s[1..]
  {
    forall i, j | 0 <= i < j < |s[1..]| ensures Distinct(s[1..], i, j) {
      assert Distinct(s, i + 1, j + 1);
    }
    forall k | 0 <= k < |s[1..]| ensures s[1..][k] != s[0] {
      assert Distinct(s, 0, k + 1);
    }
  }

  /** `bringForward`: swap with the successor; nothing happens to the topmost object. */
  function Forward<T>(s: seq<T>, i: nat): (r: seq<T>)
    requires i < |s|
    ensures |r| == |s| && multiset(r) == multiset(s)
    ensures i + 1 < |s| ==> r[i + 1] == s[i] && r[i] == s[i + 1]
    ensures i + 1 == |s| ==> r == s
    ensures forall k :: 0 <= k < |s| && k != i && k != i + 1 ==> r[k] == s[k]
  {
    if i + 1 < |s| then s[i := s[i + 1]][i + 1 := s[i]] else s
  }

  /** `sendBackwards`: swap with the predecessor; nothing happens to the bottom object. */
  function Backward<T>(s: seq<T>, i: nat): (r: seq<T>)
    requires i < |s|
    ensures |r| == |s| && multiset(r) == multiset(s)
    ensures i > 0 ==> r[i - 1] == s[i] && r[i] == s[i - 1]
    ensures i == 0 ==> r == s
    ensures forall k :: 0 <= k < |s| && k != i && k + 1 != i ==> r[k] == s[k]
  {
    if i > 0 then s[i := s[i - 1]][i - 1 := s[i]] else s
  }

  /** One step forward and one step back leave the list as it was. */
  lemma ForwardThenBackward<T>(s: seq<T>, i: nat)
    requires i + 1 < |s|
    ensures Backward(Forward(s, i), i + 1) == s
  {
  }

  /** `bringToFront`: the object moves to the last index, the others keep their order. */
  function ToFront<T>(s: seq<T>, i: nat): (r: seq<T>)
    requires i < |s|
    ensures |r| == |s| && multiset(r) == multiset(s)
    ensures r[|r| - 1] == s[i] && r[..|r| - 1] == s[..i] + s[i + 1..]
  {
    assert s == s[..i] + [s[i]] + s[i + 1..];
    s[..i] + s[i + 1..] + [s[i]]
  }

  /** `sendToBack`: the object moves to index 0, the others keep their order. */
  function ToBack<T>(s: seq<T>, i: nat): (r: seq<T>)
    requires i < |s|
    ensures |r| == |s| && multiset(r) == multiset(s)
    ensures r[0] == s[i] && r[1..] == s[..i] + s[i + 1..]
  {
    assert s == s[..i] + [s[i]] + s[i + 1..];
    [s[i]] + s[..i] + s[i + 1..]
  }

  /** Sending the topmost object to the back. */
  lemma ToBackOfLast<T>(s: seq<T>, x: T)
    ensures ToBack(s + [x], |s|) == [x] + s
  {
    assert (s + [x])[..|s|] == s;
  }

  /** The first index of `x`, as `Array.prototype.indexOf` finds it. */
  function Position<T(==)>(s: seq<T>, x: T): (p: nat)
    requires x in s
    ensures p < |s| && s[p] == x && x !in s[..p]
  {
    if s[0] == x then 0
    else
      var p := 1 + Position(s[1..], x);
      assert s[..p] == [s[0]] + s[1..][..p - 1];
      p
  }

  /** The list with every element of `xs` taken out and the rest in their old order. */
  function Without<T(==)>(s: seq<T>, xs: set<T>): (r: seq<T>)
    ensures forall x :: x in r ==> x in s && x !in xs
    ensures forall x :: x in s && x !in xs ==> x in r
    ensures |r| <= |s|
  {
    if s == [] then []
    else if s[0] in xs then Without(s[1..], xs)
    else [s[0]] + Without(s[1..], xs)
  }

  lemma {:induction false} WithoutNothing<T>(s: seq<T>, xs: set<T>)
    requires forall x :: x in s ==> x !in xs
    ensures Without(s, xs) == s
  {
    if s != [] {
      WithoutNothing(s[1..], xs);
    }
  }

  lemma {:induction false} WithoutEverything<T>(s: seq<T>, xs: set<T>)
    requires forall x :: x in s ==> x in xs
    ensures Without(s, xs) == []
  {
    if s != [] {
      WithoutEverything(s[1..], xs);
    }
  }

  lemma {:induction false} WithoutAppend<T>(a: seq<T>, b: seq<T>, xs: set<T>)
    ensures Without(a + b, xs) == Without(a, xs) + Without(b, xs)
  {
    if a == [] {
      assert a + b == b;
    } else {
      assert (a + b)[1..] == a[1..] + b;
      WithoutAppend(a[1..], b, xs);
    }
  }

  /** Removing the element at index `i` is `Without` that element, when it occurs once. */
  lemma RemoveAtIsWithout<T>(s: seq<T>, i: nat)
    requires i < |s| && NoDuplicates(s)
    ensures s[..i] + s[i + 1..] == Without(s, {s[i]})
  {
    var x := s[i];
    var before, after := s[..i], s[i + 1..];
    assert s == before + [x] + after;
    forall y | y in before ensures y !in {x} {
      var k :| 0 <= k < |before| && before[k] == y;
      assert s[k] == y && Distinct(s, k, i);
    }
    forall y | y in after ensures y !in {x} {
      var k :| 0 <= k < |after| && after[k] == y;
      assert s[i + 1 + k] == y && Distinct(s, i, i + 1 + k);
    }
    WithoutNothing(before, {x});
    WithoutNothing(after, {x});
    WithoutAppend(before + [x], after, {x});
    WithoutAppend(before, [x], {x});
    assert Without([x], {x}) == [];
  }

  /** Taking out one set and then another is taking out their union. */
  lemma {:induction false} WithoutTwice<T>(s: seq<T>, xs: set<T>, ys: set<T>)
    ensures Without(Without(s, xs), ys) == Without(s, xs + ys)
  {
    if s != [] {
      WithoutTwice(s[1..], xs, ys);
      if s[0] !in xs {
        assert Without(s, xs) == [s[0]] + Without(s[1..], xs);
        assert ([s[0]] + Without(s[1..], xs))[1..] == Without(s[1..], xs);
      }
    }
  }

  /** Taking elements out keeps the survivors in their old order. */
  lemma {:induction false} WithoutKeepsOrder<T>(s: seq<T>, xs: set<T>, i: nat, j: nat)
    requires NoDuplicates(s) && i < j < |s| && s[i] !in xs && s[j] !in xs
    ensures s[i] in Without(s, xs) && s[j] in Without(s, xs)
    ensures Position(Without(s, xs), s[i]) < Position(Without(s, xs), s[j])
    decreases |s|
  {
    var r := Without(s, xs);
    assert s[i] in s && s[j] in s;
    NoDuplicatesTail(s);
    if i == 0 {
      assert r == [s[0]] + Without(s[1..], xs);
      assert Distinct(s, 0, j);
    } else {
      var t := Without(s[1..], xs);
      assert s[i] == s[1..][i - 1] && s[j] == s[1..][j - 1];
      WithoutKeepsOrder(s[1..], xs, i - 1, j - 1);
      if s[0] !in xs {
        assert r == [s[0]] + t;
        assert Distinct(s, 0, i) && Distinct(s, 0, j);
        PositionAfterHead(s[0], t, s[i]);
        PositionAfterHead(s[0], t, s[j]);
      }
    }
  }

  lemma PositionAfterHead<T>(x: T, t: seq<T>, y: T)
    requires y in t && y != x
    ensures Position([x] + t, y) == 1 + Position(t, y)
  {
    assert ([x] + t)[1..] == t;
  }

  /** One more step of removing the objects of `toRemove` from `s`, one at a time. */
  lemma RemovedOneMore<T>(s: seq<T>, toRemove: seq<T>, k: nat, removed: set<T>)
    requires NoDuplicates(toRemove) && k < |toRemove| && removed == set j | 0 <= j < k :: toRemove[j]
    ensures toRemove[k] !in removed
    ensures removed + {toRemove[k]} == set j | 0 <= j < k + 1 :: toRemove[j]
    ensures Without(Without(s, removed), {toRemove[k]}) == Without(s, removed + {toRemove[k]})
  {
    forall j | 0 <= j < k ensures toRemove[j] != toRemove[k] {
      assert Distinct(toRemove, j, k);
    }
    WithoutTwice(s, removed, {toRemove[k]});
  }

  lemma {:induction false} WithoutNoDuplicates<T>(s: seq<T>, xs: set<T>)
    requires NoDuplicates(s)
    ensures NoDuplicates(Without(s, xs))
  {
    if s != [] {
      NoDuplicatesTail(s);
      WithoutNoDuplicates(s[1..], xs);
      if s[0] !in xs {
        AppendFresh(Without(s[1..], xs), s[0]);
      }
    }
  }

  /** A list without duplicates holds every element once. */
  lemma {:induction false} CountsAtMostOne<T>(s: seq<T>)
    requires NoDuplicates(s)
    ensures forall x :: multiset(s)[x] <= 1
  {
    if s != [] {
      assert s == [s[0]] + s[1..];
      NoDuplicatesTail(s);
      CountsAtMostOne(s[1..]);
    }
  }

  /** A list that holds every element at most once has no duplicates. */
  lemma CountsGiveNoDuplicates<T>(t: seq<T>)
    requires forall x :: multiset(t)[x] <= 1
    ensures NoDuplicates(t)
  {
    forall i, j | 0 <= i < j < |t| ensures Distinct(t, i, j) {
      assert t == t[..j] + t[j..];
      assert multiset(t)[t[j]] == multiset(t[..j])[t[j]] + multiset(t[j..])[t[j]];
      assert t[i] in t[..j] && t[j] in t[j..];
      assert multiset(t)[t[i]] <= 1;
    }
  }

  /** Reordering a list keeps it free of duplicates. */
  lemma PermutationKeepsNoDuplicates<T>(s: seq<T>, t: seq<T>)
    requires NoDuplicates(s) && multiset(s) == multiset(t)
    ensures NoDuplicates(t)
    ensures forall x :: x in t <==> x in s
  {
    forall x ensures x in t <==> x in s {
      assert x in t <==> x in multiset(t);
      assert x in s <==> x in multiset(s);
    }
    CountsAtMostOne(s);
    CountsGiveNoDuplicates(t);
  }

  /** One more element of a prefix. */
  lemma TakeOneMore<T>(s: seq<T>, i: nat)
    requires i < |s|
    ensures s[..i + 1] == s[..i] + [s[i]]
  {
  }

  lemma TakeAll<T>(s: seq<T>)
    ensures s[..|s|] == s
  {
  }

  lemma SliceAll<T>(s: seq<T>)
    ensures s[0..|s|] == s
  {
  }

  /** One more element of an inner slice. */
  lemma SliceOneMore<T>(s: seq<T>, a: nat, b: nat)
    requires a <= b < |s|
    ensures s[a..b + 1] == s[a..b] + [s[b]]
  {
  }

  /** A list that grows by the next element of a slice of `s`. */
  lemma ExtendSlice<T>(a: seq<T>, s: seq<T>, lo: nat, hi: nat)
    requires lo <= hi < |s|
    ensures a + s[lo..hi] + [s[hi]] == a + s[lo..hi + 1]
  {
    assert s[lo..hi + 1] == s[lo..hi] + [s[hi]];
  }

  lemma AppendAssociates<T>(a: seq<T>, b: seq<T>, c: seq<T>)
    ensures a + b + c == a + (b + c)
  {
  }

  lemma SplitAt<T>(s: seq<T>, n: nat)
    requires n <= |s|
    ensures s == s[..n] + s[n..] && s[n..|s|] == s[n..]
  {
  }

  lemma AppendFresh<T>(s: seq<T>, x: T)
    requires NoDuplicates(s) && x !in s
    ensures NoDuplicates(s + [x]) && NoDuplicates([x] + s)
  {
    forall i, j | 0 <= i < j < |s| + 1 ensures Distinct(s + [x], i, j) && Distinct([x] + s, i, j) {
      if j == |s| {
        assert (s + [x])[i] == s[i];
      } else {
        assert (s + [x])[i] == s[i] && (s + [x])[j] == s[j] && Distinct(s, i, j);
      }
      if i == 0 {
        assert ([x] + s)[j] == s[j - 1];
      } else {
        assert ([x] + s)[i] == s[i - 1] && ([x] + s)[j] == s[j - 1] && Distinct(s, i - 1, j - 1);
      }
    }
  }
}
