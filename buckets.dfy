/** The append-only result lists both sweeps build. A list that receives
    item i of a run exactly when `keep[i]` holds is `Keep(items, keep)`;
    this module proves what such lists share: order, partition and
    containment. */
module Buckets {

  /** The items whose flag is set, in their original order. */
  function Keep<T>(items: seq<T>, keep: seq<bool>): (r: seq<T>)
    requires |items| == |keep|
    ensures |r| <= |items|
  {
    if |items| == 0 then []
    else Keep(items[..|items| - 1], keep[..|keep| - 1])
         + (if keep[|keep| - 1] then [items[|items| - 1]] else [])
  }

  function Not(keep: seq<bool>): (r: seq<bool>)
    ensures |r| == |keep| && forall i :: 0 <= i < |keep| ==> r[i] == !keep[i]
  {
    seq(|keep|, i requires 0 <= i < |keep| => !keep[i])
  }

  function Map<A, B>(f: A -> B, s: seq<A>): (r: seq<B>)
    ensures |r| == |s| && forall i :: 0 <= i < |s| ==> r[i] == f(s[i])
  {
    seq(|s|, i requires 0 <= i < |s| => f(s[i]))
  }

  /** No value occurs twice in `s`. */
  predicate NoDuplicates<T(==)>(s: seq<T>) {
    forall i, j :: 0 <= i < j < |s| ==> s[i] != s[j]
  }

  /** `a` is `b` with some entries left out, the rest in the same order. */
  predicate IsSubsequence<T(==)>(a: seq<T>, b: seq<T>)
  {
    if |a| == 0 then true
    else if |b| == 0 then false
    else if a[|a| - 1] == b[|b| - 1] then IsSubsequence(a[..|a| - 1], b[..|b| - 1])
    else IsSubsequence(a, b[..|b| - 1])
  }

  /** Appending one item to a run appends it to the list exactly when its flag is set. */
  lemma KeepExtend<T>(items: seq<T>, keep: seq<bool>, i: int)
    requires |items| == |keep| && 0 <= i < |items|
    ensures Keep(items[..i + 1], keep[..i + 1])
            == Keep(items[..i], keep[..i]) + (if keep[i] then [items[i]] else [])
  {
    assert items[..i + 1][..i] == items[..i];
    assert keep[..i + 1][..i] == keep[..i];
  }

  /** One more item of a run goes to exactly one of the two complementary lists. */
  lemma KeepBoth<T>(items: seq<T>, keep: seq<bool>, i: int)
    requires |items| == |keep| && 0 <= i < |items|
    ensures Keep(items[..i + 1], keep[..i + 1])
            == Keep(items[..i], keep[..i]) + (if keep[i] then [items[i]] else [])
    ensures Keep(items[..i + 1], Not(keep)[..i + 1])
            == Keep(items[..i], Not(keep)[..i]) + (if keep[i] then [] else [items[i]])
  {
    KeepExtend(items, keep, i);
    KeepExtend(items, Not(keep), i);
  }

  lemma KeepAll<T>(items: seq<T>, keep: seq<bool>)
    requires |items| == |keep|
    ensures Keep(items[..|items|], keep[..|keep|]) == Keep(items, keep)
  {
    assert items[..|items|] == items && keep[..|keep|] == keep;
  }

  /** A flag set and its complement split the items between two lists that
      together hold every item exactly once. */
  lemma KeepPartition<T>(items: seq<T>, keep: seq<bool>)
    requires |items| == |keep|
    ensures |Keep(items, keep)| + |Keep(items, Not(keep))| == |items|
    ensures multiset(Keep(items, keep)) + multiset(Keep(items, Not(keep))) == multiset(items)
  {
    KeepSplit(items, keep, Not(keep));
    assert |multiset(Keep(items, keep)) + multiset(Keep(items, Not(keep)))| == |multiset(items)|;
  }

  /** Two complementary flag sequences split the items between their lists. */
  lemma KeepSplit<T>(items: seq<T>, keep: seq<bool>, other: seq<bool>)
    requires |items| == |keep| == |other|
    requires forall i :: 0 <= i < |keep| ==> other[i] == !keep[i]
    ensures multiset(Keep(items, keep)) + multiset(Keep(items, other)) == multiset(items)
  {
    var kept, dropped := Keep(items, keep), Keep(items, other);
    forall x ensures multiset(kept)[x] + multiset(dropped)[x] == multiset(items)[x] {
      KeepSplitCount(items, keep, other, x);
    }
    MultisetByCounts(kept, dropped, items);
  }

  lemma MultisetByCounts<T>(a: seq<T>, b: seq<T>, c: seq<T>)
    requires forall x :: multiset(a)[x] + multiset(b)[x] == multiset(c)[x]
    ensures multiset(a) + multiset(b) == multiset(c)
  {
  }

  /** The same, one value at a time: its copies are divided between the lists. */
  lemma {:induction false} KeepSplitCount<T>(items: seq<T>, keep: seq<bool>, other: seq<bool>, x: T)
    requires |items| == |keep| == |other|
    requires forall i :: 0 <= i < |keep| ==> other[i] == !keep[i]
    ensures multiset(Keep(items, keep))[x] + multiset(Keep(items, other))[x] == multiset(items)[x]
  {
    if |items| > 0 {
      var n := |items| - 1;
      KeepSplitCount(items[..n], keep[..n], other[..n], x);
      CountLast(items, x);
      KeepCountLast(items, keep, x);
      KeepCountLast(items, other, x);
    }
  }

  /** Copies of x in a list: those before its last entry, and the last one. */
  lemma CountLast<T>(s: seq<T>, x: T)
    requires |s| > 0
    ensures multiset(s)[x] == multiset(s[..|s| - 1])[x] + (if s[|s| - 1] == x then 1 else 0)
  {
    assert s == s[..|s| - 1] + [s[|s| - 1]];
  }

  /** Copies of x kept from a run: those kept before its last item, and the last one if kept. */
  lemma KeepCountLast<T>(items: seq<T>, keep: seq<bool>, x: T)
    requires |items| == |keep| > 0
    ensures var n := |items| - 1;
            multiset(Keep(items, keep))[x]
            == multiset(Keep(items[..n], keep[..n]))[x] + (if keep[n] && items[n] == x then 1 else 0)
  {
    var n := |items| - 1;
    var kept := Keep(items[..n], keep[..n]);
    if keep[n] {
      CountAppend(kept, [items[n]], x);
    } else {
      assert Keep(items, keep) == kept + [];
    }
  }

  lemma CountAppend<T>(a: seq<T>, b: seq<T>, x: T)
    ensures multiset(a + b)[x] == multiset(a)[x] + multiset(b)[x]
  {
  }

  /** Each list is a subsequence of the items. */
  lemma {:induction false} KeepIsSubsequence<T>(items: seq<T>, keep: seq<bool>)
    requires |items| == |keep|
    ensures IsSubsequence(Keep(items, keep), items)
  {
    if |items| > 0 {
      var n := |items| - 1;
      KeepIsSubsequence(items[..n], keep[..n]);
      if !keep[n] {
        assert Keep(items, keep) == Keep(items[..n], keep[..n]);
        SubsequenceDropLast(Keep(items[..n], keep[..n]), items);
      } else {
        var r := Keep(items, keep);
        assert r[..|r| - 1] == Keep(items[..n], keep[..n]);
      }
    }
  }

  lemma {:induction false} SubsequenceDropLast<T>(a: seq<T>, b: seq<T>)
    requires |b| > 0 && IsSubsequence(a, b[..|b| - 1])
    ensures IsSubsequence(a, b)
  {
    if |a| > 0 && a[|a| - 1] == b[|b| - 1] {
      SubsequenceShorten(a, b[..|b| - 1]);
    }
  }

  /** Dropping the last entry of a subsequence keeps it a subsequence. */
  lemma {:induction false} SubsequenceShorten<T>(a: seq<T>, b: seq<T>)
    requires |a| > 0 && IsSubsequence(a, b)
    ensures IsSubsequence(a[..|a| - 1], b)
  {
    var a' := a[..|a| - 1];
    if |b| > 0 {
      var b' := b[..|b| - 1];
      if a[|a| - 1] == b[|b| - 1] {
        SubsequenceDropLast(a', b);
      } else {
        SubsequenceShorten(a, b');
        SubsequenceDropLast(a', b);
      }
    }
  }

  /** A list whose flags imply another list's flags is a subsequence of it. */
  lemma {:induction false} KeepMonotone<T>(items: seq<T>, small: seq<bool>, large: seq<bool>)
    requires |items| == |small| == |large|
    requires forall i :: 0 <= i < |items| && small[i] ==> large[i]
    ensures IsSubsequence(Keep(items, small), Keep(items, large))
  {
    if |items| > 0 {
      var n := |items| - 1;
      KeepMonotone(items[..n], small[..n], large[..n]);
      var s, l := Keep(items, small), Keep(items, large);
      var s', l' := Keep(items[..n], small[..n]), Keep(items[..n], large[..n]);
      if small[n] {
        assert s[..|s| - 1] == s' && l[..|l| - 1] == l';
      } else if large[n] {
        assert s == s' && l[..|l| - 1] == l';
        SubsequenceDropLast(s, l);
      } else {
        assert s == s' && l == l';
      }
    }
  }

  /** An item is in a list exactly when some item equal to it has its flag set. */
  lemma {:induction false} KeepMember<T>(items: seq<T>, keep: seq<bool>, x: T)
    requires |items| == |keep|
    ensures x in Keep(items, keep) <==> exists i :: 0 <= i < |items| && keep[i] && items[i] == x
  {
    if |items| > 0 {
      var n := |items| - 1;
      KeepMember(items[..n], keep[..n], x);
      if x in Keep(items[..n], keep[..n]) {
        var i :| 0 <= i < n && keep[..n][i] && items[..n][i] == x;
        assert keep[i] && items[i] == x;
      }
      if i :| 0 <= i < |items| && keep[i] && items[i] == x {
        if i < n {
          assert keep[..n][i] && items[..n][i] == x;
        }
      }
    }
  }

  /** Mapping over a list picks the same entries as mapping first. */
  lemma {:induction false} MapKeep<A, B>(f: A -> B, items: seq<A>, keep: seq<bool>)
    requires |items| == |keep|
    ensures Map(f, Keep(items, keep)) == Keep(Map(f, items), keep)
  {
    if |items| > 0 {
      var n := |items| - 1;
      MapKeep(f, items[..n], keep[..n]);
      assert Map(f, items)[..n] == Map(f, items[..n]);
      var r := Keep(items[..n], keep[..n]);
      var tail := if keep[n] then [items[n]] else [];
      assert Map(f, r + tail) == Map(f, r) + Map(f, tail);
    }
  }
}
