/**
 * condenseOCFRecurringSchedules (models/models.go): windows with the same
 * start, end, minimum and maximum are merged into one window whose day list
 * is the ascending sort of all their day lists. The Go code scans a clone of
 * its input; each match is swapped with the clone's last element and the
 * clone is shortened, so the scan order is not the input order.
 */
module Condensing {
  import opened GoInts
  import opened Sorting
  import opened Ocfas

  /** The fields two windows must share to be merged; the days and the initial count are not among them. */
  datatype WindowKey = WindowKey(startTime: string, endTime: string, instanceMinCount: int64, instanceMaxCount: int64)

  function KeyOf(r: RecurringSchedule): WindowKey
  {
    WindowKey(r.startTime, r.endTime, r.instanceMinCount, r.instanceMaxCount)
  }

  function KeysOf(s: seq<RecurringSchedule>): set<WindowKey>
  {
    set r | r in s :: KeyOf(r)
  }

  /** The windows of s with key k, in order. */
  function Matching(s: seq<RecurringSchedule>, k: WindowKey): seq<RecurringSchedule>
  {
    if s == [] then [] else (if KeyOf(s[0]) == k then [s[0]] else []) + Matching(s[1..], k)
  }

  /** The windows of s whose key is not in ks, in order. */
  function Unclaimed(s: seq<RecurringSchedule>, ks: set<WindowKey>): seq<RecurringSchedule>
  {
    if s == [] then [] else (if KeyOf(s[0]) in ks then [] else [s[0]]) + Unclaimed(s[1..], ks)
  }

  /** The day lists of s, concatenated. */
  function Days(s: seq<RecurringSchedule>): seq<int>
  {
    if s == [] then [] else s[0].daysOfWeek + Days(s[1..])
  }

  // ----- the algorithm, as functions -----

  /** `inClone[j], inClone[len-1] = inClone[len-1], inClone[j]` followed by `inClone = inClone[:len-1]`. */
  function Shrink(c: seq<RecurringSchedule>, j: nat): (r: seq<RecurringSchedule>)
    requires j < |c|
    ensures |r| == |c| - 1 && r[..j] == c[..j]
  {
    c[j := c[|c| - 1]][..|c| - 1]
  }

  /**
   * The inner loop from index j on: each window matching t's key is removed
   * from the clone and its days are appended to t's; after a removal the same
   * index is looked at again (`j--` then `j++`).
   */
  function Merge(c: seq<RecurringSchedule>, t: RecurringSchedule, j: nat): (r: (seq<RecurringSchedule>, RecurringSchedule))
    requires j <= |c|
    ensures j <= |r.0| <= |c| && r.0[..j] == c[..j]
    decreases |c| - j
  {
    if j == |c| then (c, t)
    else if KeyOf(c[j]) == KeyOf(t) then
      Merge(Shrink(c, j), t.(daysOfWeek := t.daysOfWeek + c[j].daysOfWeek), j)
    else
      var r := Merge(c, t, j + 1);
      assert r.0[..j] == r.0[..j + 1][..j];
      r
  }

  /** sort.Slice on the merged day list. */
  function SortDays(t: RecurringSchedule): RecurringSchedule
  {
    t.(daysOfWeek := SortInts(t.daysOfWeek))
  }

  /** The outer loop from index i on, with the windows emitted so far. */
  function Scan(c: seq<RecurringSchedule>, i: nat, ret: seq<RecurringSchedule>): seq<RecurringSchedule>
    requires i <= |c|
    decreases |c| - i
  {
    if i == |c| then ret
    else
      var m := Merge(c, c[i], i + 1);
      Scan(m.0, i + 1, ret + [SortDays(m.1)])
  }

  lemma ScanUnfold(c: seq<RecurringSchedule>, i: nat, ret: seq<RecurringSchedule>)
    requires i < |c|
    ensures var m := Merge(c, c[i], i + 1);
      Scan(c, i, ret) == Scan(m.0, i + 1, ret + [SortDays(m.1)])
  {
  }

  lemma ScanTo(c: seq<RecurringSchedule>, i: nat, ret: seq<RecurringSchedule>, c2: seq<RecurringSchedule>, t2: RecurringSchedule)
    requires i < |c| && Merge(c, c[i], i + 1) == (c2, t2)
    ensures i + 1 <= |c2| && Scan(c, i, ret) == Scan(c2, i + 1, ret + [SortDays(t2)])
  {
  }

  function Condensed(input: seq<RecurringSchedule>): seq<RecurringSchedule>
  {
    Scan(input, 0, [])
  }

  // ----- the algorithm, on a clone of the caller's array -----

  /**
   * condenseOCFRecurringSchedules. The caller's array is only read (there is
   * no modifies clause): the swaps and the shortening happen on the clone.
   */
  method CondenseRecurringSchedules(input: array<RecurringSchedule>) returns (ret: seq<RecurringSchedule>)
    ensures ret == Condensed(input[..])
  {
    var clone := CloneArray(input);
    ret := ScanClone(clone);
  }

  /** The outer loop of condenseOCFRecurringSchedules, over the whole clone. */
  method ScanClone(clone: array<RecurringSchedule>) returns (ret: seq<RecurringSchedule>)
    modifies clone
    ensures ret == Condensed(old(clone[..]))
  {
    ret := [];
    ghost var goal := Condensed(clone[..]);
    var n := clone.Length;
    ghost var cur := clone[..];
    assert clone[..n] == cur;
    var i := 0;
    while i < n
      invariant 0 <= i <= n <= clone.Length && |cur| == n
      invariant cur == clone[..n]
      invariant Scan(cur, i, ret) == goal
      decreases n - i
    {
      n, ret, cur := OuterStep(clone, n, i, ret, cur);
      i := i + 1;
    }
    ScanDone(cur, ret);
  }

  lemma ScanDone(c: seq<RecurringSchedule>, ret: seq<RecurringSchedule>)
    ensures Scan(c, |c|, ret) == ret
  {
  }

  /** One outer iteration: the window at index i absorbs its matches and, sorted, is appended to the output. */
  method OuterStep(clone: array<RecurringSchedule>, n0: nat, i: nat, ret0: seq<RecurringSchedule>, ghost c0: seq<RecurringSchedule>)
    returns (n: nat, ret: seq<RecurringSchedule>, ghost c: seq<RecurringSchedule>)
    requires i < n0 <= clone.Length && c0 == clone[..n0]
    modifies clone
    ensures i + 1 <= n <= n0 && |c| == n && c == clone[..n]
    ensures Scan(c, i + 1, ret) == Scan(c0, i, ret0)
  {
    ScanUnfold(c0, i, ret0);
    var toAppend;
    n, toAppend := MergeInPlace(clone, n0, i);
    ghost var m := Merge(c0, c0[i], i + 1);
    c := clone[..n];
    assert c == m.0 && toAppend == m.1;
    toAppend := SortDayList(toAppend);
    ret := ret0 + [toAppend];
  }

  /** `inClone := make(...)` and the copying loop. */
  method CloneArray(input: array<RecurringSchedule>) returns (clone: array<RecurringSchedule>)
    ensures fresh(clone) && clone[..] == input[..]
  {
    if input.Length == 0 {
      clone := new RecurringSchedule[0];
      return;
    }
    var first := input[0];
    clone := new RecurringSchedule[input.Length](_ => first);
    for i := 0 to input.Length
      invariant clone[..i] == input[..i]
    {
      clone[i] := input[i];
    }
    assert clone[..] == clone[..input.Length];
  }

  /** The inner loop of condenseOCFRecurringSchedules, on the first n0 elements of the clone. */
  method MergeInPlace(clone: array<RecurringSchedule>, n0: nat, i: nat) returns (n: nat, toAppend: RecurringSchedule)
    requires i < n0 <= clone.Length
    modifies clone
    ensures n <= n0 && (clone[..n], toAppend) == Merge(old(clone[..n0]), old(clone[i]), i + 1)
  {
    ghost var cur := clone[..n0];
    ghost var goal := Merge(cur, cur[i], i + 1);
    n := n0;
    toAppend := clone[i];
    var j := i + 1;
    while j < n
      invariant i + 1 <= j <= n <= n0 && |cur| == n
      invariant cur == clone[..n]
      invariant Merge(cur, toAppend, j) == goal
      decreases n - j
    {
      n, j, toAppend, cur := MergeStep(clone, n, j, toAppend, cur);
    }
  }

  /** One inner iteration at index j: a match is absorbed and swapped out, anything else is stepped past. */
  method MergeStep(clone: array<RecurringSchedule>, n0: nat, j0: nat, t0: RecurringSchedule, ghost c0: seq<RecurringSchedule>)
    returns (n: nat, j: nat, t: RecurringSchedule, ghost c: seq<RecurringSchedule>)
    requires j0 < n0 <= clone.Length && c0 == clone[..n0]
    modifies clone
    ensures j0 <= j <= n <= n0 && n - j < n0 - j0 && |c| == n && c == clone[..n]
    ensures Merge(c, t, j) == Merge(c0, t0, j0)
  {
    var x := clone[j0];
    if x.startTime == t0.startTime && x.endTime == t0.endTime
      && x.instanceMinCount == t0.instanceMinCount && x.instanceMaxCount == t0.instanceMaxCount
    {
      MergeTake(c0, t0, j0, x);
      t := t0.(daysOfWeek := t0.daysOfWeek + x.daysOfWeek);
      c := SwapWithLast(clone, n0, j0, c0);
      n, j := n0 - 1, j0;
    } else {
      MergeSkip(c0, t0, j0, x);
      n, j, t, c := n0, j0 + 1, t0, c0;
    }
  }

  /** Swaps element j with the last of the first n, which the caller then drops. */
  method SwapWithLast(a: array<RecurringSchedule>, n: nat, j: nat, ghost c: seq<RecurringSchedule>) returns (ghost r: seq<RecurringSchedule>)
    requires j < n <= a.Length && c == a[..n]
    modifies a
    ensures r == a[..n - 1] && r == Shrink(c, j)
  {
    a[j], a[n - 1] := a[n - 1], a[j];
    r := a[..n - 1];
    assert r == c[j := c[n - 1]][..n - 1];
  }

  /** Sorts a window's day list in place, as sort.Slice does. */
  method SortDayList(t: RecurringSchedule) returns (r: RecurringSchedule)
    ensures r == SortDays(t)
  {
    var days := new int[|t.daysOfWeek|](k requires 0 <= k < |t.daysOfWeek| => t.daysOfWeek[k]);
    assert days[..] == t.daysOfWeek;
    SortByKey(days, x => x);
    assert Ascending(days[..]) by {
      forall p, q | 0 <= p < q < days.Length ensures days[..][p] <= days[..][q] {
        assert (x => x)(days[..][p]) <= (x => x)(days[..][q]);
      }
    }
    AscendingUnique(days[..], SortInts(t.daysOfWeek));
    r := t.(daysOfWeek := days[..]);
  }

  // ----- list lemmas -----

  lemma {:induction false} MatchingAppend(a: seq<RecurringSchedule>, b: seq<RecurringSchedule>, k: WindowKey)
    ensures Matching(a + b, k) == Matching(a, k) + Matching(b, k)
  {
    if a != [] {
      assert (a + b)[1..] == a[1..] + b;
      MatchingAppend(a[1..], b, k);
    } else {
      assert a + b == b;
    }
  }

  lemma {:induction false} UnclaimedAppend(a: seq<RecurringSchedule>, b: seq<RecurringSchedule>, ks: set<WindowKey>)
    ensures Unclaimed(a + b, ks) == Unclaimed(a, ks) + Unclaimed(b, ks)
  {
    if a != [] {
      assert (a + b)[1..] == a[1..] + b;
      UnclaimedAppend(a[1..], b, ks);
    } else {
      assert a + b == b;
    }
  }

  lemma {:induction false} DaysAppend(a: seq<RecurringSchedule>, b: seq<RecurringSchedule>)
    ensures Days(a + b) == Days(a) + Days(b)
  {
    if a != [] {
      assert (a + b)[1..] == a[1..] + b;
      DaysAppend(a[1..], b);
    } else {
      assert a + b == b;
    }
  }

  /** How often a window occurs among the matching ones. */
  lemma {:induction false} MatchingCount(s: seq<RecurringSchedule>, k: WindowKey, x: RecurringSchedule)
    ensures multiset(Matching(s, k))[x] == if KeyOf(x) == k then multiset(s)[x] else 0
  {
    if s != [] {
      assert s == [s[0]] + s[1..];
      MatchingCount(s[1..], k, x);
    }
  }

  /** How often a window occurs among the unclaimed ones. */
  lemma {:induction false} UnclaimedCount(s: seq<RecurringSchedule>, ks: set<WindowKey>, x: RecurringSchedule)
    ensures multiset(Unclaimed(s, ks))[x] == if KeyOf(x) in ks then 0 else multiset(s)[x]
  {
    if s != [] {
      assert s == [s[0]] + s[1..];
      UnclaimedCount(s[1..], ks, x);
    }
  }

  lemma MatchingPermutation(s1: seq<RecurringSchedule>, s2: seq<RecurringSchedule>, k: WindowKey)
    requires multiset(s1) == multiset(s2)
    ensures multiset(Matching(s1, k)) == multiset(Matching(s2, k))
  {
    forall x
      ensures multiset(Matching(s1, k))[x] == multiset(Matching(s2, k))[x]
    {
      MatchingCount(s1, k, x);
      MatchingCount(s2, k, x);
    }
  }

  /** Taking the window at p out of s leaves the other windows. */
  lemma RemoveAt<T>(s: seq<T>, p: nat)
    requires p < |s|
    ensures multiset(s[..p] + s[p + 1..]) == multiset(s) - multiset{s[p]}
  {
    assert s == s[..p] + [s[p]] + s[p + 1..];
  }

  /** Taking the same window out of two permutations of each other leaves two permutations of each other. */
  lemma SameRest<T>(s1: seq<T>, s2: seq<T>, p: nat)
    requires multiset(s1) == multiset(s2) && |s1| > 0 && p < |s2| && s2[p] == s1[0]
    ensures multiset(s1[1..]) == multiset(s2[..p] + s2[p + 1..])
  {
    RemoveAt(s2, p);
    SplitAt(s1, 0);
    assert s1[0..] == s1;
  }

  /** Taking the window at p out of s takes its days out of the days of s. */
  lemma {:induction false} DaysRemoveAt(s: seq<RecurringSchedule>, p: nat)
    requires p < |s|
    ensures multiset(Days(s)) == multiset(Days(s[..p] + s[p + 1..])) + multiset(s[p].daysOfWeek)
  {
    var a, x, b := s[..p], s[p], s[p + 1..];
    assert s == a + [x] + b;
    DaysAppend(a + [x], b);
    DaysAppend(a, [x]);
    DaysAppend(a, b);
    assert Days([x]) == x.daysOfWeek by { assert [x][1..] == []; }
  }

  /** The days of a list of windows, as a multiset, do not depend on the order of the windows. */
  lemma {:induction false} DaysPermutation(s1: seq<RecurringSchedule>, s2: seq<RecurringSchedule>)
    requires multiset(s1) == multiset(s2)
    ensures multiset(Days(s1)) == multiset(Days(s2))
    decreases |s1|
  {
    if s1 == [] {
      assert |s2| == |multiset(s2)| == 0;
    } else {
      var x := s1[0];
      assert x in multiset(s2) by { assert x in multiset(s1); }
      var p :| 0 <= p < |s2| && s2[p] == x;
      var rest := s2[..p] + s2[p + 1..];
      SameRest(s1, s2, p);
      DaysPermutation(s1[1..], rest);
      DaysRemoveAt(s2, p);
      assert multiset(Days(s1)) == multiset(x.daysOfWeek) + multiset(Days(s1[1..]));
    }
  }

  /** Filtering out a set of keys leaves the windows of any other key in place. */
  lemma {:induction false} MatchingUnclaimed(s: seq<RecurringSchedule>, ks: set<WindowKey>, k: WindowKey)
    requires k !in ks
    ensures Matching(Unclaimed(s, ks), k) == Matching(s, k)
  {
    if s != [] {
      MatchingUnclaimed(s[1..], ks, k);
      var head := if KeyOf(s[0]) in ks then [] else [s[0]];
      MatchingAppend(head, Unclaimed(s[1..], ks), k);
      if head != [] {
        assert Matching(head, k) == (if KeyOf(s[0]) == k then [s[0]] else []) by {
          assert head[1..] == [];
        }
      }
    }
  }

  lemma KeysOfAppend(s: seq<RecurringSchedule>, x: RecurringSchedule)
    ensures KeysOf(s + [x]) == KeysOf(s) + {KeyOf(x)}
  {
    assert forall r :: r in s + [x] <==> r in s || r == x;
  }

  // ----- the inner loop -----

  lemma {:induction false} ShrinkParts(c: seq<RecurringSchedule>, j: nat)
    requires j < |c| - 1
    ensures c[j..] == [c[j]] + c[j + 1..|c| - 1] + [c[|c| - 1]]
    ensures Shrink(c, j)[j..] == [c[|c| - 1]] + c[j + 1..|c| - 1]
  {
  }

  /** The windows a single window of key k leaves unclaimed, and the days it contributes. */
  lemma Single(x: RecurringSchedule, k: WindowKey)
    ensures Unclaimed([x], {k}) == if KeyOf(x) == k then [] else [x]
    ensures Days(Matching([x], k)) == if KeyOf(x) == k then x.daysOfWeek else []
  {
    assert [x][1..] == [];
    assert [x][0] == x;
    if KeyOf(x) == k {
      assert Matching([x], k) == [x];
      assert Days([x]) == x.daysOfWeek + Days([]);
    }
  }

  /** Moving the last window to the front of the middle part and dropping a matching first one leaves the same unclaimed windows. */
  lemma UnclaimedSwap(x: RecurringSchedule, mid: seq<RecurringSchedule>, y: RecurringSchedule, k: WindowKey)
    requires KeyOf(x) == k
    ensures multiset(Unclaimed([x] + mid + [y], {k})) == multiset(Unclaimed([y] + mid, {k}))
  {
    Single(x, k);
    Single(y, k);
    UnclaimedAppend([x] + mid, [y], {k});
    UnclaimedAppend([x], mid, {k});
    UnclaimedAppend([y], mid, {k});
  }

  /** The same move, seen from the days of the matching windows. */
  lemma DaysSwap(x: RecurringSchedule, mid: seq<RecurringSchedule>, y: RecurringSchedule, k: WindowKey)
    requires KeyOf(x) == k
    ensures multiset(Days(Matching([x] + mid + [y], k))) == multiset(x.daysOfWeek) + multiset(Days(Matching([y] + mid, k)))
  {
    Single(x, k);
    Single(y, k);
    var mx, mm, my := Matching([x], k), Matching(mid, k), Matching([y], k);
    MatchingAppend([x] + mid, [y], k);
    MatchingAppend([x], mid, k);
    MatchingAppend([y], mid, k);
    assert Matching([x] + mid + [y], k) == mx + mm + my;
    assert Matching([y] + mid, k) == my + mm;
    DaysAppend(mx + mm, my);
    DaysAppend(mx, mm);
    DaysAppend(my, mm);
  }

  /** One removal, seen from the windows left in the clone. */
  lemma MatchStepRest(c: seq<RecurringSchedule>, j: nat, k: WindowKey, rest: seq<RecurringSchedule>)
    requires j < |c| && KeyOf(c[j]) == k
    requires multiset(rest) == multiset(Unclaimed(Shrink(c, j)[j..], {k}))
    ensures multiset(rest) == multiset(Unclaimed(c[j..], {k}))
  {
    if j == |c| - 1 {
      Single(c[j], k);
      assert c[j..] == [c[j]];
      assert Shrink(c, j)[j..] == [];
    } else {
      ShrinkParts(c, j);
      UnclaimedSwap(c[j], c[j + 1..|c| - 1], c[|c| - 1], k);
    }
  }

  /** One removal, seen from the merged days. */
  lemma MatchStepDays(c: seq<RecurringSchedule>, j: nat, k: WindowKey, days: seq<int>, more: seq<int>)
    requires j < |c| && KeyOf(c[j]) == k
    requires multiset(more) == multiset(days + c[j].daysOfWeek) + multiset(Days(Matching(Shrink(c, j)[j..], k)))
    ensures multiset(more) == multiset(days) + multiset(Days(Matching(c[j..], k)))
  {
    if j == |c| - 1 {
      Single(c[j], k);
      assert c[j..] == [c[j]];
      assert Shrink(c, j)[j..] == [];
    } else {
      ShrinkParts(c, j);
      DaysSwap(c[j], c[j + 1..|c| - 1], c[|c| - 1], k);
    }
  }

  /** Skipping a window with another key, seen from the windows left in the clone. */
  lemma SkipStepRest(c: seq<RecurringSchedule>, j: nat, k: WindowKey, rest: seq<RecurringSchedule>)
    requires j < |c| && KeyOf(c[j]) != k
    requires multiset(rest) == multiset(Unclaimed(c[j + 1..], {k}))
    ensures multiset([c[j]] + rest) == multiset(Unclaimed(c[j..], {k}))
  {
    SplitAt(c, j);
    Single(c[j], k);
    UnclaimedAppend([c[j]], c[j + 1..], {k});
  }

  /** Skipping a window with another key, seen from the merged days. */
  lemma SkipStepDays(c: seq<RecurringSchedule>, j: nat, k: WindowKey, days: seq<int>, more: seq<int>)
    requires j < |c| && KeyOf(c[j]) != k
    requires multiset(more) == multiset(days) + multiset(Days(Matching(c[j + 1..], k)))
    ensures multiset(more) == multiset(days) + multiset(Days(Matching(c[j..], k)))
  {
    SplitAt(c, j);
    Single(c[j], k);
    MatchingAppend([c[j]], c[j + 1..], k);
    DaysAppend(Matching([c[j]], k), Matching(c[j + 1..], k));
  }

  /** The suffix from index i is the element there followed by the suffix after it. */
  lemma SplitAt<T>(s: seq<T>, i: nat)
    requires i < |s|
    ensures s[i..] == [s[i]] + s[i + 1..]
    ensures multiset(s[i..]) == multiset{s[i]} + multiset(s[i + 1..])
  {
    assert s[i..] == [s[i]] + s[i + 1..];
  }

  /** The inner loop's step on a match, as MergeInPlace takes it. */
  lemma MergeTake(c: seq<RecurringSchedule>, t: RecurringSchedule, j: nat, x: RecurringSchedule)
    requires j < |c| && x == c[j] && KeyOf(x) == KeyOf(t)
    ensures Merge(c, t, j) == Merge(Shrink(c, j), t.(daysOfWeek := t.daysOfWeek + x.daysOfWeek), j)
  {
  }

  /** The inner loop's step past a window with another key. */
  lemma MergeSkip(c: seq<RecurringSchedule>, t: RecurringSchedule, j: nat, x: RecurringSchedule)
    requires j < |c| && x == c[j] && KeyOf(x) != KeyOf(t)
    ensures Merge(c, t, j) == Merge(c, t, j + 1)
  {
  }

  /** One step of the inner loop, as the function states it. */
  lemma MergeUnfold(c: seq<RecurringSchedule>, t: RecurringSchedule, j: nat)
    requires j < |c|
    ensures KeyOf(c[j]) == KeyOf(t) ==> Merge(c, t, j) == Merge(Shrink(c, j), t.(daysOfWeek := t.daysOfWeek + c[j].daysOfWeek), j)
    ensures KeyOf(c[j]) != KeyOf(t) ==> Merge(c, t, j) == Merge(c, t, j + 1)
  {
  }

  lemma KeptHead(r: seq<RecurringSchedule>, c: seq<RecurringSchedule>, j: nat)
    requires j < |r| && j < |c| && r[..j + 1] == c[..j + 1]
    ensures r[j..] == [c[j]] + r[j + 1..]
  {
    assert r[j] == r[..j + 1][j];
  }

  /** The inner loop removes from the clone, after index j, exactly the windows with t's key. */
  lemma {:induction false} MergeRest(c: seq<RecurringSchedule>, t: RecurringSchedule, j: nat)
    requires j <= |c|
    ensures multiset(Merge(c, t, j).0[j..]) == multiset(Unclaimed(c[j..], {KeyOf(t)}))
    decreases |c| - j, 1
  {
    if j == |c| {
      assert c[j..] == [];
    } else if KeyOf(c[j]) == KeyOf(t) {
      MergeRestMatch(c, t, j);
    } else {
      MergeRestSkip(c, t, j);
    }
  }

  lemma {:induction false} MergeRestMatch(c: seq<RecurringSchedule>, t: RecurringSchedule, j: nat)
    requires j < |c| && KeyOf(c[j]) == KeyOf(t)
    ensures multiset(Merge(c, t, j).0[j..]) == multiset(Unclaimed(c[j..], {KeyOf(t)}))
    decreases |c| - j, 0
  {
    MergeUnfold(c, t, j);
    var t2 := t.(daysOfWeek := t.daysOfWeek + c[j].daysOfWeek);
    MergeRest(Shrink(c, j), t2, j);
    MatchStepRest(c, j, KeyOf(t), Merge(c, t, j).0[j..]);
  }

  lemma {:induction false} MergeRestSkip(c: seq<RecurringSchedule>, t: RecurringSchedule, j: nat)
    requires j < |c| && KeyOf(c[j]) != KeyOf(t)
    ensures multiset(Merge(c, t, j).0[j..]) == multiset(Unclaimed(c[j..], {KeyOf(t)}))
    decreases |c| - j, 0
  {
    MergeUnfold(c, t, j);
    MergeRest(c, t, j + 1);
    var r := Merge(c, t, j + 1);
    SkipStepRest(c, j, KeyOf(t), r.0[j + 1..]);
    KeptHead(r.0, c, j);
  }

  /** The inner loop appends to t's days exactly the days of the windows with t's key after j; it changes nothing else in t. */
  lemma {:induction false} MergeDays(c: seq<RecurringSchedule>, t: RecurringSchedule, j: nat)
    requires j <= |c|
    ensures Merge(c, t, j).1.(daysOfWeek := t.daysOfWeek) == t
    ensures multiset(Merge(c, t, j).1.daysOfWeek) == multiset(t.daysOfWeek) + multiset(Days(Matching(c[j..], KeyOf(t))))
    decreases |c| - j, 1
  {
    if j == |c| {
      assert c[j..] == [];
    } else if KeyOf(c[j]) == KeyOf(t) {
      MergeDaysMatch(c, t, j);
    } else {
      MergeDaysSkip(c, t, j);
    }
  }

  lemma {:induction false} MergeDaysMatch(c: seq<RecurringSchedule>, t: RecurringSchedule, j: nat)
    requires j < |c| && KeyOf(c[j]) == KeyOf(t)
    ensures Merge(c, t, j).1.(daysOfWeek := t.daysOfWeek) == t
    ensures multiset(Merge(c, t, j).1.daysOfWeek) == multiset(t.daysOfWeek) + multiset(Days(Matching(c[j..], KeyOf(t))))
    decreases |c| - j, 0
  {
    var t2 := t.(daysOfWeek := t.daysOfWeek + c[j].daysOfWeek);
    MergeTake(c, t, j, c[j]);
    MergeDays(Shrink(c, j), t2, j);
    MatchStepDays(c, j, KeyOf(t), t.daysOfWeek, Merge(c, t, j).1.daysOfWeek);
  }

  lemma {:induction false} MergeDaysSkip(c: seq<RecurringSchedule>, t: RecurringSchedule, j: nat)
    requires j < |c| && KeyOf(c[j]) != KeyOf(t)
    ensures Merge(c, t, j).1.(daysOfWeek := t.daysOfWeek) == t
    ensures multiset(Merge(c, t, j).1.daysOfWeek) == multiset(t.daysOfWeek) + multiset(Days(Matching(c[j..], KeyOf(t))))
    decreases |c| - j, 0
  {
    MergeSkip(c, t, j, c[j]);
    MergeDays(c, t, j + 1);
    SkipStepDays(c, j, KeyOf(t), t.daysOfWeek, Merge(c, t, j).1.daysOfWeek);
  }

  // ----- the outer loop -----

  /** o agrees with r on every field but the day list. */
  predicate SameButDays(o: RecurringSchedule, r: RecurringSchedule)
  {
    o.(daysOfWeek := r.daysOfWeek) == r
  }

  /** An output window: its days are all days of the input windows with its key, sorted; its other fields are one such window's. */
  predicate DerivedFrom(input: seq<RecurringSchedule>, o: RecurringSchedule)
  {
    && o.daysOfWeek == SortInts(Days(Matching(input, KeyOf(o))))
    && exists m :: 0 <= m < |input| && SameButDays(o, input[m])
  }

  /** What holds between outer iterations: the rest of the clone is, up to order, the input windows with keys not yet emitted. */
  predicate ScanInv(input: seq<RecurringSchedule>, c: seq<RecurringSchedule>, i: nat, ret: seq<RecurringSchedule>)
  {
    && i <= |c| <= |input| && |ret| == i
    && multiset(c[i..]) == multiset(Unclaimed(input, KeysOf(ret)))
    && (forall a :: 0 <= a < |ret| ==> DerivedFrom(input, ret[a]))
    && (forall a, b :: 0 <= a < b < |ret| ==> KeyOf(ret[a]) != KeyOf(ret[b]))
  }

  /** The days merged into the window at index i are, up to order, all the input's days for its key. */
  lemma MergedDays(input: seq<RecurringSchedule>, c: seq<RecurringSchedule>, i: nat, ks: set<WindowKey>)
    requires i < |c| && KeyOf(c[i]) !in ks
    requires multiset(c[i..]) == multiset(Unclaimed(input, ks))
    ensures multiset(c[i].daysOfWeek) + multiset(Days(Matching(c[i + 1..], KeyOf(c[i])))) ==
            multiset(Days(Matching(input, KeyOf(c[i]))))
  {
    var k := KeyOf(c[i]);
    SplitAt(c, i);
    Single(c[i], k);
    MatchingAppend([c[i]], c[i + 1..], k);
    DaysAppend(Matching([c[i]], k), Matching(c[i + 1..], k));
    MatchingPermutation(c[i..], Unclaimed(input, ks), k);
    MatchingUnclaimed(input, ks, k);
    DaysPermutation(Matching(c[i..], k), Matching(input, k));
  }

  /** What remains of the clone after the inner loop is, up to order, the input windows with neither an emitted key nor k. */
  lemma RestUnclaimed(input: seq<RecurringSchedule>, c: seq<RecurringSchedule>, i: nat, ks: set<WindowKey>, rest: seq<RecurringSchedule>)
    requires i < |c|
    requires multiset(c[i..]) == multiset(Unclaimed(input, ks))
    requires multiset(rest) == multiset(Unclaimed(c[i + 1..], {KeyOf(c[i])}))
    ensures multiset(rest) == multiset(Unclaimed(input, ks + {KeyOf(c[i])}))
  {
    SplitAt(c, i);
    RestAfterHead(input, ks, c[i], c[i + 1..], rest);
  }

  /** RestUnclaimed, with the rest of the clone split into its head and tail. */
  lemma RestAfterHead(input: seq<RecurringSchedule>, ks: set<WindowKey>, head: RecurringSchedule, tail: seq<RecurringSchedule>, rest: seq<RecurringSchedule>)
    requires multiset{head} + multiset(tail) == multiset(Unclaimed(input, ks))
    requires multiset(rest) == multiset(Unclaimed(tail, {KeyOf(head)}))
    ensures multiset(rest) == multiset(Unclaimed(input, ks + {KeyOf(head)}))
  {
    var k := KeyOf(head);
    forall x
      ensures multiset(rest)[x] == multiset(Unclaimed(input, ks + {k}))[x]
    {
      UnclaimedCount(tail, {k}, x);
      UnclaimedCount(input, ks, x);
      UnclaimedCount(input, ks + {k}, x);
      if KeyOf(x) != k {
        assert x != head;
        assert multiset(tail)[x] == (multiset{head} + multiset(tail))[x];
      }
    }
  }

  /** The window at the head of the rest of the clone has a key not yet emitted and is one of the input's windows. */
  lemma HeadUnclaimed(input: seq<RecurringSchedule>, c: seq<RecurringSchedule>, i: nat, ks: set<WindowKey>)
    requires i < |c|
    requires multiset(c[i..]) == multiset(Unclaimed(input, ks))
    ensures KeyOf(c[i]) !in ks
    ensures exists p :: 0 <= p < |input| && input[p] == c[i]
  {
    SplitAt(c, i);
    assert c[i] in multiset(c[i..]);
    UnclaimedCount(input, ks, c[i]);
    assert c[i] in multiset(input);
  }

  /** The window emitted for the head of the rest of the clone. */
  lemma NewOutput(input: seq<RecurringSchedule>, c: seq<RecurringSchedule>, i: nat, ks: set<WindowKey>, merged: RecurringSchedule)
    requires i < |c|
    requires multiset(c[i..]) == multiset(Unclaimed(input, ks))
    requires SameButDays(merged, c[i])
    requires multiset(merged.daysOfWeek) == multiset(c[i].daysOfWeek) + multiset(Days(Matching(c[i + 1..], KeyOf(c[i]))))
    ensures KeyOf(SortDays(merged)) == KeyOf(c[i]) && KeyOf(c[i]) !in ks
    ensures DerivedFrom(input, SortDays(merged))
  {
    var k, o := KeyOf(c[i]), SortDays(merged);
    HeadUnclaimed(input, c, i, ks);
    var p :| 0 <= p < |input| && input[p] == c[i];
    MergedDays(input, c, i, ks);
    SortIntsPermutation(merged.daysOfWeek, Days(Matching(input, k)));
    assert SameButDays(o, input[p]);
  }

  /** Emitting a window with a new key keeps the invariant, once the rest of the clone is adjusted. */
  lemma ExtendInv(input: seq<RecurringSchedule>, c2: seq<RecurringSchedule>, i: nat, ret: seq<RecurringSchedule>, o: RecurringSchedule)
    requires |ret| == i && i + 1 <= |c2| <= |input|
    requires forall a :: 0 <= a < |ret| ==> DerivedFrom(input, ret[a])
    requires forall a, b :: 0 <= a < b < |ret| ==> KeyOf(ret[a]) != KeyOf(ret[b])
    requires DerivedFrom(input, o) && KeyOf(o) !in KeysOf(ret)
    requires multiset(c2[i + 1..]) == multiset(Unclaimed(input, KeysOf(ret) + {KeyOf(o)}))
    ensures ScanInv(input, c2, i + 1, ret + [o])
  {
    KeysOfAppend(ret, o);
    DerivedAppend(input, ret, o);
    DistinctAppend(ret, o);
  }

  lemma DerivedAppend(input: seq<RecurringSchedule>, ret: seq<RecurringSchedule>, o: RecurringSchedule)
    requires forall a :: 0 <= a < |ret| ==> DerivedFrom(input, ret[a])
    requires DerivedFrom(input, o)
    ensures forall a :: 0 <= a < |ret + [o]| ==> DerivedFrom(input, (ret + [o])[a])
  {
    var ret2 := ret + [o];
    forall a | 0 <= a < |ret2|
      ensures DerivedFrom(input, ret2[a])
    {
      if a < |ret| { assert ret2[a] == ret[a]; }
    }
  }

  lemma DistinctAppend(ret: seq<RecurringSchedule>, o: RecurringSchedule)
    requires forall a, b :: 0 <= a < b < |ret| ==> KeyOf(ret[a]) != KeyOf(ret[b])
    requires KeyOf(o) !in KeysOf(ret)
    ensures forall a, b :: 0 <= a < b < |ret + [o]| ==> KeyOf((ret + [o])[a]) != KeyOf((ret + [o])[b])
  {
    var ret2 := ret + [o];
    forall a, b | 0 <= a < b < |ret2|
      ensures KeyOf(ret2[a]) != KeyOf(ret2[b])
    {
      assert ret2[a] == ret[a];
      if b == |ret| {
        assert ret[a] in ret;
      } else {
        assert ret2[b] == ret[b];
      }
    }
  }

  lemma {:induction false} ScanStep(input: seq<RecurringSchedule>, c: seq<RecurringSchedule>, i: nat, ret: seq<RecurringSchedule>)
    requires ScanInv(input, c, i, ret) && i < |c|
    ensures var m := Merge(c, c[i], i + 1);
      ScanInv(input, m.0, i + 1, ret + [SortDays(m.1)])
  {
    var m := Merge(c, c[i], i + 1);
    MergeRest(c, c[i], i + 1);
    MergeDays(c, c[i], i + 1);
    NewOutput(input, c, i, KeysOf(ret), m.1);
    RestUnclaimed(input, c, i, KeysOf(ret), m.0[i + 1..]);
    ExtendInv(input, m.0, i, ret, SortDays(m.1));
  }

  lemma {:induction false} ScanResult(input: seq<RecurringSchedule>, c: seq<RecurringSchedule>, i: nat, ret: seq<RecurringSchedule>)
    requires ScanInv(input, c, i, ret)
    ensures var out := Scan(c, i, ret);
      && |out| <= |input|
      && (forall a :: 0 <= a < |out| ==> DerivedFrom(input, out[a]))
      && (forall a, b :: 0 <= a < b < |out| ==> KeyOf(out[a]) != KeyOf(out[b]))
      && KeysOf(input) <= KeysOf(out)
    decreases |c| - i
  {
    if i == |c| {
      forall r | r in input
        ensures KeyOf(r) in KeysOf(ret)
      {
        UnclaimedCount(input, KeysOf(ret), r);
        assert c[i..] == [];
      }
    } else {
      ScanStep(input, c, i, ret);
      var m := Merge(c, c[i], i + 1);
      ScanResult(input, m.0, i + 1, ret + [SortDays(m.1)]);
    }
  }

  // ----- what condensing promises -----

  /**
   * The condensed list is no longer than the input, has no two windows with
   * the same (start, end, min, max), has a window for every key of the input
   * and no other, and each window's days are the ascending sort of the
   * concatenated days of all input windows with its key. Its other fields
   * are those of one of these windows: the initial count is not compared.
   */
  lemma CondensedSpec(input: seq<RecurringSchedule>)
    ensures var out := Condensed(input);
      && |out| <= |input|
      && (forall a, b :: 0 <= a < b < |out| ==> KeyOf(out[a]) != KeyOf(out[b]))
      && KeysOf(out) == KeysOf(input)
      && (forall a :: 0 <= a < |out| ==> out[a].daysOfWeek == SortInts(Days(Matching(input, KeyOf(out[a])))))
      && (forall a :: 0 <= a < |out| ==> exists m :: 0 <= m < |input| && SameButDays(out[a], input[m]))
  {
    ScanStart(input);
    ScanResult(input, input, 0, []);
    DerivedKeys(input, Condensed(input));
  }

  /** Before the first outer iteration the invariant holds on the whole input. */
  lemma ScanStart(input: seq<RecurringSchedule>)
    ensures ScanInv(input, input, 0, [])
  {
    assert input[0..] == input;
    forall x ensures multiset(Unclaimed(input, {}))[x] == multiset(input)[x] {
      UnclaimedCount(input, {}, x);
    }
    assert KeysOf([]) == {};
  }

  /** Windows derived from the input only use keys of the input. */
  lemma DerivedKeys(input: seq<RecurringSchedule>, out: seq<RecurringSchedule>)
    requires forall a :: 0 <= a < |out| ==> DerivedFrom(input, out[a])
    ensures KeysOf(out) <= KeysOf(input)
  {
    forall r | r in out
      ensures KeyOf(r) in KeysOf(input)
    {
      var a :| 0 <= a < |out| && out[a] == r;
      DerivedKey(input, r);
    }
  }

  /** A derived window's key is a key of the input. */
  lemma DerivedKey(input: seq<RecurringSchedule>, o: RecurringSchedule)
    requires DerivedFrom(input, o)
    ensures KeyOf(o) in KeysOf(input)
  {
    var m :| 0 <= m < |input| && SameButDays(o, input[m]);
    assert KeyOf(o) == KeyOf(input[m]);
  }

  /** Condensing an already condensed list changes nothing. */
  lemma CondensedIdempotent(s: seq<RecurringSchedule>)
    ensures Condensed(Condensed(s)) == Condensed(s)
  {
    var out := Condensed(s);
    CondensedSpec(s);
    forall a | 0 <= a < |out| ensures Ascending(out[a].daysOfWeek) {
    }
    CondensedFixed(out);
  }

  /** A list with distinct keys and ascending day lists is its own condensation. */
  lemma CondensedFixed(x: seq<RecurringSchedule>)
    requires forall a, b :: 0 <= a < b < |x| ==> KeyOf(x[a]) != KeyOf(x[b])
    requires forall a :: 0 <= a < |x| ==> Ascending(x[a].daysOfWeek)
    ensures Condensed(x) == x
  {
    ScanFixed(x, 0, []);
    assert x[0..] == x;
  }

  lemma {:induction false} ScanFixed(c: seq<RecurringSchedule>, i: nat, ret: seq<RecurringSchedule>)
    requires i <= |c|
    requires forall a, b :: 0 <= a < b < |c| ==> KeyOf(c[a]) != KeyOf(c[b])
    requires forall a :: 0 <= a < |c| ==> Ascending(c[a].daysOfWeek)
    ensures Scan(c, i, ret) == ret + c[i..]
    decreases |c| - i
  {
    if i == |c| {
      assert c[i..] == [];
      assert ret + [] == ret;
    } else {
      MergeNone(c, c[i], i + 1);
      ScanTo(c, i, ret, c, c[i]);
      SortIntsAscending(c[i].daysOfWeek);
      assert SortDays(c[i]) == c[i];
      ScanFixed(c, i + 1, ret + [c[i]]);
      SliceSnoc(ret, c, i);
    }
  }

  /** The inner loop changes nothing when no later window has t's key. */
  lemma {:induction false} MergeNone(c: seq<RecurringSchedule>, t: RecurringSchedule, j: nat)
    requires j <= |c|
    requires forall k :: j <= k < |c| ==> KeyOf(c[k]) != KeyOf(t)
    ensures Merge(c, t, j) == (c, t)
    decreases |c| - j
  {
    if j < |c| {
      MergeNone(c, t, j + 1);
    }
  }

  lemma SliceSnoc<T>(ret: seq<T>, c: seq<T>, i: nat)
    requires i < |c|
    ensures ret + [c[i]] + c[i + 1..] == ret + c[i..]
  {
    assert c[i..] == [c[i]] + c[i + 1..];
  }

  /**
   * What does not depend on the input order: permuted inputs give the same
   * set of keys, and windows with the same key get the same day list.
   */
  lemma CondensedPermutation(s1: seq<RecurringSchedule>, s2: seq<RecurringSchedule>)
    requires multiset(s1) == multiset(s2)
    ensures KeysOf(Condensed(s1)) == KeysOf(Condensed(s2))
    ensures forall a, b ::
      (0 <= a < |Condensed(s1)| && 0 <= b < |Condensed(s2)| && KeyOf(Condensed(s1)[a]) == KeyOf(Condensed(s2)[b])) ==>
      Condensed(s1)[a].daysOfWeek == Condensed(s2)[b].daysOfWeek
  {
    CondensedSpec(s1);
    CondensedSpec(s2);
    SameKeys(s1, s2);
    forall k ensures SortInts(Days(Matching(s1, k))) == SortInts(Days(Matching(s2, k))) {
      SameDays(s1, s2, k);
    }
  }

  lemma SameKeys(s1: seq<RecurringSchedule>, s2: seq<RecurringSchedule>)
    requires multiset(s1) == multiset(s2)
    ensures KeysOf(s1) == KeysOf(s2)
  {
    forall r ensures r in s1 <==> r in s2 {
      assert r in s1 <==> r in multiset(s1);
      assert r in s2 <==> r in multiset(s2);
    }
  }

  lemma SameDays(s1: seq<RecurringSchedule>, s2: seq<RecurringSchedule>, k: WindowKey)
    requires multiset(s1) == multiset(s2)
    ensures SortInts(Days(Matching(s1, k))) == SortInts(Days(Matching(s2, k)))
  {
    MatchingPermutation(s1, s2, k);
    DaysPermutation(Matching(s1, k), Matching(s2, k));
    SortIntsPermutation(Days(Matching(s1, k)), Days(Matching(s2, k)));
  }

  /**
   * The caller's array is not reordered or shortened: all swapping and
   * shrinking happens on the clone. The first ensures holds because
   * CondenseRecurringSchedules has no modifies clause; this method states
   * that frame as an explicit fact about the array's contents.
   */
  method CondenseKeepsInput(input: array<RecurringSchedule>) returns (ret: seq<RecurringSchedule>)
    ensures input[..] == old(input[..])
    ensures ret == Condensed(input[..])
  {
    ret := CondenseRecurringSchedules(input);
  }

  // ----- particular inputs -----

  /**
   * Two windows with the same key merge even when their initial counts
   * differ; the first one's initial count is kept and a day that occurs in
   * both is kept twice.
   */
  lemma InitialCountIgnored(a: RecurringSchedule, b: RecurringSchedule)
    requires KeyOf(a) == KeyOf(b)
    ensures Condensed([a, b]) == [a.(daysOfWeek := SortInts(a.daysOfWeek + b.daysOfWeek))]
  {
    var a2 := a.(daysOfWeek := a.daysOfWeek + b.daysOfWeek);
    assert Shrink([a, b], 1) == [a];
    MergeUnfold([a, b], a, 1);
    assert Merge([a], a2, 1) == ([a], a2);
    ScanUnfold([a, b], 0, []);
    assert Scan([a], 1, [SortDays(a2)]) == [SortDays(a2)];
  }

  /**
   * The swap-and-shrink order: with windows a, x, k1, k2 where x merges into
   * a and k2 merges with k1, x is swapped with k2, so k2 is scanned before k1
   * and the second output window has k2's fields, initial count included.
   */
  lemma SwapChangesRepresentative(a: RecurringSchedule, x: RecurringSchedule, k1: RecurringSchedule, k2: RecurringSchedule)
    requires KeyOf(a) == KeyOf(x) && KeyOf(k1) == KeyOf(k2) && KeyOf(a) != KeyOf(k1)
    ensures Condensed([a, x, k1, k2]) ==
      [a.(daysOfWeek := SortInts(a.daysOfWeek + x.daysOfWeek)),
       k2.(daysOfWeek := SortInts(k2.daysOfWeek + k1.daysOfWeek))]
  {
    var a2 := a.(daysOfWeek := a.daysOfWeek + x.daysOfWeek);
    var k22 := k2.(daysOfWeek := k2.daysOfWeek + k1.daysOfWeek);
    ScanFirst(a, x, k1, k2);
    ScanSecond(a, k1, k2, [SortDays(a2)]);
    assert [SortDays(a2)] + [SortDays(k22)] == [SortDays(a2), SortDays(k22)];
  }

  /** The outer loop's first step on [a, x, k1, k2]. */
  lemma ScanFirst(a: RecurringSchedule, x: RecurringSchedule, k1: RecurringSchedule, k2: RecurringSchedule)
    requires KeyOf(a) == KeyOf(x) && KeyOf(k1) == KeyOf(k2) && KeyOf(a) != KeyOf(k1)
    ensures Condensed([a, x, k1, k2]) == Scan([a, k2, k1], 1, [SortDays(a.(daysOfWeek := a.daysOfWeek + x.daysOfWeek))])
  {
    var c0 := [a, x, k1, k2];
    FirstPass(a, x, k1, k2);
    assert c0[0] == a;
    ScanTo(c0, 0, [], [a, k2, k1], a.(daysOfWeek := a.daysOfWeek + x.daysOfWeek));
    assert [] + [SortDays(a.(daysOfWeek := a.daysOfWeek + x.daysOfWeek))] == [SortDays(a.(daysOfWeek := a.daysOfWeek + x.daysOfWeek))];
  }

  /** The outer loop's remaining steps on [a, k2, k1]: k1 goes into k2 and the scan ends. */
  lemma ScanSecond(a: RecurringSchedule, k1: RecurringSchedule, k2: RecurringSchedule, r1: seq<RecurringSchedule>)
    requires KeyOf(k1) == KeyOf(k2)
    ensures Scan([a, k2, k1], 1, r1) == r1 + [SortDays(k2.(daysOfWeek := k2.daysOfWeek + k1.daysOfWeek))]
  {
    var c1 := [a, k2, k1];
    var k22 := k2.(daysOfWeek := k2.daysOfWeek + k1.daysOfWeek);
    SecondPass(a, k1, k2);
    assert c1[1] == k2;
    ScanTo(c1, 1, r1, [a, k2], k22);
    assert Scan([a, k2], 2, r1 + [SortDays(k22)]) == r1 + [SortDays(k22)];
  }

  /** Scanning from a: x is swapped with k2 and dropped. */
  lemma FirstPass(a: RecurringSchedule, x: RecurringSchedule, k1: RecurringSchedule, k2: RecurringSchedule)
    requires KeyOf(a) == KeyOf(x) && KeyOf(k1) == KeyOf(k2) && KeyOf(a) != KeyOf(k1)
    ensures Merge([a, x, k1, k2], a, 1) == ([a, k2, k1], a.(daysOfWeek := a.daysOfWeek + x.daysOfWeek))
  {
    var a2 := a.(daysOfWeek := a.daysOfWeek + x.daysOfWeek);
    var c := [a, k2, k1];
    assert Shrink([a, x, k1, k2], 1) == c;
    MergeUnfold([a, x, k1, k2], a, 1);
    MergeUnfold(c, a2, 1);
    MergeUnfold(c, a2, 2);
    assert Merge(c, a2, 3) == (c, a2);
  }

  /** Scanning from k2: k1, now last, is merged into it. */
  lemma SecondPass(a: RecurringSchedule, k1: RecurringSchedule, k2: RecurringSchedule)
    requires KeyOf(k1) == KeyOf(k2)
    ensures Merge([a, k2, k1], k2, 2) == ([a, k2], k2.(daysOfWeek := k2.daysOfWeek + k1.daysOfWeek))
  {
    var k22 := k2.(daysOfWeek := k2.daysOfWeek + k1.daysOfWeek);
    assert Shrink([a, k2, k1], 2) == [a, k2];
    MergeUnfold([a, k2, k1], k2, 2);
    assert Merge([a, k2], k22, 2) == ([a, k2], k22);
  }
}
