/**
 * The selection logic of src/components/ScreenTimeResults.tsx: which
 * categories are shown, the percentage each row displays, and the ranked top
 * five apps after `data.apps` is sorted in place by time spent.
 */
module ScreenTimeResults {
  import opened ScreenTimeTypes

  /** `totalMinutes > 0 ? (minutes / totalMinutes) * 100 : 0`, in exact arithmetic. */
  function Percentage(minutes: int, totalMinutes: int): (p: real)
    ensures totalMinutes <= 0 ==> p == 0.0
    ensures totalMinutes > 0 ==> p * (totalMinutes as real) == (minutes as real) * 100.0
    ensures totalMinutes > 0 && 0 <= minutes <= totalMinutes ==> 0.0 <= p <= 100.0
  {
    if totalMinutes > 0 then
      var t := totalMinutes as real;
      var p := (minutes as real / t) * 100.0;
      assert p * t == (minutes as real / t * t) * 100.0;
      p
    else 0.0
  }

  /** One rendered row of the category breakdown. */
  datatype CategoryRow = CategoryRow(category: string, minutes: int, percentage: real)

  /**
   * The positions from `from` on whose entries have non-zero minutes, in
   * increasing order: every such position once, and no other.
   */
  ghost function NonZeroIndices(entries: seq<(string, int)>, from: nat): (idx: seq<nat>)
    requires from <= |entries|
    ensures forall k :: 0 <= k < |idx| ==> from <= idx[k] < |entries| && entries[idx[k]].1 != 0
    ensures forall k, l :: 0 <= k < l < |idx| ==> idx[k] < idx[l]
    ensures forall i :: from <= i < |entries| && entries[i].1 != 0 ==> i in idx
    decreases |entries| - from
  {
    if from == |entries| then []
    else
      var rest := NonZeroIndices(entries, from + 1);
      if entries[from].1 == 0 then rest
      else
        assert forall k :: 0 < k <= |rest| ==> ([from] + rest)[k] == rest[k - 1];
        [from] + rest
  }

  /** The row an entry renders as. */
  function RowOf(e: (string, int), totalMinutes: int): CategoryRow
  {
    CategoryRow(e.0, e.1, Percentage(e.1, totalMinutes))
  }

  /**
   * `if (minutes === 0) return null` over the entries from `from` on: the
   * rows are the non-zero entries, in the order the entries list them.
   */
  function RowsFrom(entries: seq<(string, int)>, from: nat, totalMinutes: int): (rows: seq<CategoryRow>)
    requires from <= |entries|
    ensures |rows| == |NonZeroIndices(entries, from)|
    ensures forall k :: 0 <= k < |rows| ==> rows[k] == RowOf(entries[NonZeroIndices(entries, from)[k]], totalMinutes)
    decreases |entries| - from
  {
    if from == |entries| then []
    else
      var rest := RowsFrom(entries, from + 1, totalMinutes);
      if entries[from].1 == 0 then rest
      else [RowOf(entries[from], totalMinutes)] + rest
  }

  /** The category rows that render, all entries considered. */
  function NonZeroRows(entries: seq<(string, int)>, totalMinutes: int): (rows: seq<CategoryRow>)
    ensures |rows| == |NonZeroIndices(entries, 0)| <= |entries|
    ensures forall k :: 0 <= k < |rows| ==> rows[k] == RowOf(entries[NonZeroIndices(entries, 0)[k]], totalMinutes)
    ensures forall r :: r in rows ==>
              r.minutes != 0 && (r.category, r.minutes) in entries && r.percentage == Percentage(r.minutes, totalMinutes)
    ensures forall e :: e in entries && e.1 != 0 ==> RowOf(e, totalMinutes) in rows
  {
    var rows := RowsFrom(entries, 0, totalMinutes);
    var idx := NonZeroIndices(entries, 0);
    IndicesBounded(idx, |entries|);
    forall e | e in entries && e.1 != 0
      ensures RowOf(e, totalMinutes) in rows
    {
      var i :| 0 <= i < |entries| && entries[i] == e;
      var k :| 0 <= k < |idx| && idx[k] == i;
      assert rows[k] == RowOf(e, totalMinutes);
    }
    rows
  }

  /** An increasing sequence of positions below `n` has at most `n` elements. */
  lemma {:induction false} IndicesBounded(idx: seq<nat>, n: nat)
    requires forall k :: 0 <= k < |idx| ==> idx[k] < n
    requires forall k, l :: 0 <= k < l < |idx| ==> idx[k] < idx[l]
    ensures |idx| <= n
    decreases n
  {
    if idx != [] {
      var last := idx[|idx| - 1];
      var init := idx[..|idx| - 1];
      assert forall k :: 0 <= k < |init| ==> init[k] < last;
      IndicesBounded(init, last);
    }
  }

  /** The "Time by Category" rows, in `Object.entries` order. */
  function VisibleCategories(data: ScreenTimeData): seq<CategoryRow>
  {
    NonZeroRows(Entries(data.categoryBreakdown), data.totalScreenTime)
  }

  /** The five names differ from one another. */
  lemma CategoryNamesDistinct(k: nat, l: nat)
    requires k < 5 && l < 5 && k != l
    ensures CategoryNames[k] != CategoryNames[l]
  {
    assert CategoryNames[k][0] != CategoryNames[l][0];
  }

  /** A category is shown iff its minutes are not zero. */
  lemma VisibleCategoriesIff(data: ScreenTimeData, i: nat)
    requires i < 5
    ensures var e := Entries(data.categoryBreakdown)[i];
            (exists r :: r in VisibleCategories(data) && r.category == e.0) <==> e.1 != 0
  {
    var es := Entries(data.categoryBreakdown);
    var rows := VisibleCategories(data);
    var idx := NonZeroIndices(es, 0);
    var e := es[i];
    if e.1 != 0 {
      var k :| 0 <= k < |idx| && idx[k] == i;
      assert rows[k] == RowOf(e, data.totalScreenTime);
    } else {
      forall r | r in rows ensures r.category != e.0 {
        var k :| 0 <= k < |rows| && rows[k] == r;
        assert idx[k] != i;
        assert r.category == CategoryNames[idx[k]];
        CategoryNamesDistinct(idx[k], i);
      }
    }
  }

  ghost predicate SortedByTimeSpent(s: seq<AppUsage>)
  {
    forall i, j :: 0 <= i < j < |s| ==> s[j].timeSpent <= s[i].timeSpent
  }

  method Swap(a: array<AppUsage>, i: nat, j: nat)
    requires i < a.Length && j < a.Length
    modifies a
    ensures a[..] == old(a[..])[i := old(a[j])][j := old(a[i])]
    ensures multiset(a[..]) == old(multiset(a[..]))
  {
    a[i], a[j] := a[j], a[i];
  }

  /**
   * `data.apps.sort((a, b) => b.timeSpent - a.timeSpent)`, in place: the apps
   * end in non-increasing `timeSpent` order and are a permutation of what was
   * there. (Insertion sort, which like the engine's sort is stable.)
   */
  method SortByTimeSpent(a: array<AppUsage>)
    modifies a
    ensures SortedByTimeSpent(a[..])
    ensures multiset(a[..]) == old(multiset(a[..]))
  {
    var i := 0;
    while i < a.Length
      invariant 0 <= i <= a.Length
      invariant SortedByTimeSpent(a[..i])
      invariant multiset(a[..]) == old(multiset(a[..]))
    {
      var j := i;
      while j > 0 && a[j - 1].timeSpent < a[j].timeSpent
        invariant 0 <= j <= i
        invariant forall p, q :: 0 <= p < q <= i && p != j && q != j ==> a[q].timeSpent <= a[p].timeSpent
        invariant forall q :: j < q <= i ==> a[q].timeSpent <= a[j].timeSpent
        invariant multiset(a[..]) == old(multiset(a[..]))
      {
        Swap(a, j - 1, j);
        j := j - 1;
      }
      i := i + 1;
    }
  }

  /** One row of "Most Used Apps": its 1-based rank, the app and its percentage. */
  datatype AppRow = AppRow(rank: nat, app: AppUsage, percentage: real)

  function Min(a: int, b: int): int { if a < b then a else b }

  /** `.slice(0, 5).map((app, index) => …index + 1…)` over the sorted apps. */
  function TopApps(sorted: seq<AppUsage>, totalMinutes: int): (rows: seq<AppRow>)
    ensures |rows| == Min(5, |sorted|) <= 5
    ensures forall i :: 0 <= i < |rows| ==>
              rows[i] == AppRow(i + 1, sorted[i], Percentage(sorted[i].timeSpent, totalMinutes))
  {
    var shown := sorted[..Min(5, |sorted|)];
    seq(|shown|, i requires 0 <= i < |shown| => AppRow(i + 1, shown[i], Percentage(shown[i].timeSpent, totalMinutes)))
  }

  /**
   * What the top-apps list shows once the apps are sorted: min(5, |apps|) rows
   * ranked 1..k, each the app at that position, in non-increasing order, and
   * no app left out has more time than an app shown.
   */
  lemma TopAppsShowsLargest(sorted: seq<AppUsage>, totalMinutes: int)
    requires SortedByTimeSpent(sorted)
    ensures var rows := TopApps(sorted, totalMinutes);
            && |rows| == Min(5, |sorted|)
            && (forall i :: 0 <= i < |rows| ==> rows[i].rank == i + 1 && rows[i].app == sorted[i])
            && (forall i, j :: 0 <= i < j < |rows| ==> rows[j].app.timeSpent <= rows[i].app.timeSpent)
            && (forall i, j :: 0 <= i < |rows| <= j < |sorted| ==> sorted[j].timeSpent <= rows[i].app.timeSpent)
  {
  }

  /**
   * The "Most Used Apps" card: sorts `apps` in place (so the caller's array
   * is reordered too) and returns the ranked rows of the first five.
   */
  method RenderTopApps(apps: array<AppUsage>, totalMinutes: int) returns (rows: seq<AppRow>)
    modifies apps
    ensures SortedByTimeSpent(apps[..]) && multiset(apps[..]) == old(multiset(apps[..]))
    ensures rows == TopApps(apps[..], totalMinutes)
    ensures |rows| == Min(5, apps.Length)
    ensures forall i :: 0 <= i < |rows| ==> rows[i].rank == i + 1 && rows[i].app == apps[i]
    ensures forall r, x :: r in rows && x in multiset(old(apps[..])) - multiset(apps[..|rows|]) ==>
              x.timeSpent <= r.app.timeSpent
  {
    SortByTimeSpent(apps);
    rows := TopApps(apps[..], totalMinutes);
    TopAppsShowsLargest(apps[..], totalMinutes);
    ghost var s := apps[..];
    assert s == s[..|rows|] + s[|rows|..];
    assert multiset(s) == multiset(s[..|rows|]) + multiset(s[|rows|..]);
    forall r, x | r in rows && x in multiset(old(apps[..])) - multiset(apps[..|rows|])
      ensures x.timeSpent <= r.app.timeSpent
    {
      assert x in multiset(s[|rows|..]);
      assert x in s[|rows|..];
      var j :| |rows| <= j < |s| && s[j] == x;
      var i :| 0 <= i < |rows| && rows[i] == r;
    }
  }
}
