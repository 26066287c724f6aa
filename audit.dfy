/**
 The auditor script: it reads the change history the mutator left in the
 payloads and reports on it. Modelled here: the synonym diff (added and
 removed synonyms), the latest update time of a point, the list of updated
 points sorted by that time, the points whose synonyms were ever changed, and
 the per-field and per-reason counters. The scroll result is an input.
 */
module Audit {
  import opened Payloads
  import opened Strings
  import UpdateDemo

  const TitleKey: string := "title"
  const NotAvailable: string := "N/A"
  /** What a missing `field` or `reason` is counted under. */
  const Unknown: string := "unknown"

  /** A point as the scroll returns it: its id and its payload. */
  datatype ScrolledPoint = ScrolledPoint(id: int, payload: Payload)

  // ---------------------------------------------------------------------------
  // Synonym diff
  // ---------------------------------------------------------------------------

  /** `set(xs)`. */
  function Elems(xs: seq<string>): set<string> {
    set x | x in xs
  }

  /** What a comparison reports: the synonyms that appeared and those that disappeared. */
  datatype Diff = Diff(added: set<string>, removed: set<string>)

  /** `added = set(new) - set(old)`, `removed = set(old) - set(new)`. */
  function SynonymDiff(before: set<string>, after: set<string>): Diff {
    Diff(after - before, before - after)
  }

  /**
   Added synonyms are new ones and removed synonyms old ones; no synonym is
   both kept and reported; applying the diff to the old set gives the new set
   and reverting it gives the old set back.
   */
  lemma SynonymDiffLaws(before: set<string>, after: set<string>)
    ensures var d := SynonymDiff(before, after);
      && d.added !! before && d.removed !! after
      && d.added <= after && d.removed <= before
      && d.added !! d.removed
      && (before - d.removed) + d.added == after
      && (after - d.added) + d.removed == before
  {
  }

  /** Nothing changed exactly when the diff is empty. */
  lemma SynonymDiffEmpty(before: set<string>, after: set<string>)
    ensures SynonymDiff(before, after) == Diff({}, {}) <==> before == after
  {
    if SynonymDiff(before, after) == Diff({}, {}) {
      assert forall x :: x in before ==> x in after;
      assert forall x :: x in after ==> x in before;
    }
  }

  /** Comparing in the other direction swaps what was added and what was removed. */
  lemma SynonymDiffSwap(before: set<string>, after: set<string>)
    ensures SynonymDiff(after, before) == Diff(SynonymDiff(before, after).removed, SynonymDiff(before, after).added)
  {
  }

  /** The employee-number term of the demo: two synonyms dropped and five made up. */
  lemma SynonymDiffExample()
    ensures SynonymDiff({"사번", "직원ID", "employee id", "uid"},
                        {"사번", "직원ID", "우주의 고유번호", "외계인 식별자", "마법의 숫자", "시간 여행 티켓", "코스모스 ID"})
         == Diff({"우주의 고유번호", "외계인 식별자", "마법의 숫자", "시간 여행 티켓", "코스모스 ID"}, {"employee id", "uid"})
  {
  }

  /** `set(v)` for a value whose members are strings: a list's elements or a string's characters. */
  function Members(v: Value): Option<set<string>> {
    match v
    case StrList(xs) => Some(Elems(xs))
    case Str(s) => Some(set i | 0 <= i < |s| :: [s[i]])
    case _ => None
  }

  /**
   The diff shown for one history entry: only when both values are truthy
   and the old one is a list. A new value that is neither a list nor a
   string gives no diff.
   */
  function EntryDiff(e: Entry): Option<Diff> {
    if e.oldValue.Some? && e.newValue.Some? && Truthy(e.oldValue.value) && Truthy(e.newValue.value)
       && e.oldValue.value.StrList?
    then
      match Members(e.newValue.value)
      case Some(after) => Some(SynonymDiff(Elems(e.oldValue.value.items), after))
      case None => None
    else None
  }

  /** An entry of the synonym batch shows the diff of the old and new synonym lists, when neither is empty. */
  lemma EntryDiffOfSynonymEntry(e: Entry, u: UpdateDemo.SynonymUpdate, before: seq<string>)
    requires UpdateDemo.SynonymEntry(e, u, StrList(before))
    requires before != [] && u.newSynonyms != []
    ensures EntryDiff(e) == Some(SynonymDiff(Elems(before), Elems(u.newSynonyms)))
  {
  }

  // ---------------------------------------------------------------------------
  // The last synonyms entry and the before/after comparison
  // ---------------------------------------------------------------------------

  /** `[h for h in history if h.get("field") == f]`. */
  function WithField(es: seq<Entry>, f: string): (r: seq<Entry>)
    ensures forall e :: e in r ==> e in es && e.field == Some(f)
    ensures forall e :: e in es && e.field == Some(f) ==> e in r
    decreases |es|
  {
    if es == [] then []
    else
      var n := |es| - 1;
      var rest := WithField(es[..n], f);
      assert forall e :: e in es ==> e in es[..n] || e == es[n];
      if es[n].field == Some(f) then rest + [es[n]] else rest
  }

  /** `synonyms_history[-1]` when there is one. */
  function LatestSynonymsEntry(es: seq<Entry>): Option<Entry> {
    var s := WithField(es, UpdateDemo.SynonymsKey);
    if s == [] then None else Some(s[|s| - 1])
  }

  /**
   The comparison uses the last entry of the history whose field is
   `synonyms`; there is none exactly when no entry changed the synonyms.
   */
  lemma {:induction false} LatestSynonymsEntryIsLast(es: seq<Entry>, i: int)
    requires 0 <= i < |es| && es[i].field == Some(UpdateDemo.SynonymsKey)
    requires forall j :: i < j < |es| ==> es[j].field != Some(UpdateDemo.SynonymsKey)
    ensures LatestSynonymsEntry(es) == Some(es[i])
    decreases |es|
  {
    var n := |es| - 1;
    if i < n {
      LatestSynonymsEntryIsLast(es[..n], i);
    }
  }

  lemma LatestSynonymsEntryNone(es: seq<Entry>)
    ensures LatestSynonymsEntry(es).None? <==> forall j :: 0 <= j < |es| ==> es[j].field != Some(UpdateDemo.SynonymsKey)
  {
    var s := WithField(es, UpdateDemo.SynonymsKey);
    if LatestSynonymsEntry(es).None? {
      forall j | 0 <= j < |es| ensures es[j].field != Some(UpdateDemo.SynonymsKey) {
        assert es[j] in es;
      }
    } else {
      var e := s[|s| - 1];
      assert e in s;
      var j :| 0 <= j < |es| && es[j] == e;
      assert es[j].field == Some(UpdateDemo.SynonymsKey);
    }
  }

  /** What the before/after section reports for a point's payload. */
  datatype Comparison = NoHistory | NoSynonymsEntry | Compared(diff: Diff) | NotComparable

  /**
   Take the last synonyms entry, read its old and new values with `[]` as the
   default, and diff them as sets.
   */
  function CompareLatestSynonyms(p: Payload): Comparison {
    if p == map[] || HistoryOf(p) == [] then NoHistory
    else match LatestSynonymsEntry(HistoryOf(p))
      case None => NoSynonymsEntry
      case Some(e) =>
        match (Members(e.oldValue.GetOr(StrList([]))), Members(e.newValue.GetOr(StrList([]))))
        case (Some(before), Some(after)) => Compared(SynonymDiff(before, after))
        case _ => NotComparable
  }

  /** When the last synonyms change of a history is one the batch wrote, the comparison shows its diff. */
  lemma CompareAfterSynonymBatch(p: Payload, i: int, u: UpdateDemo.SynonymUpdate, before: seq<string>)
    requires 0 <= i < |HistoryOf(p)|
    requires UpdateDemo.SynonymEntry(HistoryOf(p)[i], u, StrList(before))
    requires forall j :: i < j < |HistoryOf(p)| ==> HistoryOf(p)[j].field != Some(UpdateDemo.SynonymsKey)
    ensures CompareLatestSynonyms(p) == Compared(SynonymDiff(Elems(before), Elems(u.newSynonyms)))
  {
    LatestSynonymsEntryIsLast(HistoryOf(p), i);
  }

  // ---------------------------------------------------------------------------
  // Latest update time
  // ---------------------------------------------------------------------------

  /** `[h.get("timestamp", "") for h in history if h.get("timestamp")]`. */
  function Stamps(es: seq<Entry>): (r: seq<string>)
    ensures forall t :: t in r ==> t != []
    decreases |es|
  {
    if es == [] then []
    else
      var n := |es| - 1;
      match es[n].timestamp
      case Some(t) => if t != [] then Stamps(es[..n]) + [t] else Stamps(es[..n])
      case None => Stamps(es[..n])
  }

  lemma {:induction false} StampsAreTimestamps(es: seq<Entry>)
    ensures forall t :: t in Stamps(es) <==> exists j :: 0 <= j < |es| && es[j].timestamp == Some(t) && t != []
    decreases |es|
  {
    if es != [] {
      var n := |es| - 1;
      StampsAreTimestamps(es[..n]);
      forall t | (exists j :: 0 <= j < |es| && es[j].timestamp == Some(t) && t != []) ensures t in Stamps(es) {
        var j :| 0 <= j < |es| && es[j].timestamp == Some(t) && t != [];
        if j < n {
          assert es[..n][j] == es[j];
        }
      }
      forall t | t in Stamps(es) ensures exists j :: 0 <= j < |es| && es[j].timestamp == Some(t) && t != [] {
        if t in Stamps(es[..n]) {
          var j :| 0 <= j < n && es[..n][j].timestamp == Some(t) && t != [];
          assert es[j] == es[..n][j];
        } else {
          assert es[n].timestamp == Some(t);
        }
      }
    }
  }

  /** `max(xs)` on strings: the first element, replaced by each later one that is strictly greater. */
  function MaxString(xs: seq<string>): string
    requires xs != []
    decreases |xs|
  {
    if |xs| == 1 then xs[0]
    else
      var m := MaxString(xs[..|xs| - 1]);
      var x := xs[|xs| - 1];
      if LexLt(m, x) then x else m
  }

  /** `max` returns one of the strings, and none of them is greater. */
  lemma {:induction false} MaxStringIsMaximum(xs: seq<string>)
    requires xs != []
    ensures MaxString(xs) in xs
    ensures forall x :: x in xs ==> LexLe(x, MaxString(xs))
    decreases |xs|
  {
    var n := |xs| - 1;
    if n == 0 {
      LexLeRefl(xs[0]);
    } else {
      var m := MaxString(xs[..n]);
      var x := xs[n];
      MaxStringIsMaximum(xs[..n]);
      assert forall y :: y in xs ==> y in xs[..n] || y == x;
      if LexLt(m, x) {
        LexLeRefl(x);
        forall y | y in xs[..n] ensures LexLe(y, x) {
          LexLeTransitive(y, m, x);
        }
      } else {
        NotLtIsGe(x, m);
      }
    }
  }

  /** `max(stamps, default="")`. */
  function LatestTimestamp(es: seq<Entry>): string {
    var stamps := Stamps(es);
    if stamps == [] then "" else MaxString(stamps)
  }

  /**
   The latest update time is empty exactly when no entry carries a non-empty
   timestamp; otherwise it is the timestamp of some entry, and no entry's
   timestamp is later.
   */
  lemma LatestTimestampIsLatest(es: seq<Entry>)
    ensures LatestTimestamp(es) == [] <==> forall j :: 0 <= j < |es| ==> es[j].timestamp.None? || es[j].timestamp == Some([])
    ensures LatestTimestamp(es) != [] ==> exists j :: 0 <= j < |es| && es[j].timestamp == Some(LatestTimestamp(es))
    ensures forall j :: 0 <= j < |es| && es[j].timestamp.Some? ==> LexLe(es[j].timestamp.value, LatestTimestamp(es))
  {
    var stamps := Stamps(es);
    StampsAreTimestamps(es);
    if stamps == [] {
      forall j | 0 <= j < |es| && es[j].timestamp.Some?
        ensures es[j].timestamp == Some([]) && LexLe(es[j].timestamp.value, LatestTimestamp(es))
      {
        var t := es[j].timestamp.value;
        assert !(t in stamps);
      }
    } else {
      MaxStringIsMaximum(stamps);
      var t0 := stamps[0];
      assert t0 in stamps;
      forall j | 0 <= j < |es| && es[j].timestamp.Some?
        ensures LexLe(es[j].timestamp.value, LatestTimestamp(es))
      {
        var t := es[j].timestamp.value;
        if t != [] {
          assert t in stamps;
        }
      }
    }
  }

  // ---------------------------------------------------------------------------
  // Updated points, newest first
  // ---------------------------------------------------------------------------

  /** What the report lists for an updated point. */
  datatype Summary = Summary(id: int, title: Value, latestUpdate: string, updateCount: nat)

  /** `point.payload and point.payload.get("update_history")`. */
  predicate HasHistory(p: Payload) {
    p != map[] && HistoryKey in p && Truthy(p[HistoryKey])
  }

  lemma HasHistoryIff(p: Payload)
    ensures HasHistory(p) <==> HistoryOf(p) != []
  {
  }

  /** The title, the latest update time and the number of entries of one updated point. */
  function Summarize(pt: ScrolledPoint): Summary {
    var h := HistoryOf(pt.payload);
    Summary(pt.id, Get(pt.payload, TitleKey, Str(NotAvailable)), LatestTimestamp(h), |h|)
  }

  /** The updated points in scroll order. */
  function Summaries(points: seq<ScrolledPoint>): seq<Summary>
    decreases |points|
  {
    if points == [] then []
    else
      var n := |points| - 1;
      if HasHistory(points[n].payload) then Summaries(points[..n]) + [Summarize(points[n])]
      else Summaries(points[..n])
  }

  /** Exactly the points with a non-empty history are listed, each with its own summary. */
  lemma {:induction false} SummariesExact(points: seq<ScrolledPoint>)
    ensures forall s :: s in Summaries(points) ==>
      exists i :: 0 <= i < |points| && HasHistory(points[i].payload) && s == Summarize(points[i])
    ensures forall i :: 0 <= i < |points| && HasHistory(points[i].payload) ==> Summarize(points[i]) in Summaries(points)
    decreases |points|
  {
    if points != [] {
      var n := |points| - 1;
      SummariesExact(points[..n]);
      forall s | s in Summaries(points)
        ensures exists i :: 0 <= i < |points| && HasHistory(points[i].payload) && s == Summarize(points[i])
      {
        if s in Summaries(points[..n]) {
          var i :| 0 <= i < n && HasHistory(points[..n][i].payload) && s == Summarize(points[..n][i]);
          assert points[i] == points[..n][i];
        } else {
          assert s == Summarize(points[n]);
        }
      }
      forall i | 0 <= i < |points| && HasHistory(points[i].payload) ensures Summarize(points[i]) in Summaries(points) {
        if i < n {
          assert points[..n][i] == points[i];
        }
      }
    }
  }

  /** The loop that builds `updated_points`. */
  method CollectUpdated(points: seq<ScrolledPoint>) returns (r: seq<Summary>)
    ensures r == Summaries(points)
  {
    r := [];
    for i := 0 to |points|
      invariant r == Summaries(points[..i])
    {
      assert points[..i + 1][..i] == points[..i];
      var pt := points[i];
      if HasHistory(pt.payload) {
        var h := HistoryOf(pt.payload);
        if h != [] {
          var latest := LatestTimestamp(h);
          r := r + [Summary(pt.id, Get(pt.payload, TitleKey, Str(NotAvailable)), latest, |h|)];
        }
      }
    }
    assert points[..|points|] == points;
  }

  /** Newest first: no summary has a later update time than one before it. */
  ghost predicate SortedDesc(s: seq<Summary>) {
    forall p, q :: 0 <= p < q < |s| ==> LexLe(s[q].latestUpdate, s[p].latestUpdate)
  }

  /** Each summary in `s[lo..hi]` is not later than the one before it. */
  ghost predicate AdjacentDesc(s: seq<Summary>, lo: int, hi: int)
    requires 0 <= lo <= hi <= |s|
  {
    forall k :: lo < k < hi ==> LexLe(s[k].latestUpdate, s[k - 1].latestUpdate)
  }

  /** Neighbours in order give the whole list in order. */
  lemma {:induction false} AdjacentDescIsSorted(s: seq<Summary>)
    requires AdjacentDesc(s, 0, |s|)
    ensures SortedDesc(s)
    decreases |s|
  {
    if |s| > 1 {
      var n := |s| - 1;
      AdjacentDescIsSorted(s[..n]);
      forall p | 0 <= p < n ensures LexLe(s[n].latestUpdate, s[p].latestUpdate) {
        assert s[..n][p] == s[p] && s[..n][n - 1] == s[n - 1];
        if p < n - 1 {
          LexLeTransitive(s[n].latestUpdate, s[n - 1].latestUpdate, s[p].latestUpdate);
        }
      }
    }
  }

  /** Swapping the inserted summary with an older left neighbour keeps both ordered runs ordered. */
  lemma SwapKeepsOrder(s: seq<Summary>, i: int, j: int)
    requires 0 < j <= i < |s|
    requires AdjacentDesc(s, 0, j) && AdjacentDesc(s, j + 1, i + 1)
    requires j < i ==> LexLe(s[j + 1].latestUpdate, s[j - 1].latestUpdate)
    requires LexLt(s[j - 1].latestUpdate, s[j].latestUpdate)
    ensures var t := s[j - 1 := s[j]][j := s[j - 1]];
      && AdjacentDesc(t, 0, j - 1) && AdjacentDesc(t, j, i + 1)
      && (0 < j - 1 ==> LexLe(t[j].latestUpdate, t[j - 2].latestUpdate))
      && LexLt(t[j].latestUpdate, t[j - 1].latestUpdate)
      && multiset(t) == multiset(s)
  {
    var t := s[j - 1 := s[j]][j := s[j - 1]];
    assert t[j] == s[j - 1] && t[j - 1] == s[j];
    forall k | 0 < k < j - 1 ensures LexLe(t[k].latestUpdate, t[k - 1].latestUpdate) {
      assert t[k] == s[k] && t[k - 1] == s[k - 1];
    }
    forall k | j < k < i + 1 ensures LexLe(t[k].latestUpdate, t[k - 1].latestUpdate) {
      assert t[k] == s[k];
      if k > j + 1 { assert t[k - 1] == s[k - 1]; }
    }
    if 0 < j - 1 {
      assert t[j - 2] == s[j - 2];
    }
  }

  /**
   One pass of the insertion: move `a[i]` left past every strictly older
   neighbour, so that `a[..i + 1]` is in order.
   */
  method InsertLeft(a: array<Summary>, i: int)
    requires 0 <= i < a.Length
    requires AdjacentDesc(a[..], 0, i)
    modifies a
    ensures AdjacentDesc(a[..], 0, i + 1)
    ensures multiset(a[..]) == multiset(old(a[..]))
  {
    var j := i;
    while j > 0 && LexLt(a[j - 1].latestUpdate, a[j].latestUpdate)
      invariant 0 <= j <= i
      invariant AdjacentDesc(a[..], 0, j)
      invariant AdjacentDesc(a[..], j + 1, i + 1)
      invariant 0 < j < i ==> LexLe(a[j + 1].latestUpdate, a[j - 1].latestUpdate)
      invariant j < i ==> LexLt(a[j + 1].latestUpdate, a[j].latestUpdate)
      invariant multiset(a[..]) == multiset(old(a[..]))
    {
      ghost var s := a[..];
      a[j - 1], a[j] := a[j], a[j - 1];
      assert a[..] == s[j - 1 := s[j]][j := s[j - 1]];
      SwapKeepsOrder(s, i, j);
      j := j - 1;
    }
    if j > 0 {
      NotLtIsGe(a[j].latestUpdate, a[j - 1].latestUpdate);
    }
  }

  /**
   `updated_points.sort(key=latest_update, reverse=True)`: an insertion sort
   that moves an element left only past strictly older ones.
   */
  method SortByLatestDesc(a: array<Summary>)
    modifies a
    ensures SortedDesc(a[..])
    ensures multiset(a[..]) == multiset(old(a[..]))
  {
    var i := 0;
    while i < a.Length
      invariant 0 <= i <= a.Length
      invariant AdjacentDesc(a[..], 0, i)
      invariant multiset(a[..]) == multiset(old(a[..]))
    {
      InsertLeft(a, i);
      i := i + 1;
    }
    AdjacentDescIsSorted(a[..]);
  }

  /** Section (2): the updated points, newest first. */
  method RecentlyUpdated(points: seq<ScrolledPoint>) returns (r: seq<Summary>)
    ensures multiset(r) == multiset(Summaries(points))
    ensures SortedDesc(r)
  {
    var updated := CollectUpdated(points);
    var a := new Summary[|updated|](k => if 0 <= k < |updated| then updated[k] else Summary(0, Str(""), "", 0));
    assert a[..] == updated;
    SortByLatestDesc(a);
    r := a[..];
  }

  // ---------------------------------------------------------------------------
  // Points whose synonyms were changed
  // ---------------------------------------------------------------------------

  /** Some entry of the history changed field `f`. */
  predicate ChangedField(h: seq<Entry>, f: string) {
    exists k :: 0 <= k < |h| && h[k].field == Some(f)
  }

  /** The inner loop: scan the history and stop at the first entry for field `f`. */
  method FindFieldChange(h: seq<Entry>, f: string) returns (found: bool)
    ensures found <==> ChangedField(h, f)
  {
    found := false;
    var k := 0;
    while k < |h|
      invariant 0 <= k <= |h|
      invariant !found
      invariant forall m :: 0 <= m < k ==> h[m].field != Some(f)
    {
      if h[k].field == Some(f) {
        found := true;
        break;
      }
      k := k + 1;
    }
  }

  /** What the report lists for a point whose synonyms were changed. */
  datatype SynonymHit = SynonymHit(id: int, title: Value, synonyms: Value)

  function HitFor(pt: ScrolledPoint): SynonymHit {
    SynonymHit(pt.id, Get(pt.payload, TitleKey, Str(NotAvailable)), Get(pt.payload, UpdateDemo.SynonymsKey, StrList([])))
  }

  /** A point is listed when its payload is not empty and its history has a synonyms entry. */
  predicate SynonymsChanged(pt: ScrolledPoint) {
    pt.payload != map[] && ChangedField(HistoryOf(pt.payload), UpdateDemo.SynonymsKey)
  }

  /** `synonyms_updated`, in scroll order. */
  function SynonymHits(points: seq<ScrolledPoint>): seq<SynonymHit>
    decreases |points|
  {
    if points == [] then []
    else
      var n := |points| - 1;
      if SynonymsChanged(points[n]) then SynonymHits(points[..n]) + [HitFor(points[n])] else SynonymHits(points[..n])
  }

  /** Section (3): one hit per point whose history has a synonyms entry. */
  method SynonymsUpdated(points: seq<ScrolledPoint>) returns (r: seq<SynonymHit>)
    ensures r == SynonymHits(points)
  {
    r := [];
    for i := 0 to |points|
      invariant r == SynonymHits(points[..i])
    {
      assert points[..i + 1][..i] == points[..i];
      var pt := points[i];
      if pt.payload != map[] {
        var found := FindFieldChange(HistoryOf(pt.payload), UpdateDemo.SynonymsKey);
        if found {
          r := r + [HitFor(pt)];
        }
      }
    }
    assert points[..|points|] == points;
  }

  /** The hit of some point of the scroll whose synonyms changed. */
  ghost predicate HitOfChangedPoint(h: SynonymHit, points: seq<ScrolledPoint>) {
    exists i :: 0 <= i < |points| && SynonymsChanged(points[i]) && h == HitFor(points[i])
  }

  /**
   A point is listed if and only if some entry of its history changed the
   synonyms, and every hit comes from a point of the scroll.
   */
  lemma {:induction false} SynonymHitsExact(points: seq<ScrolledPoint>)
    ensures forall k :: 0 <= k < |SynonymHits(points)| ==> HitOfChangedPoint(SynonymHits(points)[k], points)
    ensures forall i :: 0 <= i < |points| && SynonymsChanged(points[i]) ==> HitFor(points[i]) in SynonymHits(points)
    decreases |points|
  {
    if points != [] {
      var n := |points| - 1;
      var pre := SynonymHits(points[..n]);
      var r := SynonymHits(points);
      SynonymHitsExact(points[..n]);
      forall k | 0 <= k < |r| ensures HitOfChangedPoint(r[k], points) {
        if k < |pre| {
          assert r[k] == pre[k];
          assert HitOfChangedPoint(pre[k], points[..n]);
          var i :| 0 <= i < n && SynonymsChanged(points[..n][i]) && pre[k] == HitFor(points[..n][i]);
          assert points[i] == points[..n][i];
        } else {
          assert SynonymsChanged(points[n]) && r[k] == HitFor(points[n]);
        }
      }
      forall i | 0 <= i < |points| && SynonymsChanged(points[i]) ensures HitFor(points[i]) in r {
        if i < n {
          assert points[..n][i] == points[i];
          assert HitFor(points[i]) in pre;
        }
      }
    } else {
      assert SynonymHits(points) == [];
    }
  }

  /** Every hit of a prefix comes from a point of that prefix. */
  lemma {:induction false} SynonymHitIds(points: seq<ScrolledPoint>)
    ensures forall k :: 0 <= k < |SynonymHits(points)| ==> exists i :: 0 <= i < |points| && SynonymHits(points)[k].id == points[i].id
    decreases |points|
  {
    SynonymHitsExact(points);
    var r := SynonymHits(points);
    forall k | 0 <= k < |r| ensures exists i :: 0 <= i < |points| && r[k].id == points[i].id {
      assert HitOfChangedPoint(r[k], points);
      var i :| 0 <= i < |points| && SynonymsChanged(points[i]) && r[k] == HitFor(points[i]);
      assert r[k].id == points[i].id;
    }
  }

  /** With distinct point ids, no point is listed twice. */
  lemma {:induction false} SynonymHitsDistinct(points: seq<ScrolledPoint>)
    requires forall i, j :: 0 <= i < j < |points| ==> points[i].id != points[j].id
    ensures forall k, l :: 0 <= k < l < |SynonymHits(points)| ==> SynonymHits(points)[k].id != SynonymHits(points)[l].id
    decreases |points|
  {
    if points != [] {
      var n := |points| - 1;
      var pre := SynonymHits(points[..n]);
      SynonymHitsDistinct(points[..n]);
      SynonymHitIds(points[..n]);
      var r := SynonymHits(points);
      forall k, l | 0 <= k < l < |r| ensures r[k].id != r[l].id {
        if l >= |pre| {
          var i :| 0 <= i < n && pre[k].id == points[..n][i].id;
          assert points[..n][i] == points[i];
          assert r[k] == pre[k];
        } else {
          assert r[k] == pre[k] && r[l] == pre[l];
        }
      }
    }
  }

  // ---------------------------------------------------------------------------
  // Change statistics
  // ---------------------------------------------------------------------------

  /** The entries the statistics loop visits: the histories of the points with one, in scroll order. */
  function EntriesOf(points: seq<ScrolledPoint>): seq<Entry>
    decreases |points|
  {
    if points == [] then []
    else
      var n := |points| - 1;
      if HasHistory(points[n].payload) then EntriesOf(points[..n]) + HistoryOf(points[n].payload)
      else EntriesOf(points[..n])
  }

  /** `history.get("field", "unknown")`. */
  function FieldKey(e: Entry): string {
    e.field.GetOr(Unknown)
  }

  /** `history.get("reason", "unknown")`. */
  function ReasonKey(e: Entry): string {
    e.reason.GetOr(Unknown)
  }

  /** The counter after visiting `es`: `counts[key] = counts.get(key, 0) + 1` for each entry. */
  function Tally(es: seq<Entry>, key: Entry -> string): map<string, nat>
    decreases |es|
  {
    if es == [] then map[]
    else
      var m := Tally(es[..|es| - 1], key);
      var k := key(es[|es| - 1]);
      m[k := (if k in m then m[k] else 0) + 1]
  }

  /** How many entries of `es` have key `k`. */
  function Count(es: seq<Entry>, key: Entry -> string, k: string): nat
    decreases |es|
  {
    if es == [] then 0
    else Count(es[..|es| - 1], key, k) + if key(es[|es| - 1]) == k then 1 else 0
  }

  /** Counting one more entry. */
  lemma TallySnoc(es: seq<Entry>, e: Entry, key: Entry -> string)
    ensures var m := Tally(es, key);
      Tally(es + [e], key) == m[key(e) := (if key(e) in m then m[key(e)] else 0) + 1]
  {
    assert (es + [e])[..|es|] == es;
  }

  /** The counter holds a key exactly when some entry has it, and then that key's number of entries. */
  lemma {:induction false} TallyCounts(es: seq<Entry>, key: Entry -> string)
    ensures forall k :: k in Tally(es, key) <==> Count(es, key, k) > 0
    ensures forall k :: k in Tally(es, key) ==> Tally(es, key)[k] == Count(es, key, k)
    decreases |es|
  {
    if es != [] {
      TallyCounts(es[..|es| - 1], key);
    }
  }

  /** The sum of a counter's values. */
  ghost function MapSum(m: map<string, nat>): nat
    decreases |m|
  {
    if m == map[] then 0
    else
      var k :| k in m;
      assert |m - {k}| < |m| by {
        assert m.Keys == (m - {k}).Keys + {k};
      }
      m[k] + MapSum(m - {k})
  }

  /** The sum does not depend on which key is taken out first. */
  lemma {:induction false} MapSumRemove(m: map<string, nat>, k: string)
    requires k in m
    ensures MapSum(m) == m[k] + MapSum(m - {k})
    decreases |m|
  {
    var k' :| k' in m && MapSum(m) == m[k'] + MapSum(m - {k'});
    if k' != k {
      assert m.Keys == (m - {k}).Keys + {k};
      assert m.Keys == (m - {k'}).Keys + {k'};
      MapSumRemove(m - {k'}, k);
      MapSumRemove(m - {k}, k');
      assert m - {k'} - {k} == m - {k} - {k'};
    }
  }

  /** Counting one more key adds one to the sum. */
  lemma MapSumIncrement(m: map<string, nat>, k: string)
    ensures MapSum(m[k := (if k in m then m[k] else 0) + 1]) == MapSum(m) + 1
  {
    var m' := m[k := (if k in m then m[k] else 0) + 1];
    MapSumRemove(m', k);
    assert m' - {k} == m - {k};
    if k in m {
      MapSumRemove(m, k);
    } else {
      assert m - {k} == m;
    }
  }

  /** A counter's values add up to the number of entries counted. */
  lemma {:induction false} TallySum(es: seq<Entry>, key: Entry -> string)
    ensures MapSum(Tally(es, key)) == |es|
    decreases |es|
  {
    if es != [] {
      TallySum(es[..|es| - 1], key);
      MapSumIncrement(Tally(es[..|es| - 1], key), key(es[|es| - 1]));
    }
  }

  /** The points up to `i` inclusive contribute the history of point `i`, when it has one, after the earlier ones. */
  lemma EntriesOfSnoc(points: seq<ScrolledPoint>, i: int)
    requires 0 <= i < |points|
    ensures EntriesOf(points[..i + 1]) ==
      if HasHistory(points[i].payload) then EntriesOf(points[..i]) + HistoryOf(points[i].payload)
      else EntriesOf(points[..i])
  {
    assert points[..i + 1][..i] == points[..i];
  }

  /** The inner loop of the statistics: count the entries of one history on top of the counts so far. */
  method CountEntries(ghost seen: seq<Entry>, h: seq<Entry>, total0: nat, fields0: map<string, nat>, reasons0: map<string, nat>)
    returns (total: nat, fieldCounts: map<string, nat>, reasonCounts: map<string, nat>)
    requires total0 == |seen| && fields0 == Tally(seen, FieldKey) && reasons0 == Tally(seen, ReasonKey)
    ensures total == |seen + h|
    ensures fieldCounts == Tally(seen + h, FieldKey) && reasonCounts == Tally(seen + h, ReasonKey)
  {
    total, fieldCounts, reasonCounts := total0, fields0, reasons0;
    assert seen + h[..0] == seen;
    for j := 0 to |h|
      invariant total == |seen + h[..j]|
      invariant fieldCounts == Tally(seen + h[..j], FieldKey)
      invariant reasonCounts == Tally(seen + h[..j], ReasonKey)
    {
      assert seen + h[..j + 1] == (seen + h[..j]) + [h[j]];
      TallySnoc(seen + h[..j], h[j], FieldKey);
      TallySnoc(seen + h[..j], h[j], ReasonKey);
      total := total + 1;
      var field := FieldKey(h[j]);
      var reason := ReasonKey(h[j]);
      fieldCounts := fieldCounts[field := (if field in fieldCounts then fieldCounts[field] else 0) + 1];
      reasonCounts := reasonCounts[reason := (if reason in reasonCounts then reasonCounts[reason] else 0) + 1];
    }
    assert h[..|h|] == h;
  }

  /**
   Section (4): count every entry of every updated point, by field and by
   reason. The total is the number of entries, and each counter's values add
   up to it.
   */
  method Statistics(points: seq<ScrolledPoint>) returns (total: nat, fieldCounts: map<string, nat>, reasonCounts: map<string, nat>)
    ensures total == |EntriesOf(points)|
    ensures fieldCounts == Tally(EntriesOf(points), FieldKey)
    ensures reasonCounts == Tally(EntriesOf(points), ReasonKey)
    ensures MapSum(fieldCounts) == total && MapSum(reasonCounts) == total
  {
    total := 0;
    fieldCounts := map[];
    reasonCounts := map[];
    for i := 0 to |points|
      invariant total == |EntriesOf(points[..i])|
      invariant fieldCounts == Tally(EntriesOf(points[..i]), FieldKey)
      invariant reasonCounts == Tally(EntriesOf(points[..i]), ReasonKey)
    {
      EntriesOfSnoc(points, i);
      if HasHistory(points[i].payload) {
        total, fieldCounts, reasonCounts :=
          CountEntries(EntriesOf(points[..i]), HistoryOf(points[i].payload), total, fieldCounts, reasonCounts);
      }
    }
    assert points[..|points|] == points;
    TallySum(EntriesOf(points), FieldKey);
    TallySum(EntriesOf(points), ReasonKey);
  }
}
