/**
 The change-history bookkeeping of the mutator: appending one entry to a
 point's `update_history` and keeping only the five most recent, and the pass
 that writes every entry of a run to the point it is about.
 */
module History {
  import opened Payloads
  import opened VectorStore

  /** The collection an entry is written to when it names none. */
  const DefaultCollection: string := "hr_glossary"

  /** How many entries a point's history keeps. */
  const HistoryCapacity: nat := 5

  /** Python's `s[-n:]` for a positive `n`: the last `n` elements, or all of `s` when it is shorter. */
  function LastN<T>(s: seq<T>, n: nat): (r: seq<T>)
    requires n > 0
    ensures |r| == if |s| < n then |s| else n
  {
    if |s| <= n then s else s[|s| - n..]
  }

  /** `existing.append(item); existing[-5:]`. */
  function AppendCapped(existing: seq<Entry>, item: Entry): seq<Entry> {
    LastN(existing + [item], HistoryCapacity)
  }

  /**
   The capped append grows the history by one until it holds five entries;
   the new entry is last, and before it stand the most recent old entries in
   their old order.
   */
  lemma AppendCappedShape(existing: seq<Entry>, item: Entry)
    ensures var r := AppendCapped(existing, item);
      && |r| == (if |existing| + 1 < HistoryCapacity then |existing| + 1 else HistoryCapacity)
      && r[|r| - 1] == item
      && r[..|r| - 1] == existing[|existing| + 1 - |r|..]
  {
  }

  /** The history after appending `items` one at a time, oldest first. */
  function AppendAll(h: seq<Entry>, items: seq<Entry>): seq<Entry>
    decreases |items|
  {
    if items == [] then h
    else AppendCapped(AppendAll(h, items[..|items| - 1]), items[|items| - 1])
  }

  /** Cutting before appending one element and cutting after give the same tail. */
  lemma LastNSnoc<T>(s: seq<T>, x: T, n: nat)
    requires n > 0
    ensures LastN(LastN(s, n) + [x], n) == LastN(s + [x], n)
  {
    if |s| > n {
      assert (LastN(s, n) + [x])[1..] == (s + [x])[|s| + 1 - n..];
    }
  }

  /** Appending entries one by one keeps the last five of the old history followed by all of them. */
  lemma {:induction false} AppendAllIsLastN(h: seq<Entry>, items: seq<Entry>)
    requires items != []
    ensures AppendAll(h, items) == LastN(h + items, HistoryCapacity)
    decreases |items|
  {
    var n := |items| - 1;
    var x := items[n];
    var pre := items[..n];
    assert items == pre + [x];
    if n == 0 {
      assert AppendAll(h, items) == AppendCapped(h, x);
      assert h + items == h + [x];
    } else {
      var prev := AppendAll(h, pre);
      assert AppendAll(h, items) == LastN(prev + [x], HistoryCapacity);
      AppendAllIsLastN(h, pre);
      LastNSnoc(h + pre, x, HistoryCapacity);
      assert h + pre + [x] == h + items;
    }
  }

  /** A history is never longer than five once anything has been appended to it. */
  lemma AppendAllBounded(h: seq<Entry>, items: seq<Entry>)
    requires items != [] || |h| <= HistoryCapacity
    ensures |AppendAll(h, items)| <= HistoryCapacity
  {
    if items != [] {
      AppendAllIsLastN(h, items);
    }
  }

  /** Seven entries recorded one at a time into an empty history leave the third to the seventh. */
  lemma SevenAppends(es: seq<Entry>)
    requires |es| == 7
    ensures AppendAll([], es) == es[2..]
  {
    AppendAllIsLastN([], es);
    assert [] + es == es;
  }

  // ---------------------------------------------------------------------------
  // Writing a run's entries to the store
  // ---------------------------------------------------------------------------

  /** `history_item.get("collection_name", "hr_glossary")`. */
  function CollectionOf(item: Entry): string {
    item.collection.GetOr(DefaultCollection)
  }

  /**
   One pass of the recording loop: read the point, append the entry to its
   history (or start one when the payload is empty) and write back only the
   history key. No result when the point is missing: the write then fails.
   */
  function RecordOne(cols: Collections, item: Entry): (r: Option<Collections>)
    ensures r.Some? <==> PayloadAt(cols, CollectionOf(item), item.pointId).Some?
  {
    var c := CollectionOf(item);
    match PayloadAt(cols, c, item.pointId)
    case None => None
    case Some(p) =>
      Some(WithPayload(cols, c, item.pointId, map[HistoryKey := EntryList(NextHistory(p, item))]))
  }


  /** Where a run of the recording loop ends, and whether it got through every entry. */
  datatype Run = Run(cols: Collections, completed: bool)

  /** The recording loop over `items`; the first failed write stops it, earlier writes stay. */
  function RecordAll(cols: Collections, items: seq<Entry>): Run
    decreases |items|
  {
    if items == [] then Run(cols, true)
    else
      var prev := RecordAll(cols, items[..|items| - 1]);
      if !prev.completed then prev
      else match RecordOne(prev.cols, items[|items| - 1])
        case None => Run(prev.cols, false)
        case Some(next) => Run(next, true)
  }

  /** The entries of `items` addressed to point `id` of collection `c`, in list order. */
  function ItemsFor(items: seq<Entry>, c: string, id: int): seq<Entry>
    decreases |items|
  {
    if items == [] then []
    else
      var rest := ItemsFor(items[..|items| - 1], c, id);
      var x := items[|items| - 1];
      if CollectionOf(x) == c && x.pointId == id then rest + [x] else rest
  }

  /** Two payloads that agree on every key except the history. */
  ghost predicate SameExceptHistory(p: Payload, q: Payload) {
    && (forall k :: k != HistoryKey ==> (k in p <==> k in q))
    && (forall k :: k != HistoryKey && k in p ==> q[k] == p[k])
  }

  /** Every entry addresses a point that exists. */
  predicate AllAddressed(cols: Collections, items: seq<Entry>) {
    forall i :: 0 <= i < |items| ==> PayloadAt(cols, CollectionOf(items[i]), items[i].pointId).Some?
  }

  /** What one point looks like after the recording loop: only its history moved. */
  ghost predicate RecordedPoint(before: Point, after: Point, items: seq<Entry>) {
    && after.vector == before.vector
    && SameExceptHistory(before.payload, after.payload)
    && HistoryOf(after.payload) == AppendAll(HistoryOf(before.payload), items)
  }

  /** The history that one pass of the recording loop writes for entry `x` on a point with payload `p`. */
  function NextHistory(p: Payload, x: Entry): seq<Entry> {
    if p != map[] then AppendCapped(HistoryOf(p), x) else [x]
  }

  /**
   Both branches of a pass write the same thing: starting a fresh history on an
   empty payload is the capped append to the history it does not have.
   */
  lemma NextHistoryIsCappedAppend(p: Payload, x: Entry)
    ensures NextHistory(p, x) == LastN(HistoryOf(p) + [x], HistoryCapacity)
    ensures |NextHistory(p, x)| <= HistoryCapacity && NextHistory(p, x)[|NextHistory(p, x)| - 1] == x
  {
  }

  /** One more recorded entry extends what a point has seen by that entry. */
  lemma RecordedPointSnoc(before: Point, mid: Point, mine: seq<Entry>, x: Entry)
    requires RecordedPoint(before, mid, mine)
    ensures RecordedPoint(before,
      Point(mid.vector, SetKeys(mid.payload, map[HistoryKey := EntryList(NextHistory(mid.payload, x))])),
      mine + [x])
  {
    assert (mine + [x])[..|mine|] == mine;
  }

  /**
   When every entry addresses an existing point, the loop completes, creates
   no point, and leaves each point with its old history followed by the
   entries addressed to it, appended one at a time; nothing else changes.
   */
  lemma {:induction false} RecordAllHistories(cols: Collections, items: seq<Entry>)
    requires AllAddressed(cols, items)
    ensures RecordAll(cols, items).completed
    ensures SamePoints(cols, RecordAll(cols, items).cols)
    ensures forall c, id :: c in cols && id in cols[c] ==>
      RecordedPoint(cols[c][id], RecordAll(cols, items).cols[c][id], ItemsFor(items, c, id))
    decreases |items|
  {
    if items != [] {
      var n := |items| - 1;
      var pre := items[..n];
      var x := items[n];
      assert AllAddressed(cols, pre) by {
        forall i | 0 <= i < |pre| ensures PayloadAt(cols, CollectionOf(pre[i]), pre[i].pointId).Some? {
          assert pre[i] == items[i];
        }
      }
      RecordAllHistories(cols, pre);
      var prev: Collections := RecordAll(cols, pre).cols;
      assert PayloadAt(prev, CollectionOf(x), x.pointId).Some?;
      var next: Collections := RecordOne(prev, x).value;
      assert RecordAll(cols, items) == Run(next, true);
      forall c, id | c in cols && id in cols[c]
        ensures RecordedPoint(cols[c][id], next[c][id], ItemsFor(items, c, id))
      {
        RecordOneAt(prev, x, c, id);
        if c == CollectionOf(x) && id == x.pointId {
          RecordedPointSnoc(cols[c][id], prev[c][id], ItemsFor(pre, c, id), x);
        }
      }
    }
  }

  /** What one pass does to each point: the addressed one gets its next history, the others stay. */
  lemma RecordOneAt(cols: Collections, x: Entry, c: string, id: int)
    requires PayloadAt(cols, CollectionOf(x), x.pointId).Some?
    requires c in cols && id in cols[c]
    ensures SamePoints(cols, RecordOne(cols, x).value)
    ensures RecordOne(cols, x).value[c][id] ==
      if c == CollectionOf(x) && id == x.pointId
      then Point(cols[c][id].vector, SetKeys(cols[c][id].payload, map[HistoryKey := EntryList(NextHistory(cols[c][id].payload, x))]))
      else cols[c][id]
  {
  }

  /** The per-point history after the loop, stated with the slice: `(old + items)[-5:]`. */
  lemma RecordAllKeepsLastFive(cols: Collections, items: seq<Entry>, c: string, id: int)
    requires AllAddressed(cols, items)
    requires c in cols && id in cols[c]
    requires ItemsFor(items, c, id) != []
    ensures c in RecordAll(cols, items).cols && id in RecordAll(cols, items).cols[c]
    ensures HistoryOf(RecordAll(cols, items).cols[c][id].payload)
         == LastN(HistoryOf(cols[c][id].payload) + ItemsFor(items, c, id), HistoryCapacity)
  {
    RecordAllHistories(cols, items);
    AppendAllIsLastN(HistoryOf(cols[c][id].payload), ItemsFor(items, c, id));
  }

  /** A write to a missing point stops the loop: it reports failure. */
  lemma RecordAllStopsAtMissingPoint(cols: Collections, items: seq<Entry>)
    requires items != []
    requires AllAddressed(cols, items[..|items| - 1])
    requires PayloadAt(cols, CollectionOf(items[|items| - 1]), items[|items| - 1].pointId).None?
    ensures !RecordAll(cols, items).completed
    ensures RecordAll(cols, items).cols == RecordAll(cols, items[..|items| - 1]).cols
  {
    var n := |items| - 1;
    RecordAllHistories(cols, items[..n]);
  }
}
