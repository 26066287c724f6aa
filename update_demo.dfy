/**
 The mutator script: a batch of synonym updates on glossary terms, a
 conditional rewrite of one catalog description, the re-embedding of the
 employee-number term, and finally the change log written back into the
 payloads of the points it is about. Each section is specified by a function
 from the store's collections to a `Batch` (the new collections and the log
 entries the section appends); the `Mutator` class performs them step by step.
 */
module UpdateDemo {
  import opened Payloads
  import opened Strings
  import opened VectorStore
  import opened History
  import Seeder

  const Glossary: string := Seeder.GlossaryCollection
  const Catalog: string := Seeder.CatalogCollection
  const SynonymsKey: string := "synonyms"
  const DescriptionKey: string := "description"
  /** The `field` recorded for the re-embedding. */
  const ReembedField: string := "vector + description"
  /** The glossary term that is re-embedded, and its title. */
  const EmployeeNumberId: int := 1
  const EmployeeNumberTitle: string := "사번"

  /** One element of the batch: a term id, its complete new synonym list and why. */
  datatype SynonymUpdate = SynonymUpdate(id: int, newSynonyms: seq<string>, reason: string)

  /** The store's collections after a section, and the log entries the section wrote. */
  datatype Batch = Batch(cols: Collections, log: seq<Entry>)

  // ---------------------------------------------------------------------------
  // (1) Batch synonym update
  // ---------------------------------------------------------------------------

  /** `old_payload.get("synonyms", []) if old_payload else []`. */
  function PriorSynonyms(p: Payload): Value {
    if p != map[] then Get(p, SynonymsKey, StrList([])) else StrList([])
  }

  /** One element of the batch: skipped when the term is missing, otherwise written and logged. */
  function SynonymStep(cols: Collections, u: SynonymUpdate, stamp: string): Batch {
    match PayloadAt(cols, Glossary, u.id)
    case None => Batch(cols, [])
    case Some(p) =>
      Batch(WithPayload(cols, Glossary, u.id, map[SynonymsKey := StrList(u.newSynonyms)]),
            [Entry(Some(stamp), Some(Glossary), u.id, Some(SynonymsKey), Some(PriorSynonyms(p)),
                   Some(StrList(u.newSynonyms)), Some(u.reason))])
  }

  /** The whole batch, in list order; `clock[i]` is the time read for `updates[i]`. */
  function SynonymUpdates(cols: Collections, updates: seq<SynonymUpdate>, clock: seq<string>): Batch
    requires |clock| == |updates|
    decreases |updates|
  {
    if updates == [] then Batch(cols, [])
    else
      var n := |updates| - 1;
      var prev := SynonymUpdates(cols, updates[..n], clock[..n]);
      var step := SynonymStep(prev.cols, updates[n], clock[n]);
      Batch(step.cols, prev.log + step.log)
  }

  /** The last update of the list that names term `id`, if any. */
  function LastUpdateFor(updates: seq<SynonymUpdate>, id: int): (r: Option<SynonymUpdate>)
    ensures r.Some? ==> r.value in updates && r.value.id == id
    ensures r.None? <==> forall u :: u in updates ==> u.id != id
    decreases |updates|
  {
    if updates == [] then None
    else if updates[|updates| - 1].id == id then Some(updates[|updates| - 1])
    else
      assert forall u :: u in updates ==> u in updates[..|updates| - 1] || u == updates[|updates| - 1];
      LastUpdateFor(updates[..|updates| - 1], id)
  }

  /** The update found is the last one naming `id`: no update after it names that term. */
  lemma {:induction false} LastUpdateForIsLast(updates: seq<SynonymUpdate>, id: int)
    requires LastUpdateFor(updates, id).Some?
    ensures exists i :: 0 <= i < |updates| && updates[i] == LastUpdateFor(updates, id).value &&
                        forall j :: i < j < |updates| ==> updates[j].id != id
    decreases |updates|
  {
    var n := |updates| - 1;
    if updates[n].id != id {
      LastUpdateForIsLast(updates[..n], id);
      var i :| 0 <= i < n && updates[..n][i] == LastUpdateFor(updates[..n], id).value &&
               forall j :: i < j < n ==> updates[..n][j].id != id;
      assert updates[i] == updates[..n][i];
      forall j | i < j < |updates| ensures updates[j].id != id {
        if j < n { assert updates[j] == updates[..n][j]; }
      }
    }
  }

  /** A glossary point after the batch: its synonyms are those of the last update naming it. */
  function AfterSynonyms(pt: Point, last: Option<SynonymUpdate>): Point {
    match last
    case None => pt
    case Some(u) => Point(pt.vector, SetKeys(pt.payload, map[SynonymsKey := StrList(u.newSynonyms)]))
  }

  lemma AfterSynonymsSnoc(pt: Point, last: Option<SynonymUpdate>, u: SynonymUpdate)
    ensures var a := AfterSynonyms(pt, last);
      Point(a.vector, SetKeys(a.payload, map[SynonymsKey := StrList(u.newSynonyms)])) == AfterSynonyms(pt, Some(u))
  {
    if last.Some? {
      SetKeysTwice(pt.payload, SynonymsKey, StrList(last.value.newSynonyms), StrList(u.newSynonyms));
    }
  }

  /**
   The batch creates and removes no point, touches no collection but the
   glossary, and leaves every glossary term with the synonyms of the last
   update naming it (its vector and other keys unchanged); a term no update
   names is unchanged.
   */
  lemma {:induction false} SynonymUpdatesState(cols: Collections, updates: seq<SynonymUpdate>, clock: seq<string>)
    requires |clock| == |updates|
    ensures SamePoints(cols, SynonymUpdates(cols, updates, clock).cols)
    ensures forall c, id :: c in cols && id in cols[c] && c != Glossary ==>
      SynonymUpdates(cols, updates, clock).cols[c][id] == cols[c][id]
    ensures forall id :: Glossary in cols && id in cols[Glossary] ==>
      SynonymUpdates(cols, updates, clock).cols[Glossary][id] == AfterSynonyms(cols[Glossary][id], LastUpdateFor(updates, id))
    decreases |updates|
  {
    if updates != [] {
      var n := |updates| - 1;
      var u := updates[n];
      var pre := updates[..n];
      SynonymUpdatesState(cols, pre, clock[..n]);
      var prev: Collections := SynonymUpdates(cols, pre, clock[..n]).cols;
      var next: Collections := SynonymStep(prev, u, clock[n]).cols;
      assert SynonymUpdates(cols, updates, clock).cols == next;
      if PayloadAt(prev, Glossary, u.id).Some? {
        assert next == WithPayload(prev, Glossary, u.id, map[SynonymsKey := StrList(u.newSynonyms)]);
      } else {
        assert next == prev;
      }
      forall id | Glossary in cols && id in cols[Glossary]
        ensures next[Glossary][id] == AfterSynonyms(cols[Glossary][id], LastUpdateFor(updates, id))
      {
        if id == u.id {
          AfterSynonymsSnoc(cols[Glossary][id], LastUpdateFor(pre, id), u);
        } else {
          assert LastUpdateFor(updates, id) == LastUpdateFor(pre, id);
        }
      }
    }
  }

  /** The updates that name a term in `present`, in list order: those the batch writes and logs. */
  function Applied(updates: seq<SynonymUpdate>, present: set<int>): (r: seq<SynonymUpdate>)
    ensures forall k :: 0 <= k < |r| ==> r[k].id in present
    decreases |updates|
  {
    if updates == [] then []
    else
      var n := |updates| - 1;
      if updates[n].id in present then Applied(updates[..n], present) + [updates[n]]
      else Applied(updates[..n], present)
  }

  /** The ids of the glossary's points. */
  function GlossaryIds(cols: Collections): set<int> {
    if Glossary in cols then cols[Glossary].Keys else {}
  }

  /** The synonyms term `id` has after the updates in `prior` were written. */
  function SynonymsBefore(cols: Collections, prior: seq<SynonymUpdate>, id: int): Value {
    match LastUpdateFor(prior, id)
    case Some(u) => StrList(u.newSynonyms)
    case None => match PayloadAt(cols, Glossary, id)
      case Some(p) => PriorSynonyms(p)
      case None => StrList([])
  }

  /** The log entry the batch writes for update `u` when the term held `before`. */
  ghost predicate SynonymEntry(e: Entry, u: SynonymUpdate, before: Value) {
    && e.timestamp.Some?
    && e.collection == Some(Glossary)
    && e.pointId == u.id
    && e.field == Some(SynonymsKey)
    && e.oldValue == Some(before)
    && e.newValue == Some(StrList(u.newSynonyms))
    && e.reason == Some(u.reason)
  }

  /** Restricting to the present terms does not change which update names a present term last. */
  lemma {:induction false} LastUpdateForApplied(updates: seq<SynonymUpdate>, present: set<int>, id: int)
    requires id in present
    ensures LastUpdateFor(Applied(updates, present), id) == LastUpdateFor(updates, id)
    decreases |updates|
  {
    if updates != [] {
      var n := |updates| - 1;
      LastUpdateForApplied(updates[..n], present, id);
      var a := Applied(updates[..n], present);
      if updates[n].id in present {
        assert (a + [updates[n]])[..|a|] == a;
      }
    }
  }

  /** The entry logged for one more update of a term that exists. */
  lemma SynonymStepLogged(cols: Collections, pre: seq<SynonymUpdate>, clock: seq<string>, u: SynonymUpdate, stamp: string)
    requires |clock| == |pre|
    requires u.id in GlossaryIds(cols)
    ensures var s := SynonymStep(SynonymUpdates(cols, pre, clock).cols, u, stamp);
      |s.log| == 1 && SynonymEntry(s.log[0], u, SynonymsBefore(cols, Applied(pre, GlossaryIds(cols)), u.id))
  {
    var prev: Collections := SynonymUpdates(cols, pre, clock).cols;
    SynonymUpdatesState(cols, pre, clock);
    var pt := cols[Glossary][u.id];
    var p := prev[Glossary][u.id].payload;
    assert PayloadAt(prev, Glossary, u.id) == Some(p);
    LastUpdateForApplied(pre, GlossaryIds(cols), u.id);
    match LastUpdateFor(pre, u.id)
    case Some(v) =>
      assert p == SetKeys(pt.payload, map[SynonymsKey := StrList(v.newSynonyms)]);
      assert SynonymsKey in p && p[SynonymsKey] == StrList(v.newSynonyms);
    case None =>
      assert p == pt.payload;
  }

  /**
   The batch logs exactly the updates whose term exists, in order, one entry
   each, recording the synonyms the term had just before (those of an
   earlier update in the same batch, when there is one).
   */
  lemma {:induction false} SynonymUpdatesLog(cols: Collections, updates: seq<SynonymUpdate>, clock: seq<string>)
    requires |clock| == |updates|
    ensures |SynonymUpdates(cols, updates, clock).log| == |Applied(updates, GlossaryIds(cols))|
    ensures forall k :: 0 <= k < |SynonymUpdates(cols, updates, clock).log| ==>
      var a := Applied(updates, GlossaryIds(cols));
      SynonymEntry(SynonymUpdates(cols, updates, clock).log[k], a[k], SynonymsBefore(cols, a[..k], a[k].id))
    decreases |updates|
  {
    if updates != [] {
      var n := |updates| - 1;
      var u := updates[n];
      var pre := updates[..n];
      var ids := GlossaryIds(cols);
      SynonymUpdatesLog(cols, pre, clock[..n]);
      var prev := SynonymUpdates(cols, pre, clock[..n]);
      var step := SynonymStep(prev.cols, u, clock[n]);
      var log := SynonymUpdates(cols, updates, clock).log;
      assert log == prev.log + step.log;
      var a := Applied(pre, ids);
      if u.id in ids {
        var a' := a + [u];
        assert Applied(updates, ids) == a';
        SynonymStepLogged(cols, pre, clock[..n], u, clock[n]);
        forall k | 0 <= k < |log|
          ensures SynonymEntry(log[k], a'[k], SynonymsBefore(cols, a'[..k], a'[k].id))
        {
          if k < |a| {
            assert a'[..k] == a[..k];
            assert log[k] == prev.log[k];
          } else {
            assert a'[..k] == a;
          }
        }
      } else {
        SynonymUpdatesState(cols, pre, clock[..n]);
        assert step.log == [];
        assert log == prev.log;
      }
    }
  }

  // ---------------------------------------------------------------------------
  // (2) Conditional description update
  // ---------------------------------------------------------------------------

  /** `payload.get("description", "") if payload else ""`. */
  function CurrentDescription(p: Payload): Value {
    if p != map[] then Get(p, DescriptionKey, Str("")) else Str("")
  }

  /**
   The first point the catalog filter returned gets the new description,
   logged, unless it already has it; with no hit nothing happens.
   */
  function DescriptionUpdate(cols: Collections, hits: seq<int>, newDescription: string, stamp: string, reason: string): Batch
    requires hits != [] ==> PayloadAt(cols, Catalog, hits[0]).Some?
  {
    if hits == [] then Batch(cols, [])
    else
      var oldDescription := CurrentDescription(cols[Catalog][hits[0]].payload);
      if oldDescription == Str(newDescription) then Batch(cols, [])
      else
        Batch(WithPayload(cols, Catalog, hits[0], map[DescriptionKey := Str(newDescription)]),
              [Entry(Some(stamp), Some(Catalog), hits[0], Some(DescriptionKey), Some(oldDescription),
                     Some(Str(newDescription)), Some(reason))])
  }

  /**
   After the conditional update the first hit's description reads as the new
   one and nothing else in the store differs; an entry is logged exactly when
   the description was different before, and the store changes only then.
   */
  lemma DescriptionUpdateEffect(cols: Collections, hits: seq<int>, newDescription: string, stamp: string, reason: string)
    requires hits != [] ==> PayloadAt(cols, Catalog, hits[0]).Some?
    ensures var r := DescriptionUpdate(cols, hits, newDescription, stamp, reason);
      && SamePoints(cols, r.cols)
      && (r.log != [] <==> hits != [] && CurrentDescription(cols[Catalog][hits[0]].payload) != Str(newDescription))
      && (r.log == [] ==> r.cols == cols)
      && (|r.log| <= 1)
      && (hits != [] ==> CurrentDescription(r.cols[Catalog][hits[0]].payload) == Str(newDescription))
      && (forall c, id :: c in cols && id in cols[c] && (hits == [] || c != Catalog || id != hits[0]) ==>
            r.cols[c][id] == cols[c][id])
  {
    if hits != [] && CurrentDescription(cols[Catalog][hits[0]].payload) != Str(newDescription) {
      var q := DescriptionUpdate(cols, hits, newDescription, stamp, reason).cols[Catalog][hits[0]].payload;
      assert q == SetKeys(cols[Catalog][hits[0]].payload, map[DescriptionKey := Str(newDescription)]);
      assert DescriptionKey in q && q[DescriptionKey] == Str(newDescription);
    }
  }

  /** Running the conditional update a second time changes nothing and logs nothing. */
  lemma DescriptionUpdateIdempotent(cols: Collections, hits: seq<int>, newDescription: string,
                                    stamp: string, stamp': string, reason: string)
    requires hits != [] ==> PayloadAt(cols, Catalog, hits[0]).Some?
    ensures var once := DescriptionUpdate(cols, hits, newDescription, stamp, reason).cols;
      && (hits != [] ==> PayloadAt(once, Catalog, hits[0]).Some?)
      && DescriptionUpdate(once, hits, newDescription, stamp', reason) == Batch(once, [])
  {
    DescriptionUpdateEffect(cols, hits, newDescription, stamp, reason);
  }

  // ---------------------------------------------------------------------------
  // (3) Re-embedding the employee-number term
  // ---------------------------------------------------------------------------

  /** `f"사번 :: {new_desc} :: {synonyms_text}"` with the synonyms joined by ", ". */
  function ReembedText(newDescription: string, synonyms: seq<string>): string {
    EmployeeNumberTitle + " :: " + newDescription + " :: " + Join(", ", synonyms)
  }

  /** The re-embedded text is the text the seeder embeds for the term as it now reads. */
  lemma ReembedTextIsGlossaryText(newDescription: string, synonyms: seq<string>, originalId: string)
    ensures ReembedText(newDescription, synonyms)
         == Seeder.GlossaryText(Seeder.GlossaryTerm(EmployeeNumberId, originalId, EmployeeNumberTitle, newDescription, synonyms))
  {
  }

  /**
   When term 1 exists: its vector becomes the embedding of the new text, its
   description the new one, and one entry is logged; otherwise nothing happens.
   */
  function Reembed(cols: Collections, newDescription: string, synonyms: seq<string>, embed: string -> Vector,
                   stamp: string, reason: string): Batch
  {
    match PayloadAt(cols, Glossary, EmployeeNumberId)
    case None => Batch(cols, [])
    case Some(p) =>
      var withVector := WithVector(cols, Glossary, EmployeeNumberId, embed(ReembedText(newDescription, synonyms)));
      Batch(WithPayload(withVector, Glossary, EmployeeNumberId, map[DescriptionKey := Str(newDescription)]),
            [Entry(Some(stamp), Some(Glossary), EmployeeNumberId, Some(ReembedField), Some(CurrentDescription(p)),
                   Some(Str(newDescription)), Some(reason))])
  }

  /**
   The re-embedded term is consistent again: its vector is the embedding the
   seeder would compute for the term with the new description and synonyms,
   and its payload reads the new description; no other point changes.
   */
  lemma ReembedEffect(cols: Collections, newDescription: string, synonyms: seq<string>, embed: string -> Vector,
                      stamp: string, reason: string, originalId: string)
    requires PayloadAt(cols, Glossary, EmployeeNumberId).Some?
    ensures var r := Reembed(cols, newDescription, synonyms, embed, stamp, reason);
      && SamePoints(cols, r.cols)
      && r.cols[Glossary][EmployeeNumberId].vector
         == embed(Seeder.GlossaryText(Seeder.GlossaryTerm(EmployeeNumberId, originalId, EmployeeNumberTitle, newDescription, synonyms)))
      && Get(r.cols[Glossary][EmployeeNumberId].payload, DescriptionKey, Str("")) == Str(newDescription)
      && |r.log| == 1 && r.log[0].field == Some(ReembedField)
      && (forall c, id :: c in cols && id in cols[c] && (c != Glossary || id != EmployeeNumberId) ==>
            r.cols[c][id] == cols[c][id])
  {
    ReembedTextIsGlossaryText(newDescription, synonyms, originalId);
  }

  // ---------------------------------------------------------------------------
  // Every logged entry can be written back
  // ---------------------------------------------------------------------------

  /** What the log says holds for any store with the same points. */
  lemma AllAddressedSamePoints(cols: Collections, cols': Collections, items: seq<Entry>)
    requires AllAddressed(cols, items) && SamePoints(cols, cols')
    ensures AllAddressed(cols', items)
  {
  }

  lemma AllAddressedAppend(cols: Collections, items: seq<Entry>, more: seq<Entry>)
    requires AllAddressed(cols, items) && AllAddressed(cols, more)
    ensures AllAddressed(cols, items + more)
  {
    forall i | 0 <= i < |items + more|
      ensures PayloadAt(cols, CollectionOf((items + more)[i]), (items + more)[i].pointId).Some?
    {
      if i >= |items| {
        assert (items + more)[i] == more[i - |items|];
      }
    }
  }

  /** The batch keeps every point and logs only terms that exist. */
  lemma SynonymUpdatesAddressed(cols: Collections, updates: seq<SynonymUpdate>, clock: seq<string>)
    requires |clock| == |updates|
    ensures var b := SynonymUpdates(cols, updates, clock); SamePoints(cols, b.cols) && AllAddressed(b.cols, b.log)
  {
    SynonymUpdatesState(cols, updates, clock);
    SynonymUpdatesLog(cols, updates, clock);
  }

  /** The conditional update keeps every point, so an addressed log stays addressed, its own entry included. */
  lemma DescriptionUpdateAddressed(cols: Collections, log: seq<Entry>, hits: seq<int>, newDescription: string,
                                   stamp: string, reason: string)
    requires hits != [] ==> PayloadAt(cols, Catalog, hits[0]).Some?
    requires AllAddressed(cols, log)
    ensures var b := DescriptionUpdate(cols, hits, newDescription, stamp, reason);
      SamePoints(cols, b.cols) && AllAddressed(b.cols, log + b.log)
  {
    var b := DescriptionUpdate(cols, hits, newDescription, stamp, reason);
    DescriptionUpdateEffect(cols, hits, newDescription, stamp, reason);
    AllAddressedSamePoints(cols, b.cols, log);
    AllAddressedAppend(b.cols, log, b.log);
  }

  /** The re-embedding keeps every point, so an addressed log stays addressed, its own entry included. */
  lemma ReembedAddressed(cols: Collections, log: seq<Entry>, newDescription: string, synonyms: seq<string>,
                         embed: string -> Vector, stamp: string, reason: string)
    requires AllAddressed(cols, log)
    ensures var b := Reembed(cols, newDescription, synonyms, embed, stamp, reason);
      SamePoints(cols, b.cols) && AllAddressed(b.cols, log + b.log)
  {
    var b := Reembed(cols, newDescription, synonyms, embed, stamp, reason);
    if PayloadAt(cols, Glossary, EmployeeNumberId).Some? {
      ReembedEffect(cols, newDescription, synonyms, embed, stamp, reason, "");
    }
    AllAddressedSamePoints(cols, b.cols, log);
    AllAddressedAppend(b.cols, log, b.log);
  }

  // ---------------------------------------------------------------------------
  // Sections (1) to (3) together
  // ---------------------------------------------------------------------------

  /** The batch creates and removes no point. */
  lemma SynonymUpdatesKeepsPoints(cols: Collections, updates: seq<SynonymUpdate>, clock: seq<string>)
    requires |clock| == |updates|
    ensures SamePoints(cols, SynonymUpdates(cols, updates, clock).cols)
  {
    SynonymUpdatesState(cols, updates, clock);
  }

  /** Sections (1) to (3) in order: the store they leave and the change log they build. */
  function Sections(cols: Collections, updates: seq<SynonymUpdate>, clock: seq<string>,
                    hits: seq<int>, catalogDescription: string, catalogStamp: string, catalogReason: string,
                    termDescription: string, embed: string -> Vector, termStamp: string, termReason: string): Batch
    requires |clock| == |updates| && updates != []
    requires hits != [] ==> PayloadAt(cols, Catalog, hits[0]).Some?
  {
    var b1 := SynonymUpdates(cols, updates, clock);
    SynonymUpdatesKeepsPoints(cols, updates, clock);
    var b2 := DescriptionUpdate(b1.cols, hits, catalogDescription, catalogStamp, catalogReason);
    var b3 := Reembed(b2.cols, termDescription, updates[0].newSynonyms, embed, termStamp, termReason);
    Batch(b3.cols, b1.log + b2.log + b3.log)
  }

  /**
   The three sections keep every point, and every entry they log addresses a
   point that exists, so section (4) can write each of them back.
   */
  lemma SectionsAddressed(cols: Collections, updates: seq<SynonymUpdate>, clock: seq<string>,
                          hits: seq<int>, catalogDescription: string, catalogStamp: string, catalogReason: string,
                          termDescription: string, embed: string -> Vector, termStamp: string, termReason: string)
    requires |clock| == |updates| && updates != []
    requires hits != [] ==> PayloadAt(cols, Catalog, hits[0]).Some?
    ensures var r := Sections(cols, updates, clock, hits, catalogDescription, catalogStamp, catalogReason,
                              termDescription, embed, termStamp, termReason);
      SamePoints(cols, r.cols) && AllAddressed(r.cols, r.log)
  {
    var b1 := SynonymUpdates(cols, updates, clock);
    SynonymUpdatesAddressed(cols, updates, clock);
    var b2 := DescriptionUpdate(b1.cols, hits, catalogDescription, catalogStamp, catalogReason);
    DescriptionUpdateAddressed(b1.cols, b1.log, hits, catalogDescription, catalogStamp, catalogReason);
    ReembedAddressed(b2.cols, b1.log + b2.log, termDescription, updates[0].newSynonyms, embed, termStamp, termReason);
  }

  /** After the batch, term 1 holds the synonyms of its last update, which is the batch's first one. */
  lemma TermAfterBatch(cols: Collections, updates: seq<SynonymUpdate>, clock: seq<string>, g: Seeder.GlossaryTerm)
    requires |clock| == |updates| && updates != []
    requires PayloadAt(cols, Glossary, EmployeeNumberId) == Some(Seeder.GlossaryPayload(g))
    requires LastUpdateFor(updates, EmployeeNumberId) == Some(updates[0])
    ensures var b1 := SynonymUpdates(cols, updates, clock).cols;
      && PayloadAt(b1, Glossary, EmployeeNumberId).Some?
      && b1[Glossary][EmployeeNumberId].payload
         == SetKeys(Seeder.GlossaryPayload(g), map[SynonymsKey := StrList(updates[0].newSynonyms)])
  {
    SynonymUpdatesState(cols, updates, clock);
  }

  /** The catalog update leaves every glossary point as it was. */
  lemma DescriptionUpdateKeepsGlossary(cols: Collections, hits: seq<int>, newDescription: string, stamp: string,
                                       reason: string, id: int)
    requires hits != [] ==> PayloadAt(cols, Catalog, hits[0]).Some?
    requires PayloadAt(cols, Glossary, id).Some?
    ensures var r := DescriptionUpdate(cols, hits, newDescription, stamp, reason).cols;
      PayloadAt(r, Glossary, id).Some? && r[Glossary][id] == cols[Glossary][id]
  {
    DescriptionUpdateEffect(cols, hits, newDescription, stamp, reason);
    assert Glossary != Catalog;
  }

  /** The re-embedded point: the new text's embedding, and the new description written over its payload. */
  lemma ReembedPoint(cols: Collections, newDescription: string, synonyms: seq<string>, embed: string -> Vector,
                     stamp: string, reason: string)
    requires PayloadAt(cols, Glossary, EmployeeNumberId).Some?
    ensures var r := Reembed(cols, newDescription, synonyms, embed, stamp, reason).cols;
      && PayloadAt(r, Glossary, EmployeeNumberId).Some?
      && r[Glossary][EmployeeNumberId]
         == Point(embed(ReembedText(newDescription, synonyms)),
                  SetKeys(cols[Glossary][EmployeeNumberId].payload, map[DescriptionKey := Str(newDescription)]))
  {
  }

  /** A seeded glossary payload whose synonyms and then description were rewritten reads back as the edited term. */
  lemma ReadEditedGlossaryTerm(g: Seeder.GlossaryTerm, synonyms: seq<string>, description: string)
    ensures Seeder.ReadGlossaryTerm(g.id, SetKeys(SetKeys(Seeder.GlossaryPayload(g), map[SynonymsKey := StrList(synonyms)]),
                                                  map[DescriptionKey := Str(description)]))
         == Some(Seeder.GlossaryTerm(g.id, g.originalId, g.title, description, synonyms))
  {
  }

  /** Reading a glossary term does not look at the history key. */
  lemma ReadIgnoresHistory(id: int, p: Payload, q: Payload)
    requires SameExceptHistory(p, q)
    ensures Seeder.ReadGlossaryTerm(id, q) == Seeder.ReadGlossaryTerm(id, p)
  {
    assert "type" != HistoryKey && "original_id" != HistoryKey && "title" != HistoryKey;
    assert "description" != HistoryKey && "synonyms" != HistoryKey;
  }

  /**
   When the batch's first update is the last one naming term 1, the
   re-embedding uses the synonyms term 1 then holds: after the three sections
   the term reads back with its stored title, the new description and those
   synonyms, and its vector is the embedding of exactly that term's text.
   */
  lemma SectionsReembedStoredTerm(cols: Collections, updates: seq<SynonymUpdate>, clock: seq<string>,
                                  hits: seq<int>, catalogDescription: string, catalogStamp: string, catalogReason: string,
                                  termDescription: string, embed: string -> Vector, termStamp: string, termReason: string,
                                  g: Seeder.GlossaryTerm)
    requires |clock| == |updates| && updates != []
    requires hits != [] ==> PayloadAt(cols, Catalog, hits[0]).Some?
    requires PayloadAt(cols, Glossary, EmployeeNumberId) == Some(Seeder.GlossaryPayload(g))
    requires g.id == EmployeeNumberId && g.title == EmployeeNumberTitle
    requires LastUpdateFor(updates, EmployeeNumberId) == Some(updates[0])
    ensures var r := Sections(cols, updates, clock, hits, catalogDescription, catalogStamp, catalogReason,
                              termDescription, embed, termStamp, termReason).cols;
      var now := Seeder.GlossaryTerm(EmployeeNumberId, g.originalId, g.title, termDescription, updates[0].newSynonyms);
      && PayloadAt(r, Glossary, EmployeeNumberId).Some?
      && Seeder.ReadGlossaryTerm(EmployeeNumberId, r[Glossary][EmployeeNumberId].payload) == Some(now)
      && r[Glossary][EmployeeNumberId].vector == embed(Seeder.GlossaryText(now))
  {
    var syn := updates[0].newSynonyms;
    var b1 := SynonymUpdates(cols, updates, clock).cols;
    TermAfterBatch(cols, updates, clock, g);
    SynonymUpdatesKeepsPoints(cols, updates, clock);
    var b2 := DescriptionUpdate(b1, hits, catalogDescription, catalogStamp, catalogReason).cols;
    DescriptionUpdateKeepsGlossary(b1, hits, catalogDescription, catalogStamp, catalogReason, EmployeeNumberId);
    var b3 := Reembed(b2, termDescription, syn, embed, termStamp, termReason).cols;
    ReembedPoint(b2, termDescription, syn, embed, termStamp, termReason);
    ReadEditedGlossaryTerm(g, syn, termDescription);
    ReembedTextIsGlossaryText(termDescription, syn, g.originalId);
  }

  /** Writing the change log back touches only histories, so term 1 stays consistent to the end of the script. */
  lemma ScriptReembedStoredTerm(cols: Collections, updates: seq<SynonymUpdate>, clock: seq<string>,
                                hits: seq<int>, catalogDescription: string, catalogStamp: string, catalogReason: string,
                                termDescription: string, embed: string -> Vector, termStamp: string, termReason: string,
                                g: Seeder.GlossaryTerm)
    requires |clock| == |updates| && updates != []
    requires hits != [] ==> PayloadAt(cols, Catalog, hits[0]).Some?
    requires PayloadAt(cols, Glossary, EmployeeNumberId) == Some(Seeder.GlossaryPayload(g))
    requires g.id == EmployeeNumberId && g.title == EmployeeNumberTitle
    requires LastUpdateFor(updates, EmployeeNumberId) == Some(updates[0])
    ensures var r := Sections(cols, updates, clock, hits, catalogDescription, catalogStamp, catalogReason,
                              termDescription, embed, termStamp, termReason);
      var final := RecordAll(r.cols, r.log).cols;
      var now := Seeder.GlossaryTerm(EmployeeNumberId, g.originalId, g.title, termDescription, updates[0].newSynonyms);
      && PayloadAt(final, Glossary, EmployeeNumberId).Some?
      && Seeder.ReadGlossaryTerm(EmployeeNumberId, final[Glossary][EmployeeNumberId].payload) == Some(now)
      && final[Glossary][EmployeeNumberId].vector == embed(Seeder.GlossaryText(now))
  {
    var r := Sections(cols, updates, clock, hits, catalogDescription, catalogStamp, catalogReason,
                      termDescription, embed, termStamp, termReason);
    SectionsReembedStoredTerm(cols, updates, clock, hits, catalogDescription, catalogStamp, catalogReason,
                              termDescription, embed, termStamp, termReason, g);
    SectionsAddressed(cols, updates, clock, hits, catalogDescription, catalogStamp, catalogReason,
                      termDescription, embed, termStamp, termReason);
    RecordAllHistories(r.cols, r.log);
    ReadIgnoresHistory(EmployeeNumberId, r.cols[Glossary][EmployeeNumberId].payload,
                       RecordAll(r.cols, r.log).cols[Glossary][EmployeeNumberId].payload);
  }

  // ---------------------------------------------------------------------------
  // The mutator
  // ---------------------------------------------------------------------------

  class Mutator {
    const store: Store
    /** The change log of this run, in the order the changes were made. */
    var updateHistory: seq<Entry>

    constructor (s: Store)
      ensures store == s && updateHistory == []
    {
      store := s;
      updateHistory := [];
    }

    /** One element of section (1): write the new synonyms of a term that exists and log the change. */
    method ApplySynonymUpdate(u: SynonymUpdate, stamp: string)
      modifies this, store
      ensures store.collections == SynonymStep(old(store.collections), u, stamp).cols
      ensures updateHistory == old(updateHistory) + SynonymStep(old(store.collections), u, stamp).log
    {
      var existing := PayloadAt(store.collections, Glossary, u.id);
      if existing.Some? {
        var oldSynonyms := PriorSynonyms(existing.value);
        var _ := store.SetPayload(Glossary, u.id, map[SynonymsKey := StrList(u.newSynonyms)]);
        updateHistory := updateHistory + [Entry(Some(stamp), Some(Glossary), u.id, Some(SynonymsKey),
                                                Some(oldSynonyms), Some(StrList(u.newSynonyms)), Some(u.reason))];
      }
    }

    /** Section (1): every update of the batch, in order; terms that are missing are skipped. */
    method BatchSynonymUpdate(updates: seq<SynonymUpdate>, clock: seq<string>)
      requires |clock| == |updates|
      modifies this, store
      ensures store.collections == SynonymUpdates(old(store.collections), updates, clock).cols
      ensures updateHistory == old(updateHistory) + SynonymUpdates(old(store.collections), updates, clock).log
    {
      ghost var cols0 := store.collections;
      ghost var history0 := updateHistory;
      var i := 0;
      while i < |updates|
        invariant 0 <= i <= |updates|
        invariant store.collections == SynonymUpdates(cols0, updates[..i], clock[..i]).cols
        invariant updateHistory == history0 + SynonymUpdates(cols0, updates[..i], clock[..i]).log
      {
        ApplyNext(cols0, history0, updates, clock, i);
        i := i + 1;
      }
      assert updates[..|updates|] == updates && clock[..|clock|] == clock;
    }

    /** The `i`-th pass of the batch loop, after the first `i` updates were applied. */
    method ApplyNext(ghost cols0: Collections, ghost history0: seq<Entry>,
                     updates: seq<SynonymUpdate>, clock: seq<string>, i: int)
      requires |clock| == |updates| && 0 <= i < |updates|
      requires store.collections == SynonymUpdates(cols0, updates[..i], clock[..i]).cols
      requires updateHistory == history0 + SynonymUpdates(cols0, updates[..i], clock[..i]).log
      modifies this, store
      ensures store.collections == SynonymUpdates(cols0, updates[..i + 1], clock[..i + 1]).cols
      ensures updateHistory == history0 + SynonymUpdates(cols0, updates[..i + 1], clock[..i + 1]).log
    {
      SynonymUpdatesSnoc(cols0, updates, clock, i);
      ApplySynonymUpdate(updates[i], clock[i]);
    }

    /** Section (2): the first hit of the catalog filter gets the new description unless it has it. */
    method ConditionalDescriptionUpdate(hits: seq<int>, newDescription: string, stamp: string, reason: string)
      requires hits != [] ==> PayloadAt(store.collections, Catalog, hits[0]).Some?
      modifies this, store
      ensures store.collections == DescriptionUpdate(old(store.collections), hits, newDescription, stamp, reason).cols
      ensures updateHistory == old(updateHistory) + DescriptionUpdate(old(store.collections), hits, newDescription, stamp, reason).log
    {
      if hits != [] {
        var id := hits[0];
        var oldDescription := CurrentDescription(store.collections[Catalog][id].payload);
        if oldDescription != Str(newDescription) {
          var _ := store.SetPayload(Catalog, id, map[DescriptionKey := Str(newDescription)]);
          updateHistory := updateHistory + [Entry(Some(stamp), Some(Catalog), id, Some(DescriptionKey),
                                                  Some(oldDescription), Some(Str(newDescription)), Some(reason))];
        }
      }
    }

    /** Section (3): re-embed term 1 from its new description and synonyms, then store the description. */
    method RewriteDescription(newDescription: string, synonyms: seq<string>, embed: string -> Vector,
                              stamp: string, reason: string)
      modifies this, store
      ensures store.collections == Reembed(old(store.collections), newDescription, synonyms, embed, stamp, reason).cols
      ensures updateHistory == old(updateHistory) + Reembed(old(store.collections), newDescription, synonyms, embed, stamp, reason).log
    {
      var existing := PayloadAt(store.collections, Glossary, EmployeeNumberId);
      if existing.Some? {
        var oldDescription := CurrentDescription(existing.value);
        var newVector := embed(ReembedText(newDescription, synonyms));
        var _ := store.UpdateVector(Glossary, EmployeeNumberId, newVector);
        var _ := store.SetPayload(Glossary, EmployeeNumberId, map[DescriptionKey := Str(newDescription)]);
        updateHistory := updateHistory + [Entry(Some(stamp), Some(Glossary), EmployeeNumberId, Some(ReembedField),
                                                Some(oldDescription), Some(Str(newDescription)), Some(reason))];
      }
    }

    /**
     One pass of section (4): append `item` to the history of the point it is
     about (or start one when the payload is empty), keeping five.
     */
    method RecordEntry(item: Entry) returns (ok: bool)
      modifies store
      ensures ok == RecordOne(old(store.collections), item).Some?
      ensures ok ==> store.collections == RecordOne(old(store.collections), item).value
      ensures !ok ==> store.collections == old(store.collections)
    {
      var c := CollectionOf(item);
      var existing := PayloadAt(store.collections, c, item.pointId);
      var history := if existing.Some? && existing.value != map[] then AppendCapped(HistoryOf(existing.value), item)
                     else [item];
      ok := store.SetPayload(c, item.pointId, map[HistoryKey := EntryList(history)]);
    }

    /**
     Section (4): append every logged entry to the history of the point it is
     about, keeping five; a write that fails stops the loop and reports false.
     */
    method RecordHistory() returns (ok: bool)
      modifies store
      ensures store.collections == RecordAll(old(store.collections), updateHistory).cols
      ensures ok == RecordAll(old(store.collections), updateHistory).completed
    {
      ok := true;
      if updateHistory != [] {
        var all := updateHistory;
        var i := 0;
        while i < |all| && ok
          invariant 0 <= i <= |all|
          invariant Run(store.collections, ok) == RecordAll(old(store.collections), all[..i])
        {
          RecordAllSnoc(old(store.collections), all, i);
          ok := RecordEntry(all[i]);
          i := i + 1;
        }
        if ok {
          assert all[..i] == all;
        } else {
          RecordAllStopped(old(store.collections), all, i);
        }
      }
    }

    /**
     The script end to end: after sections (1) to (3) every logged entry
     addresses a point that exists, so section (4) always completes.
     */
    method RunAll(updates: seq<SynonymUpdate>, clock: seq<string>,
                  hits: seq<int>, catalogDescription: string, catalogStamp: string, catalogReason: string,
                  termDescription: string, embed: string -> Vector, termStamp: string, termReason: string)
      returns (ok: bool)
      requires |clock| == |updates| && updates != []
      requires hits != [] ==> PayloadAt(store.collections, Catalog, hits[0]).Some?
      requires updateHistory == []
      modifies this, store
      ensures ok
      ensures updateHistory == Sections(old(store.collections), updates, clock, hits, catalogDescription, catalogStamp,
                                        catalogReason, termDescription, embed, termStamp, termReason).log
      ensures store.collections == RecordAll(Sections(old(store.collections), updates, clock, hits, catalogDescription,
                                                      catalogStamp, catalogReason, termDescription, embed, termStamp,
                                                      termReason).cols, updateHistory).cols
      ensures SamePoints(old(store.collections), store.collections)
    {
      ghost var r := Sections(store.collections, updates, clock, hits, catalogDescription, catalogStamp, catalogReason,
                              termDescription, embed, termStamp, termReason);
      ghost var start := store.collections;
      ghost var b1 := SynonymUpdates(start, updates, clock);
      BatchSynonymUpdate(updates, clock);
      assert updateHistory == b1.log;
      SynonymUpdatesState(start, updates, clock);
      ghost var b2 := DescriptionUpdate(b1.cols, hits, catalogDescription, catalogStamp, catalogReason);
      ConditionalDescriptionUpdate(hits, catalogDescription, catalogStamp, catalogReason);
      ghost var b3 := Reembed(b2.cols, termDescription, updates[0].newSynonyms, embed, termStamp, termReason);
      RewriteDescription(termDescription, updates[0].newSynonyms, embed, termStamp, termReason);
      assert r == Batch(b3.cols, b1.log + b2.log + b3.log);

      SectionsAddressed(start, updates, clock, hits, catalogDescription, catalogStamp, catalogReason,
                        termDescription, embed, termStamp, termReason);
      RecordAllHistories(store.collections, updateHistory);
      ok := RecordHistory();
    }
  }

  /** One more update of the batch. */
  lemma SynonymUpdatesSnoc(cols: Collections, updates: seq<SynonymUpdate>, clock: seq<string>, i: int)
    requires |clock| == |updates| && 0 <= i < |updates|
    ensures var prev := SynonymUpdates(cols, updates[..i], clock[..i]);
      var step := SynonymStep(prev.cols, updates[i], clock[i]);
      SynonymUpdates(cols, updates[..i + 1], clock[..i + 1]) == Batch(step.cols, prev.log + step.log)
  {
    assert updates[..i + 1][..i] == updates[..i] && clock[..i + 1][..i] == clock[..i];
  }

  /** One more entry of the recording loop, after the earlier ones were all written. */
  lemma RecordAllSnoc(cols: Collections, items: seq<Entry>, i: int)
    requires 0 <= i < |items|
    requires RecordAll(cols, items[..i]).completed
    ensures var prev := RecordAll(cols, items[..i]);
      RecordAll(cols, items[..i + 1]) == match RecordOne(prev.cols, items[i])
        case None => Run(prev.cols, false)
        case Some(next) => Run(next, true)
  {
    assert items[..i + 1][..i] == items[..i];
  }

  /** Once a write has failed, the remaining entries are not recorded. */
  lemma {:induction false} RecordAllStopped(cols: Collections, items: seq<Entry>, i: nat)
    requires i <= |items|
    requires !RecordAll(cols, items[..i]).completed
    ensures RecordAll(cols, items) == RecordAll(cols, items[..i])
    decreases |items| - i
  {
    if i < |items| {
      assert items[..i + 1][..i] == items[..i];
      RecordAllStopped(cols, items, i + 1);
    } else {
      assert items[..i] == items;
    }
  }
}
