/**
 The seeder: builds one point per glossary term, per SQL example and per
 catalog table, with an embedding text made from the record's fields, and
 upserts them into three collections that it first creates when missing.
 The embedding provider is the parameter `embed`.
 */
module Seeder {
  import opened Payloads
  import opened Strings
  import opened VectorStore

  const GlossaryCollection: string := "hr_glossary"
  const SqlHistoryCollection: string := "hr_sql_history"
  const CatalogCollection: string := "hr_catalog"

  /** Catalog points are numbered from here, one per table. */
  const FirstCatalogId: int := 1000

  /** Separator between the fields of an embedding text. */
  const FieldSep: string := " :: "

  datatype GlossaryTerm = GlossaryTerm(id: int, originalId: string, title: string, description: string, synonyms: seq<string>)
  datatype SqlExample = SqlExample(id: int, originalId: string, title: string, description: string, sql: string)
  datatype CatalogTable = CatalogTable(table: string, description: string, columns: seq<Column>)

  // ---------------------------------------------------------------------------
  // Embedding texts
  // ---------------------------------------------------------------------------

  /** `f"{title} :: {description} :: {', '.join(synonyms)}"`. */
  function GlossaryText(g: GlossaryTerm): string {
    g.title + FieldSep + g.description + FieldSep + Join(", ", g.synonyms)
  }

  /** `f"{title} :: {description} :: {sql}"`. */
  function SqlText(h: SqlExample): string {
    h.title + FieldSep + h.description + FieldSep + h.sql
  }

  /** `f"{name}: {col.get('description', '')} :: {dtype}"`. */
  function ColumnLine(c: Column): string {
    c.name + ": " + c.description.GetOr("") + FieldSep + c.dtype
  }

  function ColumnLines(cols: seq<Column>): seq<string> {
    seq(|cols|, i requires 0 <= i < |cols| => ColumnLine(cols[i]))
  }

  /** `f"{table}: {description}\nColumns:\n {cols}"` with the column lines joined by newlines. */
  function CatalogText(t: CatalogTable): string {
    t.table + ": " + t.description + "\nColumns:\n " + Join("\n", ColumnLines(t.columns))
  }

  /** The glossary text is the title, the description and the comma-joined synonyms, " :: " between each two. */
  lemma GlossaryTextLayout(g: GlossaryTerm)
    ensures var r := GlossaryText(g); var syn := Join(", ", g.synonyms);
      && |r| == |g.title| + |g.description| + |syn| + 2 * |FieldSep|
      && r[..|g.title|] == g.title
      && r[|g.title|..|g.title| + |FieldSep|] == FieldSep
      && r[|g.title| + |FieldSep|..|g.title| + |FieldSep| + |g.description|] == g.description
      && r[|r| - |syn| - |FieldSep|..|r| - |syn|] == FieldSep
      && r[|r| - |syn|..] == syn
  {
  }

  /** The SQL text is the title, the description and the query, " :: " between each two. */
  lemma SqlTextLayout(h: SqlExample)
    ensures var r := SqlText(h);
      && |r| == |h.title| + |h.description| + |h.sql| + 2 * |FieldSep|
      && r[..|h.title|] == h.title
      && r[|h.title|..|h.title| + |FieldSep|] == FieldSep
      && r[|h.title| + |FieldSep|..|h.title| + |FieldSep| + |h.description|] == h.description
      && r[|r| - |h.sql| - |FieldSep|..|r| - |h.sql|] == FieldSep
      && r[|r| - |h.sql|..] == h.sql
  {
  }

  /** A column line is name, ": ", description, " :: ", data type; a missing description reads as empty. */
  lemma ColumnLineLayout(c: Column)
    ensures var r := ColumnLine(c); var d := c.description.GetOr("");
      && |r| == |c.name| + |d| + |c.dtype| + 2 + |FieldSep|
      && r[..|c.name|] == c.name
      && r[|c.name| + 2..|c.name| + 2 + |d|] == d
      && r[|r| - |c.dtype|..] == c.dtype
    ensures c.description.None? ==> ColumnLine(c) == c.name + ":  :: " + c.dtype
  {
  }

  /** The catalog text is the table line, "Columns:", then one line per column in order. */
  lemma CatalogTextLayout(t: CatalogTable)
    ensures var r := CatalogText(t); var body := Join("\n", ColumnLines(t.columns));
      && |r| == |t.table| + |t.description| + |body| + 13
      && r[..|t.table|] == t.table
      && r[|t.table| + 2..|t.table| + 2 + |t.description|] == t.description
      && r[|t.table| + 2 + |t.description|..|t.table| + 13 + |t.description|] == "\nColumns:\n "
      && r[|r| - |body|..] == body
    ensures t.columns == [] ==> CatalogText(t) == t.table + ": " + t.description + "\nColumns:\n "
    ensures |t.columns| == 1 ==> CatalogText(t) == t.table + ": " + t.description + "\nColumns:\n " + ColumnLine(t.columns[0])
  {
  }

  /** Adding a column adds one newline-separated line at the end of the catalog text. */
  lemma CatalogTextSnoc(t: CatalogTable, c: Column)
    requires t.columns != []
    ensures CatalogText(CatalogTable(t.table, t.description, t.columns + [c])) == CatalogText(t) + "\n" + ColumnLine(c)
  {
    assert ColumnLines(t.columns + [c]) == ColumnLines(t.columns) + [ColumnLine(c)];
    JoinSnoc("\n", ColumnLines(t.columns), ColumnLine(c));
  }

  // ---------------------------------------------------------------------------
  // Payloads and the readers that invert them
  // ---------------------------------------------------------------------------

  function GlossaryPayload(g: GlossaryTerm): Payload {
    map["type" := Str("glossary"), "original_id" := Str(g.originalId), "title" := Str(g.title),
        "description" := Str(g.description), "synonyms" := StrList(g.synonyms)]
  }

  function SqlPayload(h: SqlExample): Payload {
    map["type" := Str("history"), "original_id" := Str(h.originalId), "title" := Str(h.title),
        "description" := Str(h.description), "sql" := Str(h.sql)]
  }

  /** Catalog payloads carry no `type` tag. */
  function CatalogPayload(t: CatalogTable): (p: Payload)
    ensures HistoryKey !in p && "type" !in p
  {
    map["table" := Str(t.table), "description" := Str(t.description), "columns" := ColumnList(t.columns)]
  }

  /** Reads a glossary term back from a point id and its payload. */
  function ReadGlossaryTerm(id: int, p: Payload): Option<GlossaryTerm> {
    if && "type" in p && p["type"] == Str("glossary")
       && "original_id" in p && p["original_id"].Str?
       && "title" in p && p["title"].Str?
       && "description" in p && p["description"].Str?
       && "synonyms" in p && p["synonyms"].StrList?
    then Some(GlossaryTerm(id, p["original_id"].s, p["title"].s, p["description"].s, p["synonyms"].items))
    else None
  }

  /** Reads an SQL example back from a point id and its payload. */
  function ReadSqlExample(id: int, p: Payload): Option<SqlExample> {
    if && "type" in p && p["type"] == Str("history")
       && "original_id" in p && p["original_id"].Str?
       && "title" in p && p["title"].Str?
       && "description" in p && p["description"].Str?
       && "sql" in p && p["sql"].Str?
    then Some(SqlExample(id, p["original_id"].s, p["title"].s, p["description"].s, p["sql"].s))
    else None
  }

  /** Reads a catalog table back from its payload. */
  function ReadCatalogTable(p: Payload): Option<CatalogTable> {
    if && "table" in p && p["table"].Str?
       && "description" in p && p["description"].Str?
       && "columns" in p && p["columns"].ColumnList?
    then Some(CatalogTable(p["table"].s, p["description"].s, p["columns"].columns))
    else None
  }

  /** A glossary point keeps the term's id and every field of it, tagged "glossary". */
  lemma GlossaryPayloadRoundTrip(g: GlossaryTerm)
    ensures ReadGlossaryTerm(g.id, GlossaryPayload(g)) == Some(g)
    ensures ReadSqlExample(g.id, GlossaryPayload(g)) == None
  {
  }

  /** An SQL point keeps the example's id and every field of it, tagged "history". */
  lemma SqlPayloadRoundTrip(h: SqlExample)
    ensures ReadSqlExample(h.id, SqlPayload(h)) == Some(h)
    ensures ReadGlossaryTerm(h.id, SqlPayload(h)) == None
  {
  }

  /** A catalog point keeps the table's name, description and columns. */
  lemma CatalogPayloadRoundTrip(t: CatalogTable)
    ensures ReadCatalogTable(CatalogPayload(t)) == Some(t)
  {
  }

  // ---------------------------------------------------------------------------
  // Building the point lists
  // ---------------------------------------------------------------------------

  method BuildGlossaryPoints(gs: seq<GlossaryTerm>, embed: string -> Vector) returns (pts: seq<PointStruct>)
    ensures |pts| == |gs|
    ensures forall i :: 0 <= i < |gs| ==>
      pts[i] == PointStruct(gs[i].id, embed(GlossaryText(gs[i])), GlossaryPayload(gs[i]))
  {
    pts := [];
    for i := 0 to |gs|
      invariant |pts| == i
      invariant forall k :: 0 <= k < i ==>
        pts[k] == PointStruct(gs[k].id, embed(GlossaryText(gs[k])), GlossaryPayload(gs[k]))
    {
      var g := gs[i];
      var text := GlossaryText(g);
      pts := pts + [PointStruct(g.id, embed(text), GlossaryPayload(g))];
    }
  }

  method BuildSqlPoints(hs: seq<SqlExample>, embed: string -> Vector) returns (pts: seq<PointStruct>)
    ensures |pts| == |hs|
    ensures forall i :: 0 <= i < |hs| ==>
      pts[i] == PointStruct(hs[i].id, embed(SqlText(hs[i])), SqlPayload(hs[i]))
  {
    pts := [];
    for i := 0 to |hs|
      invariant |pts| == i
      invariant forall k :: 0 <= k < i ==>
        pts[k] == PointStruct(hs[k].id, embed(SqlText(hs[k])), SqlPayload(hs[k]))
    {
      var h := hs[i];
      var text := SqlText(h);
      pts := pts + [PointStruct(h.id, embed(text), SqlPayload(h))];
    }
  }

  /** One point per table, numbered by a counter that starts at 1000. */
  method BuildCatalogPoints(tables: seq<CatalogTable>, embed: string -> Vector) returns (pts: seq<PointStruct>)
    ensures |pts| == |tables|
    ensures forall i :: 0 <= i < |tables| ==>
      pts[i] == PointStruct(FirstCatalogId + i, embed(CatalogText(tables[i])), CatalogPayload(tables[i]))
    ensures DistinctIds(pts)
    ensures forall n :: n in Ids(pts) <==> FirstCatalogId <= n < FirstCatalogId + |tables|
  {
    pts := [];
    var pointIdCounter := FirstCatalogId;
    for i := 0 to |tables|
      invariant |pts| == i
      invariant pointIdCounter == FirstCatalogId + i
      invariant forall k :: 0 <= k < i ==>
        pts[k] == PointStruct(FirstCatalogId + k, embed(CatalogText(tables[k])), CatalogPayload(tables[k]))
    {
      var t := tables[i];
      var textContent := CatalogText(t);
      pts := pts + [PointStruct(pointIdCounter, embed(textContent), CatalogPayload(t))];
      pointIdCounter := pointIdCounter + 1;
    }
    forall n | FirstCatalogId <= n < FirstCatalogId + |tables| ensures n in Ids(pts) {
      assert pts[n - FirstCatalogId].id == n;
    }
  }

  // ---------------------------------------------------------------------------
  // Collections
  // ---------------------------------------------------------------------------

  /** Creates the collection only when its name is not listed yet. */
  method EnsureCollection(store: Store, name: string) returns (created: bool)
    modifies store
    ensures created == (name !in old(store.collections))
    ensures created ==> store.collections == old(store.collections)[name := map[]]
    ensures !created ==> store.collections == old(store.collections)
  {
    var names := store.CollectionNames();
    if name in names {
      return false;
    }
    store.CreateCollection(name);
    created := true;
  }

  /** A second call finds the collection and creates nothing. */
  method EnsureCollectionTwice(store: Store, name: string) returns (first: bool, second: bool)
    modifies store
    ensures first == (name !in old(store.collections)) && !second
    ensures name in store.collections
    ensures store.collections == old(store.collections)[name := if first then map[] else old(store.collections)[name]]
  {
    first := EnsureCollection(store, name);
    second := EnsureCollection(store, name);
  }

  predicate DistinctTermIds(glossary: seq<GlossaryTerm>) {
    forall i, j :: 0 <= i < j < |glossary| ==> glossary[i].id != glossary[j].id
  }

  /**
   `ensure_collection(name)` followed by `upsert(name, pts)`: the collection
   is the one that was there (or a new, empty one) with the points upserted
   in list order, so points not handed over stay; no other collection changes.
   */
  method EnsureAndUpsert(store: Store, name: string, pts: seq<PointStruct>)
    modifies store
    ensures store.collections.Keys == old(store.collections.Keys) + {name}
    ensures forall c :: c in old(store.collections) && c != name ==> store.collections[c] == old(store.collections)[c]
    ensures store.collections[name]
         == UpsertAll(if name in old(store.collections) then old(store.collections)[name] else map[], pts)
    ensures forall id :: name in old(store.collections) && id in old(store.collections)[name] && id !in Ids(pts) ==>
      PointAt(store.collections, name, id) == Some(old(store.collections)[name][id])
    ensures forall i :: 0 <= i < |pts| ==> PointAt(store.collections, name, pts[i].id).Some?
    ensures DistinctIds(pts) ==> forall i :: 0 <= i < |pts| ==>
      PointAt(store.collections, name, pts[i].id) == Some(Point(pts[i].vector, pts[i].payload))
  {
    var created := EnsureCollection(store, name);
    ghost var before := store.collections[name];
    var ok := store.Upsert(name, pts);
    UpsertAllStoresAll(before, pts);
    forall id | name in old(store.collections) && id in old(store.collections)[name] && id !in Ids(pts)
      ensures PointAt(store.collections, name, id) == Some(old(store.collections)[name][id])
    {
      UpsertAllKeepsOthers(before, pts, id);
    }
  }

  predicate DistinctExampleIds(sqlHistory: seq<SqlExample>) {
    forall i, j :: 0 <= i < j < |sqlHistory| ==> sqlHistory[i].id != sqlHistory[j].id
  }

  /** Every term has a point under its id; with distinct ids, its embedding and payload. */
  predicate HoldsTerms(coll: Collection, glossary: seq<GlossaryTerm>, embed: string -> Vector) {
    && (forall i :: 0 <= i < |glossary| ==> glossary[i].id in coll)
    && (DistinctTermIds(glossary) ==> forall i :: 0 <= i < |glossary| ==>
          coll[glossary[i].id] == Point(embed(GlossaryText(glossary[i])), GlossaryPayload(glossary[i])))
  }

  /** Every example has a point under its id; with distinct ids, its embedding and payload. */
  predicate HoldsExamples(coll: Collection, sqlHistory: seq<SqlExample>, embed: string -> Vector) {
    && (forall i :: 0 <= i < |sqlHistory| ==> sqlHistory[i].id in coll)
    && (DistinctExampleIds(sqlHistory) ==> forall i :: 0 <= i < |sqlHistory| ==>
          coll[sqlHistory[i].id] == Point(embed(SqlText(sqlHistory[i])), SqlPayload(sqlHistory[i])))
  }

  /** Table `i` is stored under id 1000 + i with its embedding and payload. */
  predicate HoldsTables(coll: Collection, catalog: seq<CatalogTable>, embed: string -> Vector) {
    forall i :: 0 <= i < |catalog| ==>
      FirstCatalogId + i in coll && coll[FirstCatalogId + i] == Point(embed(CatalogText(catalog[i])), CatalogPayload(catalog[i]))
  }

  /** Ensures the glossary collection and upserts one point per term. */
  method SeedGlossary(store: Store, glossary: seq<GlossaryTerm>, embed: string -> Vector)
    modifies store
    ensures store.collections.Keys == old(store.collections.Keys) + {GlossaryCollection}
    ensures forall c :: c in old(store.collections) && c != GlossaryCollection ==> store.collections[c] == old(store.collections)[c]
    ensures HoldsTerms(store.collections[GlossaryCollection], glossary, embed)
  {
    var gPoints := BuildGlossaryPoints(glossary, embed);
    EnsureAndUpsert(store, GlossaryCollection, gPoints);
    assert DistinctTermIds(glossary) ==> DistinctIds(gPoints);
  }

  /** Ensures the SQL history collection and upserts one point per example. */
  method SeedSqlHistory(store: Store, sqlHistory: seq<SqlExample>, embed: string -> Vector)
    modifies store
    ensures store.collections.Keys == old(store.collections.Keys) + {SqlHistoryCollection}
    ensures forall c :: c in old(store.collections) && c != SqlHistoryCollection ==> store.collections[c] == old(store.collections)[c]
    ensures HoldsExamples(store.collections[SqlHistoryCollection], sqlHistory, embed)
  {
    var hPoints := BuildSqlPoints(sqlHistory, embed);
    EnsureAndUpsert(store, SqlHistoryCollection, hPoints);
    assert DistinctExampleIds(sqlHistory) ==> DistinctIds(hPoints);
  }

  /** Ensures the catalog collection and upserts the tables under ids 1000, 1001, … in table order. */
  method SeedCatalog(store: Store, catalog: seq<CatalogTable>, embed: string -> Vector)
    modifies store
    ensures store.collections.Keys == old(store.collections.Keys) + {CatalogCollection}
    ensures forall c :: c in old(store.collections) && c != CatalogCollection ==> store.collections[c] == old(store.collections)[c]
    ensures HoldsTables(store.collections[CatalogCollection], catalog, embed)
  {
    var catPoints := BuildCatalogPoints(catalog, embed);
    ghost var before := if CatalogCollection in store.collections then store.collections[CatalogCollection] else map[];
    EnsureAndUpsert(store, CatalogCollection, catPoints);
    UpsertTables(before, catPoints, catalog, embed);
  }

  /** Upserting the numbered table points stores table `i` under 1000 + i. */
  lemma UpsertTables(before: Collection, pts: seq<PointStruct>, catalog: seq<CatalogTable>, embed: string -> Vector)
    requires |pts| == |catalog|
    requires forall i :: 0 <= i < |catalog| ==>
      pts[i] == PointStruct(FirstCatalogId + i, embed(CatalogText(catalog[i])), CatalogPayload(catalog[i]))
    ensures HoldsTables(UpsertAll(before, pts), catalog, embed)
  {
    assert DistinctIds(pts);
    UpsertAllStoresAll(before, pts);
    var after := UpsertAll(before, pts);
    forall i | 0 <= i < |catalog|
      ensures FirstCatalogId + i in after && after[FirstCatalogId + i] == Point(embed(CatalogText(catalog[i])), CatalogPayload(catalog[i]))
    {
      var pt := pts[i];
      assert pt.id == FirstCatalogId + i;
      assert pt.id in after && after[pt.id] == Point(pt.vector, pt.payload);
    }
    assert HoldsTables(after, catalog, embed);
  }

  /**
   The whole seeding run: the three collections in turn, each holding its
   records as above; no other collection changes.
   */
  method Seed(store: Store, glossary: seq<GlossaryTerm>, sqlHistory: seq<SqlExample>,
              catalog: seq<CatalogTable>, embed: string -> Vector)
    modifies store
    ensures store.collections.Keys == old(store.collections.Keys) + {GlossaryCollection, SqlHistoryCollection, CatalogCollection}
    ensures forall c :: c in old(store.collections) && c !in {GlossaryCollection, SqlHistoryCollection, CatalogCollection} ==>
      store.collections[c] == old(store.collections)[c]
    ensures HoldsTerms(store.collections[GlossaryCollection], glossary, embed)
    ensures HoldsExamples(store.collections[SqlHistoryCollection], sqlHistory, embed)
    ensures HoldsTables(store.collections[CatalogCollection], catalog, embed)
  {
    assert GlossaryCollection != SqlHistoryCollection && GlossaryCollection != CatalogCollection
        && SqlHistoryCollection != CatalogCollection;
    SeedGlossary(store, glossary, embed);
    SeedSqlHistory(store, sqlHistory, embed);
    SeedCatalog(store, catalog, embed);
  }
}
