# HR vector-store demo scripts: a Dafny model

The repository is a set of demo scripts around a vector store. The store holds
three collections: `hr_glossary` (HR terms with synonyms), `hr_sql_history`
(example queries) and `hr_catalog` (table descriptions). An external service
embeds text. Three scripts carry plain sequential logic, and this project
models that logic and proves what the scripts rely on.

- **The seeder** (`01_qdrant_setup.py`) builds an embedding text and a payload
  for every record. It numbers the catalog tables from 1000. It creates each
  collection only when its name is not listed yet, and then upserts the points.
  See `seeder.dfy`.
- **The mutator** (`03_update_demo.py`) runs four sections in order:
  - a batch that replaces the synonyms of several glossary terms;
  - a description update that writes only when the description differs;
  - a re-embedding of term 1 from its new description;
  - a section that writes the run's change log back into the payload of each
    point it is about. Each point keeps only its last five entries.

  See `update_demo.dfy` (the `Mutator` class and the functions that specify
  each section) and `history.dfy` (the capped history).
- **The auditor** (`04_check_updates.py`) reads those histories back. It
  computes:
  - the synonym diff (added and removed);
  - the latest update time of each point;
  - the updated points, sorted newest first;
  - the points whose synonyms ever changed;
  - counts per field and per reason.

  See `audit.dfy`.

The shared pieces are in three more files:

- `payloads.dfy` holds payload values and history entries. `set_payload`
  overwrites only the keys it is given.
- `vector_store.dfy` holds a `Store` class over a map from collection name to
  point id to point. Writing to a missing point fails.
- `strings.dfy` holds Python's `str.join` and string ordering.

Timestamps are opaque strings, ordered like Python `str`. The clock comes in
as a parameter (`clock`, `stamp`), and so does the embedding function
(`embed`).

## Model

| member | source | states |
|---|---|---|
| Payloads.HistoryOfAfterWrite | 03_update_demo.py:253-261 | a history written with `set_payload` is what the next `get("update_history", [])` reads back |
| Payloads.HistoryOfAfterOtherWrite | 03_update_demo.py:96-100 | writing any other key, such as `synonyms` or `description`, leaves the history as it was |
| Payloads.SetKeys | 03_update_demo.py:257-261 | `set_payload` leaves the union of the old and given keys; given keys take the new values and every other key keeps its value |
| Payloads.SetKeysTwice | 03_update_demo.py:96-100 | writing one key twice equals writing only the second value |
| Payloads.GetAfterSetKeys | 03_update_demo.py:149-153 | a key written by `set_payload` reads back as the written value |
| Strings.JoinSnoc | 01_qdrant_setup.py:103-108 | joining one more part appends the separator and that part |
| Strings.LexLeRefl | 04_check_updates.py:136 | string `<=` is reflexive |
| Strings.LexLeTotal | 04_check_updates.py:136 | any two strings are comparable |
| Strings.LexLeTransitive | 04_check_updates.py:136 | string `<=` is transitive |
| Strings.NotLtIsGe | 04_check_updates.py:122-125 | not `b < a` gives `a <= b` |
| VectorStore.WithPayload | 03_update_demo.py:96-100 | `set_payload` on an existing point keeps every point id, merges the given keys into that point's payload, and changes no other point |
| VectorStore.WithVector | 03_update_demo.py:201-204 | `update_vectors` replaces only that point's vector and keeps its payload and every other point |
| VectorStore.UpsertAllKeys | 01_qdrant_setup.py:74 | after `upsert` the collection holds its old ids plus exactly the ids handed over |
| VectorStore.UpsertAllAt | 01_qdrant_setup.py:74 | a point that no later point replaces is stored as handed over |
| VectorStore.UpsertAllStoresAll | 01_qdrant_setup.py:74 | every id handed over is stored; with distinct ids, each point is stored as given |
| VectorStore.UpsertAllKeepsOthers | 01_qdrant_setup.py:74 | a point whose id is not handed over keeps its old vector and payload |
| VectorStore.Store.constructor | 03_update_demo.py:16 | connecting shows the collections the server holds, unchanged |
| VectorStore.Store.CreateCollection | 01_qdrant_setup.py:45-52 | a new, empty collection is added under a name that was free |
| VectorStore.Store.SetPayload | 03_update_demo.py:257-267 | succeeds exactly when the point exists; then the store becomes `WithPayload`, otherwise it is unchanged |
| VectorStore.Store.UpdateVector | 03_update_demo.py:201-204 | succeeds exactly when the point exists; then the store becomes `WithVector`, otherwise it is unchanged |
| VectorStore.Store.Upsert | 01_qdrant_setup.py:74 | succeeds exactly when the collection exists; then it inserts or replaces the points in list order |
| History.LastN | 03_update_demo.py:256 | `s[-n:]` has `min(len(s), n)` elements |
| History.AppendCappedShape | 03_update_demo.py:253-256 | append then cut gives length `min(len+1, 5)`, ends with the new entry, and keeps the latest old entries before it in their old order |
| History.LastNSnoc | 03_update_demo.py:254-256 | cutting to five before or after appending one entry gives the same history |
| History.AppendAllIsLastN | 03_update_demo.py:240-267 | appending entries one at a time with the cut equals the last five of the old history followed by all of them |
| History.AppendAllBounded | 03_update_demo.py:255-256 | after any append a history holds at most five entries |
| History.SevenAppends | 03_update_demo.py:240-267 | seven entries appended to an empty history leave the third to the seventh |
| History.RecordOne | 03_update_demo.py:245-267 | one pass of the recording loop succeeds exactly when the addressed point exists |
| History.NextHistoryIsCappedAppend | 03_update_demo.py:252-267 | both branches of a pass write `(history + [item])[-5:]`: starting `[item]` on an empty payload is the capped append to an empty history; the result holds at most five entries and ends with the item |
| History.RecordOneAt | 03_update_demo.py:257-261 | a pass changes only the addressed point, and only its history key |
| History.RecordedPointSnoc | 03_update_demo.py:253-261 | one more pass on a point extends the entries it has received by one and keeps its vector and other keys |
| History.RecordAllHistories | 03_update_demo.py:240-267 | when every entry addresses an existing point, the loop completes and creates no point; each point's history is its old history with its own entries appended in list order, and its vector and other keys stay |
| History.RecordAllKeepsLastFive | 03_update_demo.py:240-267 | each point's history ends as the last five of its old history followed by the entries addressed to it |
| History.RecordAllStopsAtMissingPoint | 03_update_demo.py:262-267 | a write to a missing point fails, stops the loop and keeps the earlier writes |
| UpdateDemo.LastUpdateFor | 03_update_demo.py:82-100 | gives an update of the list that names the given id, and nothing exactly when no update names it |
| UpdateDemo.LastUpdateForIsLast | 03_update_demo.py:82-100 | the update found is the last one naming the id: no update after it in the list names that term, so the last writer wins |
| UpdateDemo.AfterSynonymsSnoc | 03_update_demo.py:96-100 | a later synonym write to the same term replaces the earlier one |
| UpdateDemo.SynonymUpdatesState | 03_update_demo.py:82-100 | the batch keeps every point and changes no collection but the glossary; each term ends with the synonyms of the last update naming it, and its vector and other keys stay; an id not found is skipped |
| UpdateDemo.Applied | 03_update_demo.py:91 | every update kept for writing and logging names a term that exists |
| UpdateDemo.LastUpdateForApplied | 03_update_demo.py:82-91 | dropping the skipped updates does not change which update names an existing term last |
| UpdateDemo.SynonymStepLogged | 03_update_demo.py:91-113 | an update of an existing term logs one entry. Its field is `synonyms`, its old value is the term's synonyms just before (`[]` when the payload is empty), and its new value is the new list |
| UpdateDemo.SynonymUpdatesLog | 03_update_demo.py:82-113 | the batch logs one entry per update whose term exists, in order, each with the right old and new synonyms and reason; skipped ids log nothing |
| UpdateDemo.DescriptionUpdateEffect | 03_update_demo.py:143-165 | with a hit, the hit's description reads as the new one afterwards; an entry is logged and the store changes only when the old description differed; no other point changes |
| UpdateDemo.DescriptionUpdateIdempotent | 03_update_demo.py:148 | a second run of the conditional update writes and logs nothing |
| UpdateDemo.ReembedTextIsGlossaryText | 03_update_demo.py:194-197 | the re-embedded text uses the same template as the seeder's glossary text, for title `사번` with the given description and synonyms |
| UpdateDemo.ReembedEffect | 03_update_demo.py:187-223 | term 1's vector becomes the embedding of the seeder's text for title `사번`, the new description and the synonyms passed in; its description becomes the new one; one entry with field `vector + description` is logged; no other point changes |
| UpdateDemo.SynonymUpdatesAddressed | 03_update_demo.py:103-113 | every entry the batch logs addresses a point that exists |
| UpdateDemo.DescriptionUpdateAddressed | 03_update_demo.py:155-165 | after the description update, the log, including its new entry, still addresses existing points |
| UpdateDemo.ReembedAddressed | 03_update_demo.py:213-223 | after the re-embedding, the log, including its new entry, still addresses existing points |
| UpdateDemo.SynonymUpdatesKeepsPoints | 03_update_demo.py:82-100 | the batch creates and removes no point |
| UpdateDemo.SectionsAddressed | 03_update_demo.py:82-223 | sections (1) to (3) keep every point, and every entry they log addresses a point that exists |
| UpdateDemo.TermAfterBatch | 03_update_demo.py:82-100 | when the batch's first update is the last one naming term 1, term 1's seeded payload ends with that update's synonyms and every other key as seeded |
| UpdateDemo.DescriptionUpdateKeepsGlossary | 03_update_demo.py:143-165 | the catalog description update leaves every glossary point as it was |
| UpdateDemo.ReembedPoint | 03_update_demo.py:194-210 | the re-embedded point gets the embedding of the new text as its vector, and the new description written over its payload |
| UpdateDemo.ReadEditedGlossaryTerm | 01_qdrant_setup.py:62-71 | a seeded glossary payload whose synonyms and then description were rewritten reads back as the term with those synonyms and that description |
| UpdateDemo.ReadIgnoresHistory | 03_update_demo.py:257-261 | writing the history key does not change how a glossary term reads back |
| UpdateDemo.SectionsReembedStoredTerm | 03_update_demo.py:187-204 | when term 1 was seeded with title `사번` and the batch's first update is the last one naming it, the re-embedding uses the synonyms term 1 then holds: after sections (1) to (3) term 1 reads back with its title, the new description and those synonyms, and its vector is the embedding of that term's seeder text |
| UpdateDemo.ScriptReembedStoredTerm | 03_update_demo.py:187-269 | under the same conditions, term 1 still reads back that way and keeps that vector after section (4) writes the histories back |
| UpdateDemo.Mutator.constructor | 03_update_demo.py:80 | the change log starts empty |
| UpdateDemo.Mutator.ApplySynonymUpdate | 03_update_demo.py:84-113 | one pass of the batch loop leaves the store and log as `SynonymStep` specifies |
| UpdateDemo.Mutator.BatchSynonymUpdate | 03_update_demo.py:82-118 | the loop leaves the store and log as `SynonymUpdates` specifies; the effect is given by `SynonymUpdatesState` and `SynonymUpdatesLog` |
| UpdateDemo.Mutator.ApplyNext | 03_update_demo.py:82-113 | the `i`-th pass extends the batch from the first `i` updates to the first `i + 1` |
| UpdateDemo.Mutator.ConditionalDescriptionUpdate | 03_update_demo.py:143-169 | leaves the store and log as `DescriptionUpdate` specifies |
| UpdateDemo.Mutator.RewriteDescription | 03_update_demo.py:187-223 | updates the vector, then the description, and logs one entry, as `Reembed` specifies |
| UpdateDemo.Mutator.RecordEntry | 03_update_demo.py:241-267 | one pass of the recording loop: succeeds as `RecordOne` does and leaves its store |
| UpdateDemo.Mutator.RecordHistory | 03_update_demo.py:236-269 | the recording loop leaves the store as `RecordAll` specifies, and reports whether every write succeeded |
| UpdateDemo.Mutator.RunAll | 03_update_demo.py:82-269 | the change log is the one sections (1) to (3) build, in order; the final store is that log written back by `RecordAll` onto the store the three sections leave; no write fails; no point is created or removed |
| UpdateDemo.RecordAllStopped | 03_update_demo.py:240-267 | after a failed write the remaining entries are not recorded |
| Audit.SynonymDiffLaws | 04_check_updates.py:76-77 | added is disjoint from old and removed from new; added and removed are disjoint; old minus removed plus added is new, and the reverse gives old |
| Audit.SynonymDiffEmpty | 04_check_updates.py:267-268 | the diff is empty exactly when the two sets are equal, so diffing a list with itself gives nothing |
| Audit.SynonymDiffSwap | 04_check_updates.py:267-268 | swapping old and new swaps added and removed |
| Audit.SynonymDiffExample | 04_check_updates.py:267-268 | the demo's term 1 diff: five synonyms added and two removed |
| Audit.EntryDiffOfSynonymEntry | 04_check_updates.py:65-85 | an entry of the synonym batch with two non-empty lists shows the set diff of those lists |
| Audit.WithField | 04_check_updates.py:248 | the filter keeps exactly the entries whose field is the one asked for |
| Audit.LatestSynonymsEntryIsLast | 04_check_updates.py:248-251 | the comparison uses the last history entry whose field is `synonyms` |
| Audit.LatestSynonymsEntryNone | 04_check_updates.py:248-250 | there is no synonyms entry exactly when no entry has field `synonyms` |
| Audit.CompareAfterSynonymBatch | 04_check_updates.py:242-268 | when the last synonyms entry is one the batch logged, the before/after section shows the diff of that update's old and new synonyms |
| Audit.Stamps | 04_check_updates.py:123 | the collected timestamps are all non-empty |
| Audit.StampsAreTimestamps | 04_check_updates.py:123 | a string is collected exactly when some entry has it as a non-empty timestamp |
| Audit.MaxStringIsMaximum | 04_check_updates.py:122-125 | `max` returns one of the strings, and no string is greater |
| Audit.LatestTimestampIsLatest | 04_check_updates.py:122-125 | the latest update is `""` exactly when no entry has a non-empty timestamp; otherwise it is some entry's timestamp and no timestamp is later |
| Audit.HasHistoryIff | 04_check_updates.py:118-120 | a point counts as updated exactly when its history is non-empty |
| Audit.SummariesExact | 04_check_updates.py:116-133 | exactly the points with a non-empty history are listed, each with its own summary |
| Audit.CollectUpdated | 04_check_updates.py:116-133 | the loop builds exactly the summaries of the updated points, in scroll order |
| Audit.AdjacentDescIsSorted | 04_check_updates.py:136 | when each neighbour is not later than the one before it, the whole list is ordered newest first |
| Audit.SwapKeepsOrder | 04_check_updates.py:136 | swapping the moving summary past an older neighbour keeps both ordered runs ordered and the contents unchanged |
| Audit.InsertLeft | 04_check_updates.py:136 | one insertion pass extends the ordered prefix by one element and permutes the array |
| Audit.SortByLatestDesc | 04_check_updates.py:136 | the array ends ordered newest first and is a permutation of its old contents |
| Audit.RecentlyUpdated | 04_check_updates.py:116-136 | the report is a permutation of the updated points' summaries, ordered newest first |
| Audit.FindFieldChange | 04_check_updates.py:169-178 | the scan finds an entry exactly when some entry of the history has that field |
| Audit.SynonymsUpdated | 04_check_updates.py:164-178 | the loop builds exactly `SynonymHits`, one hit per point with a synonyms entry, in scroll order |
| Audit.SynonymHitsExact | 04_check_updates.py:164-178 | a point is listed if and only if its payload is non-empty and some entry has field `synonyms`; every hit comes from such a point |
| Audit.SynonymHitIds | 04_check_updates.py:171-177 | every listed id is the id of a scrolled point |
| Audit.SynonymHitsDistinct | 04_check_updates.py:169-178 | with distinct point ids, no point is listed twice |
| Audit.TallySnoc | 04_check_updates.py:212-213 | counting one more entry adds one under its key |
| Audit.TallyCounts | 04_check_updates.py:205-213 | a counter has a key exactly when some entry has it, and then holds that key's number of entries; a missing field or reason counts as `unknown` |
| Audit.MapSumIncrement | 04_check_updates.py:212-213 | adding one under a key raises the sum of a counter by one |
| Audit.TallySum | 04_check_updates.py:201-213 | a counter's values add up to the number of entries counted |
| Audit.CountEntries | 04_check_updates.py:207-213 | the inner loop counts one history's entries on top of the counts so far |
| Audit.Statistics | 04_check_updates.py:201-213 | the total is the number of history entries, the two counters are the per-field and per-reason tallies, and each counter's values add up to the total |
| Seeder.GlossaryTextLayout | 01_qdrant_setup.py:60 | the glossary text is the title, the description and the comma-joined synonyms, with ` :: ` between each two |
| Seeder.SqlTextLayout | 01_qdrant_setup.py:81 | the SQL text is the title, the description and the query, with ` :: ` between each two |
| Seeder.ColumnLineLayout | 01_qdrant_setup.py:105 | a column line is the name, `: `, the description, ` :: ` and the data type; a missing description reads as `""` |
| Seeder.CatalogTextLayout | 01_qdrant_setup.py:103-109 | the catalog text is `table: description`, then `\nColumns:\n `, then the column lines |
| Seeder.CatalogTextSnoc | 01_qdrant_setup.py:103-109 | one more column adds one newline-separated line at the end |
| Seeder.CatalogPayload | 01_qdrant_setup.py:115-119 | catalog payloads carry no `type` tag and no history |
| Seeder.GlossaryPayloadRoundTrip | 01_qdrant_setup.py:62-71 | a glossary point keeps the term's id and every field of it, tagged `glossary` and not `history` |
| Seeder.SqlPayloadRoundTrip | 01_qdrant_setup.py:83-92 | an SQL point keeps the example's id and every field of it, tagged `history` and not `glossary` |
| Seeder.CatalogPayloadRoundTrip | 01_qdrant_setup.py:115-119 | a catalog point keeps the table's name, description and columns |
| Seeder.BuildGlossaryPoints | 01_qdrant_setup.py:58-73 | one point per term, in term order: the term's id, the embedding of its text and its payload |
| Seeder.BuildSqlPoints | 01_qdrant_setup.py:79-94 | one point per example, in order: the example's id, the embedding of its text and its payload |
| Seeder.BuildCatalogPoints | 01_qdrant_setup.py:99-122 | one point per table, in order, numbered 1000, 1001, …; the ids are distinct and are exactly 1000 to 1000 + n − 1 |
| Seeder.EnsureCollection | 01_qdrant_setup.py:40-52 | creates an empty collection exactly when the name is not listed, and otherwise changes nothing |
| Seeder.EnsureCollectionTwice | 01_qdrant_setup.py:42-52 | a second call creates nothing, so the collection is created at most once |
| Seeder.EnsureAndUpsert | 01_qdrant_setup.py:40-74 | the collection becomes the one that was there (or a new, empty one) with the points upserted in list order: points not handed over stay, every id handed over is stored, as given when ids are distinct; other collections are untouched |
| Seeder.SeedGlossary | 01_qdrant_setup.py:55-74 | only `hr_glossary` changes; every term has a point under its id; with distinct ids, each point holds the embedding of the term's text and its payload |
| Seeder.SeedSqlHistory | 01_qdrant_setup.py:76-95 | only `hr_sql_history` changes; every example has a point under its id; with distinct ids, each point holds the embedding of the example's text and its payload |
| Seeder.SeedCatalog | 01_qdrant_setup.py:97-123 | only `hr_catalog` changes; table `i` is stored under id `1000 + i` with the embedding of its text and its payload |
| Seeder.UpsertTables | 01_qdrant_setup.py:99-123 | upserting the numbered table points stores table `i` under id `1000 + i` |
| Seeder.Seed | 01_qdrant_setup.py:55-123 | the three collections exist afterwards; every term, example and table is stored as in the three rows above; no other collection changes |

## Left out

- The vector-store client beyond a map from collection and point id to
  payload and vector is not modelled: collection parameters (HNSW,
  distance, on-disk storage), payload indexes, similarity search and scroll
  paging (`limit=100`, `limit=10`). A scroll result is an input list.
- Payload-index creation and the try/except around it
  (03_update_demo.py:279-289, 01_qdrant_setup.py:57 and 78) are left out.
  They change nothing that the scripts read back.
- The embedding service is the parameter `embed`. Its floating-point output
  is opaque. `datetime.now()` is the parameter `clock`/`stamp`. Timestamp
  parsing and formatting (`fromisoformat`, `strftime`) are display only.
- Printing and display-only slicing (`[:5]`, `[:3]`, `[:10]`, `[:80]`) are
  left out, and so are the section headers and the summary printout.
- `02_read_demo.py` is not part of this model. It is search calls, timing and
  printing.
- `dummy_data_hr.py` is not part of this model. It is static sample data, and
  the seeder takes the records as inputs.
- The catalog filter in section (2) of the mutator is not modelled. Besides
  `table`, it matches the keys `level` and `column`, which the seeder never
  writes, so in practice it finds nothing. The hits are an input list that may be empty.
- Reading a point from a collection that does not exist makes the real client
  raise. The model treats it as "no such point".
- A write that fails makes the real client raise and the script stop. The
  model reports `false` and stops the recording loop. Sections (1) to (3)
  write only after finding the point.
- Concurrent writers are not modelled. The scripts are sequential.
- UpdateDemo.Mutator.RunAll: requires a non-empty batch, because section (3)
  reads `updates[0]`. The IndexError an empty batch would raise is not
  modelled. It also requires that the first catalog hit is a stored catalog
  point, which holds when the hits come from a scroll of that collection.
- UpdateDemo.SynonymUpdatesLog: states only that each entry has a timestamp.
  The timestamp's value is the clock reading, which is opaque.
- Audit.SortByLatestDesc: proves ordered newest first and a permutation. It
  does not prove the stability of Python's sort, i.e. that ties keep scroll
  order.
- Audit.RecentlyUpdated: inherits the same missing stability property.
- Audit.EntryDiff: a new value that is neither a list nor a string gives no
  diff. Python would build a set of its elements or raise TypeError. `set()`
  of such a value is not modelled.
