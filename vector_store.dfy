/**
 The vector store as the scripts see it: named collections, each a map from
 integer point id to a point (its vector and its payload). Only the calls the
 scripts make are modelled; indexing, search and paging are not.
 */
module VectorStore {
  import opened Payloads

  /** An embedding; its numbers come from the embedding provider and are opaque here. */
  type Vector = seq<real>

  datatype Point = Point(vector: Vector, payload: Payload)

  /** What `upsert` is handed: an id, a vector and a payload. */
  datatype PointStruct = PointStruct(id: int, vector: Vector, payload: Payload)

  type Collection = map<int, Point>
  type Collections = map<string, Collection>

  /** `retrieve(c, [id])`: the point's payload, or nothing when there is no such point. */
  function PayloadAt(cols: Collections, c: string, id: int): Option<Payload> {
    if c in cols && id in cols[c] then Some(cols[c][id].payload) else None
  }

  /** The point stored under `id` in collection `c`, if any. */
  function PointAt(cols: Collections, c: string, id: int): Option<Point> {
    if c in cols && id in cols[c] then Some(cols[c][id]) else None
  }

  /** The same collections holding the same point ids. */
  predicate SamePoints(cols: Collections, cols': Collections) {
    cols'.Keys == cols.Keys && forall c :: c in cols ==> cols'[c].Keys == cols[c].Keys
  }

  /** `set_payload(c, {given}, [id])` on a point that exists. */
  function WithPayload(cols: Collections, c: string, id: int, given: Payload): (r: Collections)
    requires PayloadAt(cols, c, id).Some?
    ensures SamePoints(cols, r)
    ensures r[c][id] == Point(cols[c][id].vector, SetKeys(cols[c][id].payload, given))
    ensures forall c', id' :: c' in cols && id' in cols[c'] && (c' != c || id' != id) ==> r[c'][id'] == cols[c'][id']
  {
    cols[c := cols[c][id := Point(cols[c][id].vector, SetKeys(cols[c][id].payload, given))]]
  }

  /** `update_vectors(c, [{id, vector}])` on a point that exists. */
  function WithVector(cols: Collections, c: string, id: int, v: Vector): (r: Collections)
    requires PayloadAt(cols, c, id).Some?
    ensures SamePoints(cols, r)
    ensures r[c][id] == Point(v, cols[c][id].payload)
    ensures forall c', id' :: c' in cols && id' in cols[c'] && (c' != c || id' != id) ==> r[c'][id'] == cols[c'][id']
  {
    cols[c := cols[c][id := Point(v, cols[c][id].payload)]]
  }

  function Ids(pts: seq<PointStruct>): set<int> {
    set i | 0 <= i < |pts| :: pts[i].id
  }

  predicate DistinctIds(pts: seq<PointStruct>) {
    forall i, j :: 0 <= i < j < |pts| ==> pts[i].id != pts[j].id
  }

  /** `upsert(c, pts)`: insert or replace by id, in list order. */
  function UpsertAll(coll: Collection, pts: seq<PointStruct>): Collection
    decreases |pts|
  {
    if pts == [] then coll
    else
      var n := |pts| - 1;
      UpsertAll(coll, pts[..n])[pts[n].id := Point(pts[n].vector, pts[n].payload)]
  }

  /** Upserting adds exactly the ids of the points handed over. */
  lemma {:induction false} UpsertAllKeys(coll: Collection, pts: seq<PointStruct>)
    ensures UpsertAll(coll, pts).Keys == coll.Keys + Ids(pts)
    decreases |pts|
  {
    if pts != [] {
      var n := |pts| - 1;
      UpsertAllKeys(coll, pts[..n]);
      assert Ids(pts) == Ids(pts[..n]) + {pts[n].id} by {
        forall id | id in Ids(pts) ensures id in Ids(pts[..n]) + {pts[n].id} {
          var i :| 0 <= i < |pts| && pts[i].id == id;
          if i < n { assert pts[..n][i] == pts[i]; }
        }
        forall id | id in Ids(pts[..n]) ensures id in Ids(pts) {
          var i :| 0 <= i < n && pts[..n][i].id == id;
          assert pts[i] == pts[..n][i];
        }
      }
    }
  }

  /** A point that no later point of the list replaces is stored as handed over: the last write wins. */
  lemma {:induction false} UpsertAllAt(coll: Collection, pts: seq<PointStruct>, i: int)
    requires 0 <= i < |pts|
    requires forall j :: i < j < |pts| ==> pts[j].id != pts[i].id
    ensures pts[i].id in UpsertAll(coll, pts)
    ensures UpsertAll(coll, pts)[pts[i].id] == Point(pts[i].vector, pts[i].payload)
    decreases |pts|
  {
    var n := |pts| - 1;
    if i < n {
      var prefix := pts[..n];
      assert prefix[i] == pts[i];
      forall j | i < j < |prefix| ensures prefix[j].id != prefix[i].id {
        assert prefix[j] == pts[j];
      }
      UpsertAllAt(coll, prefix, i);
    }
  }

  /** An upsert leaves every point whose id is not handed over as it was. */
  lemma {:induction false} UpsertAllKeepsOthers(coll: Collection, pts: seq<PointStruct>, id: int)
    requires id in coll && id !in Ids(pts)
    ensures id in UpsertAll(coll, pts) && UpsertAll(coll, pts)[id] == coll[id]
    decreases |pts|
  {
    if pts != [] {
      var n := |pts| - 1;
      assert pts[n].id in Ids(pts);
      forall i | 0 <= i < n ensures pts[..n][i].id != id {
        assert pts[..n][i] == pts[i] && pts[i].id in Ids(pts);
      }
      UpsertAllKeepsOthers(coll, pts[..n], id);
    }
  }

  /**
   After an upsert every id handed over is stored, and when the ids are
   distinct each point is stored exactly as handed over.
   */
  lemma UpsertAllStoresAll(coll: Collection, pts: seq<PointStruct>)
    ensures forall i :: 0 <= i < |pts| ==> pts[i].id in UpsertAll(coll, pts)
    ensures DistinctIds(pts) ==> forall i :: 0 <= i < |pts| ==>
      UpsertAll(coll, pts)[pts[i].id] == Point(pts[i].vector, pts[i].payload)
  {
    UpsertAllKeys(coll, pts);
    forall i | 0 <= i < |pts| ensures pts[i].id in UpsertAll(coll, pts) {
      assert pts[i].id in Ids(pts);
    }
    if DistinctIds(pts) {
      forall i | 0 <= i < |pts| ensures UpsertAll(coll, pts)[pts[i].id] == Point(pts[i].vector, pts[i].payload) {
        UpsertAllAt(coll, pts, i);
      }
    }
  }

  /** The store a script talks to. */
  class Store {
    var collections: Collections

    /** Connecting shows the collections the server holds. */
    constructor (existing: Collections)
      ensures collections == existing
    {
      collections := existing;
    }

    /** `get_collections()`: the names of the collections that exist. */
    function CollectionNames(): set<string>
      reads this
    {
      collections.Keys
    }

    /** `create_collection(name, …)`; the store refuses a name that is taken. */
    method CreateCollection(name: string)
      requires name !in collections
      modifies this
      ensures collections == old(collections)[name := map[]]
    {
      collections := collections[name := map[]];
    }

    /** `set_payload`; it fails (the client raises) when the point does not exist. */
    method SetPayload(c: string, id: int, given: Payload) returns (ok: bool)
      modifies this
      ensures ok == PayloadAt(old(collections), c, id).Some?
      ensures ok ==> collections == WithPayload(old(collections), c, id, given)
      ensures !ok ==> collections == old(collections)
    {
      ok := PayloadAt(collections, c, id).Some?;
      if ok {
        collections := WithPayload(collections, c, id, given);
      }
    }

    /** `update_vectors`; it fails when the point does not exist. */
    method UpdateVector(c: string, id: int, v: Vector) returns (ok: bool)
      modifies this
      ensures ok == PayloadAt(old(collections), c, id).Some?
      ensures ok ==> collections == WithVector(old(collections), c, id, v)
      ensures !ok ==> collections == old(collections)
    {
      ok := PayloadAt(collections, c, id).Some?;
      if ok {
        collections := WithVector(collections, c, id, v);
      }
    }

    /** `upsert`; it fails when the collection does not exist. */
    method Upsert(c: string, pts: seq<PointStruct>) returns (ok: bool)
      modifies this
      ensures ok == (c in old(collections))
      ensures ok ==> collections == old(collections)[c := UpsertAll(old(collections)[c], pts)]
      ensures !ok ==> collections == old(collections)
    {
      ok := c in collections;
      if ok {
        collections := collections[c := UpsertAll(collections[c], pts)];
      }
    }
  }
}
