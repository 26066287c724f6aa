/**
 Payload values as the vector store keeps them: JSON-like key-value records
 attached to points, and the change-history entries that the mutator appends
 to them under the `update_history` key.
 */
module Payloads {

  datatype Option<T> = None | Some(value: T) {
    /** `d.get(key, default)` once the lookup has been made. */
    function GetOr(default: T): T {
      if Some? then value else default
    }
  }

  /** One column descriptor of a catalog table; `description` may be absent. */
  datatype Column = Column(name: string, dtype: string, description: Option<string>)

  /** The kinds of value a payload key holds in this system. */
  datatype Value =
    | Str(s: string)
    | Int(n: int)
    | StrList(items: seq<string>)
    | ColumnList(columns: seq<Column>)
    | EntryList(entries: seq<Entry>)

  /**
   A change-history entry. The mutator always sets every key, but the auditor
   reads entries back with `.get(key, default)`, so the keys it reads with a
   default are optional here.
   */
  datatype Entry = Entry(
    timestamp: Option<string>,
    collection: Option<string>,
    pointId: int,
    field: Option<string>,
    oldValue: Option<Value>,
    newValue: Option<Value>,
    reason: Option<string>)

  const HistoryKey: string := "update_history"

  /** The history key, when present, holds a list of entries. */
  predicate HistoryIsList(p: map<string, Value>) {
    HistoryKey in p ==> p[HistoryKey].EntryList?
  }

  type Payload = p: map<string, Value> | HistoryIsList(p) witness map[]

  /** Python truthiness of a value: empty strings, zero and empty lists are false. */
  predicate Truthy(v: Value) {
    match v
    case Str(s) => s != []
    case Int(n) => n != 0
    case StrList(xs) => xs != []
    case ColumnList(cs) => cs != []
    case EntryList(es) => es != []
  }

  /** `payload.get(key, default)`. */
  function Get(p: Payload, key: string, default: Value): Value {
    if key in p then p[key] else default
  }

  /** `payload.get("update_history", [])`. */
  function HistoryOf(p: Payload): seq<Entry> {
    if HistoryKey in p then p[HistoryKey].entries else []
  }

  /**
   `set_payload`: the keys given overwrite the point's keys of the same name;
   every other key keeps its value.
   */
  function SetKeys(p: Payload, given: Payload): (r: Payload)
    ensures r.Keys == p.Keys + given.Keys
    ensures forall k :: k in given ==> r[k] == given[k]
    ensures forall k :: k in p && k !in given ==> r[k] == p[k]
  {
    p + given
  }

  /** Writing the same single key twice leaves only the second write. */
  lemma SetKeysTwice(p: Payload, k: string, a: Value, b: Value)
    requires k != HistoryKey
    ensures SetKeys(SetKeys(p, map[k := a]), map[k := b]) == SetKeys(p, map[k := b])
  {
  }

  /** A key written by `set_payload` reads back as the value written. */
  lemma GetAfterSetKeys(p: Payload, k: string, v: Value, default: Value)
    requires k != HistoryKey
    ensures Get(SetKeys(p, map[k := v]), k, default) == v
  {
  }

  /** A history written with `set_payload` reads back as written. */
  lemma HistoryOfAfterWrite(p: Payload, h: seq<Entry>)
    ensures HistoryOf(SetKeys(p, map[HistoryKey := EntryList(h)])) == h
  {
  }

  /** Writing any other key leaves a point's history as it was. */
  lemma HistoryOfAfterOtherWrite(p: Payload, k: string, v: Value)
    requires k != HistoryKey
    ensures HistoryOf(SetKeys(p, map[k := v])) == HistoryOf(p)
  {
  }
}
