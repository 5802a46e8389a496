/**
 * The document store as the handlers see it: a collection is a map from
 * document id to a schemaless record, and a scan of a collection is a
 * sequence of (id, record) pairs that covers the map exactly once.
 */
module Documents {
  import opened Wrappers

  /** The store's native timestamp type. */
  datatype Timestamp = Timestamp(seconds: int, nanoseconds: int)

  /** A field value of a stored or transferred record. */
  datatype Value =
    | Str(s: string)
    | Num(n: int)
    | Bool(b: bool)
    | Stamp(t: Timestamp)
    | List(items: seq<Value>)
    | Null

  type Doc = map<string, Value>
  type DocId = string

  /** One collection of the store. */
  type Store = map<DocId, Doc>

  /** One document of a query snapshot: its id and its data. */
  datatype DocSnapshot = DocSnapshot(id: DocId, data: Doc)

  /**
   * The boundary conversion pair between store timestamps and their ISO-8601
   * text (`toDate().toISOString()` and `Timestamp.fromDate(new Date(s))`),
   * kept abstract.
   */
  datatype TimeCodec = TimeCodec(toIso: Timestamp -> string, fromIso: string -> Timestamp)

  /** The codec turns `t` into non-empty text that reads back as `t`. */
  predicate RoundTrips(c: TimeCodec, t: Timestamp) {
    c.toIso(t) != "" && c.fromIso(c.toIso(t)) == t
  }

  /** JavaScript truthiness of a present value. */
  predicate Truthy(v: Value) {
    match v
    case Str(s) => s != ""
    case Num(n) => n != 0
    case Bool(b) => b
    case Null => false
    case _ => true
  }

  /** `doc.f` is present and truthy. */
  predicate FieldTruthy(d: Doc, f: string) {
    f in d && Truthy(d[f])
  }

  /** `doc.f` read as an optional text: its string when it holds one, else "". */
  function TextOf(d: Doc, f: string): (r: string)
    ensures r != "" <==> f in d && d[f].Str? && d[f].s != ""
  {
    if f in d && d[f].Str? then d[f].s else ""
  }

  /** JavaScript `a || b` on two possibly-undefined fields. */
  function Or(a: Option<Value>, b: Option<Value>): (r: Option<Value>)
    ensures a.Some? && Truthy(a.value) ==> r == a
    ensures !(a.Some? && Truthy(a.value)) ==> r == b
  {
    if a.Some? && Truthy(a.value) then a else b
  }

  function Get(d: Doc, f: string): Option<Value> {
    if f in d then Some(d[f]) else None
  }

  /** `snap` lists every document of `store` once, with its data. */
  predicate SnapshotOf(store: Store, snap: seq<DocSnapshot>) {
    && (forall i, j :: 0 <= i < j < |snap| ==> snap[i].id != snap[j].id)
    && (forall i :: 0 <= i < |snap| ==> snap[i].id in store && store[snap[i].id] == snap[i].data)
    && (forall id :: id in store ==> exists i :: 0 <= i < |snap| && snap[i].id == id)
  }

  /** A snapshot of a whole collection holds exactly as many documents as the collection. */
  lemma {:induction false} SnapshotSize(store: Store, snap: seq<DocSnapshot>)
    requires SnapshotOf(store, snap)
    ensures |snap| == |store|
  {
    if |snap| == 0 {
      assert store.Keys == {};
    } else {
      var id := snap[0].id;
      var rest := store - {id};
      assert rest.Keys == store.Keys - {id};
      forall k | k in rest
        ensures exists i :: 0 <= i < |snap[1..]| && snap[1..][i].id == k
      {
        var i :| 0 <= i < |snap| && snap[i].id == k;
        assert i != 0;
        assert snap[1..][i - 1].id == k;
      }
      assert SnapshotOf(rest, snap[1..]);
      SnapshotSize(rest, snap[1..]);
    }
  }
}
