/** The JSON-like values the catalogs hold, with JavaScript truthiness and
    property lookup on plain objects. */
module Values {

  datatype Option<T> = None | Some(value: T)

  /** A catalog value. Numbers are integers here; an object keeps its
      properties in insertion order, as `Object.entries` reports them. */
  datatype Value =
    | Null
    | Bool(b: bool)
    | Num(n: int)
    | Str(s: string)
    | List(items: seq<Value>)
    | Object(entries: seq<Entry>)

  datatype Entry = Entry(key: string, value: Value)

  /** JavaScript truthiness: `null`, `false`, `0` and `''` are falsy,
      every array and object is truthy. */
  predicate Truthy(v: Value)
  {
    match v
    case Null => false
    case Bool(b) => b
    case Num(n) => n != 0
    case Str(s) => s != []
    case List(_) => true
    case Object(_) => true
  }

  predicate HasKey(entries: seq<Entry>, key: string)
  {
    exists i :: 0 <= i < |entries| && entries[i].key == key
  }

  /** `obj[key]` on a plain object: the value of the property named `key`,
      if there is one (an object never holds a key twice; the first one is
      taken). */
  function Get(entries: seq<Entry>, key: string): (r: Option<Value>)
    ensures r.Some? <==> HasKey(entries, key)
    ensures r.Some? ==> exists i :: 0 <= i < |entries| && entries[i] == Entry(key, r.value)
  {
    if entries == [] then None
    else if entries[0].key == key then Some(entries[0].value)
    else
      var r := Get(entries[1..], key);
      assert HasKey(entries[1..], key) ==> HasKey(entries, key) by {
        if HasKey(entries[1..], key) {
          var i :| 0 <= i < |entries[1..]| && entries[1..][i].key == key;
          assert entries[i + 1].key == key;
        }
      }
      assert HasKey(entries, key) ==> HasKey(entries[1..], key) by {
        if HasKey(entries, key) {
          var i :| 0 <= i < |entries| && entries[i].key == key;
          assert entries[1..][i - 1].key == key;
        }
      }
      assert r.Some? ==> exists i :: 0 <= i < |entries| && entries[i] == Entry(key, r.value) by {
        if r.Some? {
          var i :| 0 <= i < |entries[1..]| && entries[1..][i] == Entry(key, r.value);
          assert entries[i + 1] == Entry(key, r.value);
        }
      }
      r
  }

  /** `Object.keys(obj)` as a set. */
  function Keys(entries: seq<Entry>): (r: set<string>)
    ensures forall k :: k in r <==> HasKey(entries, k)
  {
    set i | 0 <= i < |entries| :: entries[i].key
  }
}
