/** Values shared by every part of the collab model: references to world
    entities, stored attribute values, and Python exceptions as data. */
module Common {

  datatype Option<+T> = None | Some(value: T)

  /** A Python exception: its class name and its message (`str(e)`). */
  datatype Exc = Exc(typeName: string, message: string)

  /** What a Python call does: return a value or raise an exception. */
  datatype Result<+T> = Ok(value: T) | Err(exc: Exc)

  function ValueError(msg: string): Exc { Exc("ValueError", msg) }
  function SecurityError(msg: string): Exc { Exc("SecurityError", msg) }

  /** A reference to a world entity: its database id and its key, which is
      what `str(obj)` prints in messages. */
  datatype Ref = Ref(id: nat, key: string)

  /** A value held in an attribute store. The JSON-shaped alternatives are
      the ones `json.dumps` accepts; `VObject` stands for any other Python
      object (a class instance, a function, ...), known only by its `repr`. */
  datatype Value =
    | VNone
    | VBool(b: bool)
    | VInt(i: int)
    | VStr(s: string)
    | VList(items: seq<Value>)
    | VDict(entries: map<string, Value>)
    | VObject(repr: string)

  /** True iff `json.dumps(v)` succeeds: `v` holds no foreign object at any depth. */
  predicate Serialisable(v: Value)
  {
    match v
    case VObject(_) => false
    case VList(items) => forall i :: 0 <= i < |items| ==> Serialisable(items[i])
    case VDict(entries) => forall k :: k in entries ==> Serialisable(entries[k])
    case _ => true
  }

  /** `json.loads(json.dumps(v))` for a serialisable value. Every JSON-shaped
      alternative decodes to itself: lists stay lists and keys stay strings. */
  function JsonCopy(v: Value): (c: Value)
    requires Serialisable(v)
    ensures Serialisable(c)
  {
    match v
    case VList(items) => VList(seq(|items|, i requires 0 <= i < |items| => JsonCopy(items[i])))
    case VDict(entries) => VDict(map k | k in entries :: JsonCopy(entries[k]))
    case _ => v
  }

  /** A JSON round trip yields a value equal to, but independent of, the original. */
  lemma {:induction false} JsonCopyIsEqual(v: Value)
    requires Serialisable(v)
    ensures JsonCopy(v) == v
  {
    match v
    case VList(items) =>
      forall i | 0 <= i < |items| ensures JsonCopy(items[i]) == items[i] {
        JsonCopyIsEqual(items[i]);
      }
    case VDict(entries) =>
      forall k | k in entries ensures JsonCopy(entries[k]) == entries[k] {
        JsonCopyIsEqual(entries[k]);
      }
      assert JsonCopy(v).entries == entries;
    case _ =>
  }
}
