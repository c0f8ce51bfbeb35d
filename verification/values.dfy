/** Values as the session state layer sees them: JavaScript values restricted
    to what the context store, the remote maps and the versioned turn records
    hold. Numbers are integers; floating point is not modelled. */
module Values {

  /** An optional value, used for the parking-lot slots and map lookups. */
  datatype Option<+T> = None | Some(value: T)

  /** A JavaScript value. `Undefined` and `Null` are distinct, as in the source:
      a context key can be present with the value `undefined`. */
  datatype Value =
    | Undefined
    | Null
    | Bool(b: bool)
    | Num(n: int)
    | Str(s: string)
    | Arr(elems: seq<Value>)
    | Obj(props: map<string, Value>)
  {
    /** `typeof v === "object"`: true for null, arrays and plain objects. */
    predicate IsTypeofObject() {
      Null? || Arr? || Obj?
    }

    /** `v === null || v === undefined` */
    predicate IsNullish() {
      Null? || Undefined?
    }

    /** `typeof v === "object" && v !== null`: a value the proxy wraps. */
    predicate IsStructured() {
      Arr? || Obj?
    }
  }

  /** A property read on a plain record: a missing key reads as `undefined`. */
  function Lookup(m: map<string, Value>, k: string): (v: Value)
    ensures k !in m ==> v == Undefined
    ensures k in m ==> v == m[k]
  {
    if k in m then m[k] else Undefined
  }

  /** A turn record as far as this model needs it: its id and its serialised body.
      The turn store that creates and versions turns is not part of this model. */
  datatype Turn = Turn(id: string, body: Value)
}
