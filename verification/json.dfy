/** The untyped JSON documents that request bodies and stored records are made of. */
module Json {
  import opened Wrappers

  /** A scalar JSON value; numbers are taken to be integers. */
  datatype Value = VNull | VBool(b: bool) | VNum(n: int) | VStr(s: string)

  /** A property read from a JavaScript object: `None` is `undefined`. */
  type Field = Option<Value>

  /** A flat document: property name to value. */
  type Doc = map<string, Value>

  /** `doc[key]` in JavaScript. */
  function Get(doc: Doc, key: string): Field
  {
    if key in doc then Some(doc[key]) else None
  }

  /** JavaScript truthiness: undefined, null, false, 0 and "" are falsy. */
  predicate Truthy(f: Field)
    ensures Truthy(f) <==>
      f !in {None, Some(VNull), Some(VBool(false)), Some(VNum(0)), Some(VStr(""))}
  {
    match f
    case None => false
    case Some(VNull) => false
    case Some(VBool(b)) => b
    case Some(VNum(n)) => n != 0
    case Some(VStr(s)) => s != ""
  }

  /** What the document store keeps for a property: the driver serialises `undefined` as null. */
  function Stored(f: Field): Value
  {
    if f.None? then VNull else f.value
  }

  /** The value a store-side equality match sees for `key`: a missing property reads as null. */
  function FieldOrNull(doc: Doc, key: string): Value
  {
    if key in doc then doc[key] else VNull
  }
}
