/** The data the changeset engine reads: reach features keyed by their
    identifier, each with its attribute values and its formatted area. */
module Values {

  /** An attribute value as it comes out of a layer: null, text or a number.
      A missing attribute and a JSON null both read as Null. */
  datatype Value = Null | Str(s: string) | Num(n: real)

  /** One reach: its attributes by field name, and its area already
      reprojected, rounded and formatted to seven decimals. */
  datatype Feature = Feature(attrs: map<string, Value>, area: string)

  /** A layer's features by identifier, and the layer's display name. */
  datatype Layer = Layer(name: string, features: map<string, Feature>)

  /** One changelog row: the key, the type label, the old and new value of
      every field pair, then the old and new area. */
  type Row = seq<Value>

  /** `attrs.get(name)`: the value, or Null when the field is absent. */
  function Get(attrs: map<string, Value>, name: string): (v: Value)
    ensures name !in attrs ==> v == Null
    ensures name in attrs ==> v == attrs[name]
  {
    if name in attrs then attrs[name] else Null
  }

  /** The values of `fields`, in order. */
  function Lookup(attrs: map<string, Value>, fields: seq<string>): (vs: seq<Value>)
    ensures |vs| == |fields|
    ensures forall i :: 0 <= i < |fields| ==> vs[i] == Get(attrs, fields[i])
  {
    seq(|fields|, i requires 0 <= i < |fields| => Get(attrs, fields[i]))
  }

  /** `n` copies of Null: the side of an Added or Removed row that has no feature. */
  function Nulls(n: nat): (vs: seq<Value>)
    ensures |vs| == n
    ensures forall i :: 0 <= i < n ==> vs[i] == Null
  {
    seq(n, _ => Null)
  }
}
