/** Values exchanged with the storage backends and the text codec between them.
    The codec stands for JSON.stringify / JSON.parse (section 25.5 of ECMA-262);
    its text format is not modelled, only the laws the storage helpers rely on. */
module Json {

  /** A JavaScript value as far as the persisted state is concerned.
      Numbers are modelled as integers. */
  datatype Value =
    | Undefined
    | Null
    | Bool(b: bool)
    | Num(n: int)
    | Str(s: string)
    | Arr(elems: seq<Value>)
    | Obj(props: map<string, Value>)

  /** JSON-representable: `undefined` occurs nowhere in the value
      (JSON.stringify drops it from objects and turns it into null in arrays). */
  predicate Representable(v: Value)
  {
    match v
    case Undefined => false
    case Arr(elems) => forall i :: 0 <= i < |elems| ==> Representable(elems[i])
    case Obj(props) => forall k :: k in props ==> Representable(props[k])
    case _ => true
  }

  /** JSON.parse throws a SyntaxError on malformed text. */
  datatype ParseError = SyntaxError

  datatype Result<T> = Success(value: T) | Failure(error: ParseError)

  /** JSON.stringify restricted to values it turns into text, and JSON.parse. */
  datatype Codec = Codec(stringify: Value -> string, parse: string -> Result<Value>)

  /** What a string conversion makes of `undefined`: the text the storage
      keeps when JSON.stringify returns `undefined`. */
  const Sentinel: string := "undefined"

  /** What a string conversion makes of `null`: the text JSON.parse reads
      when it is handed the `null` that Storage.getItem returns for a missing key. */
  const NullText: string := "null"

  /** The laws of JSON.stringify / JSON.parse the model relies on:
      stringify(null) is "null", "undefined" is not JSON text, parse never
      yields `undefined`, and every representable value survives a round trip. */
  ghost predicate Lawful(json: Codec)
  {
    && json.stringify(Null) == NullText
    && json.parse(Sentinel).Failure?
    && (forall t :: json.parse(t).Success? ==> Representable(json.parse(t).value))
    && forall v :: Representable(v) ==> json.parse(json.stringify(v)) == Success(v)
  }

  /** A lawful codec never writes a representable value as the sentinel text. */
  lemma StringifyAvoidsSentinel(json: Codec, v: Value)
    requires Lawful(json) && Representable(v)
    ensures json.stringify(v) != Sentinel
  {
  }

  /** JSON.parse(null) yields null under a lawful codec. */
  lemma ParseNullText(json: Codec)
    requires Lawful(json)
    ensures json.parse(NullText) == Success(Null)
  {
    assert Representable(Null);
  }
}
