// The response interceptor: an HTTP handler's value is sent as `{ data: value }`
// unless it is null, undefined, or already an object with a `data` key.
module Response {

  /** A JavaScript value as far as the wrapping decision looks at it. */
  datatype Value =
    | Undefined
    | Null
    | Bool(b: bool)
    | Num(n: int)
    | Str(s: string)
    | Arr(items: seq<Value>)
    | Obj(fields: map<string, Value>)

  /** `ExecutionContext.getType()`. */
  datatype ContextType = Http | Rpc | Ws

  /** `'data' in value` for an object value; arrays and primitives carry no `data` key. */
  predicate HasData(v: Value) {
    v.Obj? && "data" in v.fields
  }

  /** `{ data }`. */
  function Wrap(v: Value): (r: Value)
    ensures HasData(r) && r.fields == map["data" := v]
  {
    Obj(map["data" := v])
  }

  /** The value `intercept` emits for a handler's value `v`. */
  function Transform(context: ContextType, v: Value): (r: Value)
    ensures context != Http ==> r == v
    ensures context == Http && (v.Undefined? || v.Null?) ==> r == v
    ensures context == Http && HasData(v) ==> r == v
    ensures context == Http && !(v.Undefined? || v.Null? || HasData(v)) ==> r == Wrap(v)
  {
    if context != Http then v
    else if v.Undefined? || v.Null? then v
    else if v.Obj? && "data" in v.fields then v
    else Wrap(v)
  }

  /** The first projection undoes the wrapping: the emitted value is either the
      handler's value or an envelope whose `data` is exactly it. */
  lemma TransformKeepsValue(context: ContextType, v: Value)
    ensures var r := Transform(context, v);
      r == v || (HasData(r) && r.fields["data"] == v && !HasData(v))
  {
  }

  /** Over HTTP every emitted value other than null and undefined has a `data` key. */
  lemma HttpAlwaysEnveloped(v: Value)
    requires !(v.Undefined? || v.Null?)
    ensures HasData(Transform(Http, v))
  {
  }

  /** Wrapping twice is wrapping once: there is no `{ data: { data: ... } }` from a second pass. */
  lemma TransformIdempotent(context: ContextType, v: Value)
    ensures Transform(context, Transform(context, v)) == Transform(context, v)
  {
  }

  /** An object without a `data` key and an array are wrapped; the envelope is new. */
  lemma WrapsOtherObjects(fields: map<string, Value>, items: seq<Value>)
    requires "data" !in fields
    ensures Transform(Http, Obj(fields)) == Obj(map["data" := Obj(fields)])
    ensures Transform(Http, Arr(items)) == Obj(map["data" := Arr(items)])
    ensures Transform(Http, Obj(fields)) != Obj(fields)
  {
    assert "data" in Transform(Http, Obj(fields)).fields;
  }
}
