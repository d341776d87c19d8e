/**
 * The JavaScript values the browser clients test, and the decoded message
 * their `onmessage` handlers dispatch on.
 */
module Js {
  import opened Rpc
  import opened Engine

  /** A JavaScript value, as far as the handlers inspect it; objects are opaque handles. */
  datatype JsValue = Undefined | Null | Bool(b: bool) | Num(n: real) | Str(s: string) | Object(handle: nat)

  /** ToBoolean (NaN is not a value of this model). */
  predicate Truthy(v: JsValue)
  {
    match v
    case Undefined => false
    case Null => false
    case Bool(b) => b
    case Num(n) => n != 0.0
    case Str(s) => s != ""
    case Object(_) => true
  }

  /** `v == null`: loose equality with null holds exactly for null and undefined. */
  predicate LooselyNull(v: JsValue)
  {
    v.Undefined? || v.Null?
  }

  /**
   * `v == 1`: numbers equal to one, `true` (converted to 1) and the string
   * "1"; null and undefined never equal a number.
   */
  predicate LooselyEqualsOne(v: JsValue)
  {
    match v
    case Num(n) => n == 1.0
    case Bool(b) => b
    case Str(s) => s == "1"
    case _ => false
  }

  /** A value loosely equal to 1 is neither null nor undefined, and is truthy. */
  lemma OneIsTruthyAndNotNull(v: JsValue)
    requires LooselyEqualsOne(v)
    ensures Truthy(v) && !LooselyNull(v)
  {
  }

  /** The members of a parsed message the handlers read (`method` is named `name` here). */
  datatype Message = Message(id: JsValue, result: JsValue, name: JsValue, params: JsValue)

  /**
   * A message event: text that `JSON.parse` rejects, or that parses to null,
   * makes the handler throw before it dispatches.
   */
  datatype Inbound = Unparseable | Parsed(data: Message)

  type JsEnvelope = Envelope<JsValue, JsValue>
  type JsCall = EngineCall<JsValue, JsValue>
  type JsAction = Action<JsValue, JsValue>

  /** What a browser client has sent on its socket and called on its peer connection. */
  datatype Signaling = Signaling(sent: seq<JsEnvelope>, calls: seq<JsCall>)
}
