/**
 * JSON-RPC framing shared by the clients: the envelopes they send
 * (publisher/main.go:102-124, and `jrpc.call` / `jrpc.notification` in the
 * browser clients) and the action an inbound message is routed to.
 */
module Rpc {
  import opened Wrappers

  /**
   * The params objects the clients send: `{sid, offer}` for join,
   * `{candidate, target}` for trickle, a bare description for answer.
   * `D` is the description type, `C` the candidate type.
   */
  datatype Params<D, C> =
    | JoinParams(sid: string, offer: D)
    | TrickleParams(candidate: C, target: int)
    | DescriptionParams(desc: D)

  /** An outbound message: a call when it carries an id, a notification when it does not. */
  datatype Envelope<D, C> = Envelope(name: string, params: Params<D, C>, id: Option<nat>)

  predicate IsNotification<D, C>(e: Envelope<D, C>)
  {
    e.id.None?
  }

  /** The id a response to `e` must echo; the Go side reads an absent id as 0. */
  function CorrelationId<D, C>(e: Envelope<D, C>): nat
  {
    match e.id
    case None => 0
    case Some(k) => k
  }

  /**
   * The envelope `sendJSONRPC(method, params, id)` builds: method and params
   * verbatim, and an id only when `id` is non-zero, so id 0 gives a
   * notification.
   */
  function Request<D, C>(name: string, params: Params<D, C>, id: nat): (e: Envelope<D, C>)
    ensures e.name == name && e.params == params
    ensures IsNotification(e) <==> id == 0
    ensures CorrelationId(e) == id
  {
    Envelope(name, params, if id != 0 then Some(id) else None)
  }

  /** `jrpc.call(method, params)`: the id is allocated by the JSON-RPC library and passed in. */
  function Call<D, C>(name: string, params: Params<D, C>, id: nat): (e: Envelope<D, C>)
    ensures e.name == name && e.params == params && !IsNotification(e)
    ensures e.id == Some(id)
  {
    Envelope(name, params, Some(id))
  }

  /** `jrpc.notification(method, params)`. */
  function Notification<D, C>(name: string, params: Params<D, C>): (e: Envelope<D, C>)
    ensures e.name == name && e.params == params && IsNotification(e)
  {
    Envelope(name, params, None)
  }

  /**
   * The browser clients' envelopes are the Go publisher's: a call with a
   * non-zero id is the request with that id, and a notification is the
   * request with id 0.
   */
  lemma BrowserEnvelopesAreRequests<D, C>(name: string, params: Params<D, C>, id: nat)
    ensures id != 0 ==> Call(name, params, id) == Request(name, params, id)
    ensures Notification(name, params) == Request(name, params, 0)
  {
  }

  /** A local ICE candidate as every client sends it: an id-less `trickle` with target 0. */
  function Trickle<D, C>(c: C): (e: Envelope<D, C>)
    ensures IsNotification(e) && e.name == "trickle"
    ensures e.params.TrickleParams? && e.params.candidate == c && e.params.target == 0
  {
    Notification("trickle", TrickleParams(c, 0))
  }

  /** The Go publisher's trickle (`sendJSONRPC("trickle", ..., 0)`) is the same envelope the browser clients send. */
  lemma GoTrickleIsNotification<D, C>(c: C)
    ensures Request<D, C>("trickle", TrickleParams(c, 0), 0) == Trickle(c)
  {
  }

  /**
   * What an inbound message is routed to. Every client variant maps a decoded
   * message to exactly one of these, first match wins.
   */
  datatype Action<D, C> =
    | ApplyAnswer(answer: D)
    | Renegotiate(offer: D)
    | AddCandidate(candidate: C)
    | Ignore

  /**
   * The request object `sendJSONRPC` hands to the JSON-RPC encoder, as the
   * code is written: the id field is set only for a non-zero id, but the
   * notification flag of the library's request type is never set, so it stays
   * false.
   */
  datatype WireRequest<D, C> = WireRequest(name: string, params: Params<D, C>, id: nat, notif: bool)

  function BuildRequestAsWritten<D, C>(name: string, params: Params<D, C>, id: nat): (w: WireRequest<D, C>)
    ensures w.name == name && w.params == params && !w.notif
  {
    // An unset id field keeps its zero value.
    WireRequest(name, params, if id != 0 then id else 0, false)
  }

  /**
   * The id member the library's encoder writes: none for a request flagged as
   * a notification, otherwise the id field, zero or not.
   */
  function EncodedId<D, C>(w: WireRequest<D, C>): Option<nat>
  {
    if w.notif then None else Some(w.id)
  }

  /**
   * As written, a trickle sent with id 0 still goes out with an id member
   * (`"id": 0`), so it is a call rather than the intended notification.
   */
  lemma AsWrittenTrickleCarriesIdZero<D, C>(c: C)
    ensures EncodedId(BuildRequestAsWritten<D, C>("trickle", TrickleParams(c, 0), 0)) == Some(0)
    ensures Request<D, C>("trickle", TrickleParams(c, 0), 0).id == None
  {
  }
}
