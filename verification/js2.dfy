/**
 * The minimal browser client (js2/index.js): one sendrecv video transceiver,
 * a join to the fixed room "test room", an answer sent as soon as an offer
 * arrives, and a single `remotes` element that shows the latest track's
 * stream.
 */
module Js2 {
  import opened Wrappers
  import opened Rpc
  import opened Engine
  import opened Js
  import ViewerRaw

  /** The room the client always joins. */
  const Room := "test room"

  /**
   * The `onmessage` chain, first match wins: a non-null id loosely equal to 1
   * applies `result` as the answer; otherwise an `offer` renegotiates from
   * `params`; otherwise a `trickle` adds `params` as a candidate.
   */
  function Js2Route(m: Message): (a: JsAction)
    ensures a.ApplyAnswer? <==> !LooselyNull(m.id) && LooselyEqualsOne(m.id)
    ensures a.Renegotiate? <==> !LooselyEqualsOne(m.id) && m.name == Str("offer")
    ensures a.AddCandidate? <==> !LooselyEqualsOne(m.id) && m.name == Str("trickle")
    ensures a.ApplyAnswer? ==> a.answer == m.result
    ensures a.Renegotiate? ==> a.offer == m.params
    ensures a.AddCandidate? ==> a.candidate == m.params
  {
    if !LooselyNull(m.id) && LooselyEqualsOne(m.id) then ApplyAnswer(m.result)
    else if m.name == Str("offer") then Renegotiate(m.params)
    else if m.name == Str("trickle") then AddCandidate(m.params)
    else Ignore
  }

  /** The null test in front of `data.id == 1` never changes the outcome. */
  lemma NullCheckIsRedundant(m: Message)
    ensures Js2Route(m).ApplyAnswer? <==> LooselyEqualsOne(m.id)
  {
    if LooselyEqualsOne(m.id) {
      OneIsTruthyAndNotNull(m.id);
    }
  }

  /** Without an id the two browser routers agree. */
  lemma RoutesAgreeWithoutId(m: Message)
    requires LooselyNull(m.id)
    ensures Js2Route(m) == ViewerRaw.RawRoute(m)
  {
  }

  /** A join reply with id 1 and a description is applied as the answer by both browser routers. */
  lemma RoutesAgreeOnJoinReply(m: Message)
    requires m.id == Num(1.0) && m.result.Object?
    ensures Js2Route(m) == ViewerRaw.RawRoute(m) == ApplyAnswer(m.result)
  {
  }

  /**
   * The routers differ on a reply with id 1 and no result: this client
   * applies the missing result as the answer, the raw viewer routes the
   * message by its method.
   */
  lemma RoutesDifferOnEmptyReply()
    ensures var m := Message(Num(1.0), Undefined, Str("offer"), Object(0));
      Js2Route(m) == ApplyAnswer(Undefined) && ViewerRaw.RawRoute(m) == Renegotiate(Object(0))
  {
  }

  /**
   * The peer-connection calls a routed message makes: the reply's result is
   * set as the remote description, an offer's params likewise, a trickle's
   * params are added as a candidate, anything else makes none.
   */
  function Js2Calls(a: JsAction): seq<JsCall>
  {
    match a
    case ApplyAnswer(d) => [SetRemote(d)]
    case Renegotiate(p) => [SetRemote(p)]
    case AddCandidate(c) => [AddIceCandidate(c)]
    case Ignore => []
  }

  /**
   * One message event. An offer sets the remote description and calls
   * `answer` at once with the local description as it is then; no answer is
   * created and the outcome of set-remote is not awaited.
   */
  function Js2Handled(s: Signaling, m: Inbound, local: JsValue, answerId: nat): (r: Signaling)
    ensures m.Unparseable? ==> r == s
    ensures m.Parsed? ==> r.calls == s.calls + Js2Calls(Js2Route(m.data))
    ensures m.Parsed? && Js2Route(m.data).ApplyAnswer? ==> r.calls == s.calls + [SetRemote(m.data.result)]
    ensures m.Parsed? && Js2Route(m.data).AddCandidate? ==> r.calls == s.calls + [AddIceCandidate(m.data.params)]
    ensures m.Parsed? && Js2Route(m.data).Ignore? ==> r == s
    ensures m.Parsed? && Js2Route(m.data).Renegotiate? ==>
      r.calls == s.calls + [SetRemote(m.data.params)] && r.sent == s.sent + [Call("answer", DescriptionParams(local), answerId)]
    ensures !(m.Parsed? && Js2Route(m.data).Renegotiate?) ==> r.sent == s.sent
    ensures |s.calls| <= |r.calls| <= |s.calls| + 1 && r.calls[..|s.calls|] == s.calls
    ensures CreateAnswer !in r.calls[|s.calls|..]
  {
    match m
    case Unparseable => s
    case Parsed(data) =>
      match Js2Route(data)
      case ApplyAnswer(d) => s.(calls := s.calls + [SetRemote(d)])
      case Renegotiate(p) => Signaling(s.sent + [Call("answer", DescriptionParams(local), answerId)], s.calls + [SetRemote(p)])
      case AddCandidate(c) => s.(calls := s.calls + [AddIceCandidate(c)])
      case Ignore => s
  }

  /**
   * `onopen`: one video transceiver with the default direction, then the
   * offer; `join` carries the local description and the fixed room once the
   * offer is set locally.
   */
  function Js2Opened(s: Signaling, o: ViewerRaw.JoinOutcome, joinId: nat): (r: Signaling)
    ensures |r.calls| >= |s.calls| + 2 && r.calls[..|s.calls|] == s.calls
    ensures r.calls[|s.calls|] == AddTransceiver(Video, SendRecv)
    ensures r.calls[|s.calls| + 1..] == OfferSteps(o.offer)
    ensures r.sent == s.sent + (if o.offer.Some? && o.localOk then [Call("join", JoinParams(Room, o.local), joinId)] else [])
  {
    var calls := s.calls + [AddTransceiver(Video, SendRecv)] + OfferSteps(o.offer);
    assert calls[|s.calls| + 1..] == OfferSteps(o.offer);
    Signaling(if o.offer.Some? && o.localOk then s.sent + [Call("join", JoinParams(Room, o.local), joinId)] else s.sent, calls)
  }

  /** What one track event puts in the `remotes` element: its first stream, or nothing. */
  function Shown(streams: seq<string>): Option<string>
  {
    if |streams| > 0 then Some(streams[0]) else None
  }

  /** The element's stream after the track events `events`, in order, starting from `shown`. */
  function ShownAfter(shown: Option<string>, events: seq<seq<string>>): Option<string>
    decreases |events|
  {
    if |events| == 0 then shown else ShownAfter(Shown(events[0]), events[1..])
  }

  /** Last write wins: after any non-empty series of track events the element shows the last event's first stream. */
  lemma {:induction false} LastWriteWins(shown: Option<string>, events: seq<seq<string>>)
    requires |events| > 0
    ensures ShownAfter(shown, events) == Shown(events[|events| - 1])
    decreases |events|
  {
    if |events| > 1 {
      LastWriteWins(Shown(events[0]), events[1..]);
      assert events[1..][|events[1..]| - 1] == events[|events| - 1];
    }
  }

  class Js2Client {
    /** `onopen` has installed the peer-connection handlers. */
    var handlersInstalled: bool
    /** The stream `remotes.srcObject` holds; None for null or undefined. */
    var sink: Option<string>
    ghost var sent: seq<JsEnvelope>
    ghost var calls: seq<JsCall>

    ghost function Signals(): Signaling
      reads this
    {
      Signaling(sent, calls)
    }

    constructor ()
      ensures !handlersInstalled && sink == None && Signals() == Signaling([], [])
    {
      handlersInstalled := false;
      sink := None;
      sent := [];
      calls := [];
    }

    /** `webSocket.onopen` */
    method OnOpen(o: ViewerRaw.JoinOutcome, joinId: nat)
      modifies this`handlersInstalled, this`sent, this`calls
      ensures handlersInstalled
      ensures Signals() == Js2Opened(old(Signals()), o, joinId)
    {
      handlersInstalled := true;
      calls := calls + [AddTransceiver(Video, SendRecv)];
      calls := calls + [CreateOffer];
      if o.offer.None? {
        assert calls == old(calls) + [AddTransceiver(Video, SendRecv)] + OfferSteps(o.offer);
        return;
      }
      calls := calls + [SetLocal(o.offer.value)];
      assert calls == old(calls) + [AddTransceiver(Video, SendRecv)] + OfferSteps(o.offer);
      if !o.localOk {
        return;
      }
      sent := sent + [Call("join", JoinParams(Room, o.local), joinId)];
    }

    /** `peerConnection.onicecandidate`: null is dropped, any other candidate is trickled. */
    method OnIceCandidate(candidate: JsValue)
      modifies this`sent
      ensures sent == old(sent) + (if handlersInstalled && !LooselyNull(candidate) then [Trickle(candidate)] else [])
    {
      if !handlersInstalled || LooselyNull(candidate) {
        return;
      }
      sent := sent + [Notification("trickle", TrickleParams(candidate, 0))];
    }

    /** `peerConnection.ontrack`: the element is overwritten with the event's first stream. */
    method OnTrack(streams: seq<string>)
      modifies this`sink
      ensures sink == if handlersInstalled then Shown(streams) else old(sink)
    {
      if !handlersInstalled {
        return;
      }
      if |streams| > 0 {
        sink := Some(streams[0]);
      } else {
        sink := None;
      }
    }

    /** `webSocket.onmessage`, with the local description as it is when the handler runs. */
    method OnMessage(m: Inbound, local: JsValue, answerId: nat)
      modifies this`sent, this`calls
      ensures Signals() == Js2Handled(old(Signals()), m, local, answerId)
    {
      if m.Unparseable? {
        return;
      }
      match Js2Route(m.data)
      case ApplyAnswer(d) =>
        calls := calls + [SetRemote(d)];
      case Renegotiate(p) =>
        calls := calls + [SetRemote(p)];
        sent := sent + [Call("answer", DescriptionParams(local), answerId)];
      case AddCandidate(c) =>
        calls := calls + [AddIceCandidate(c)];
      case Ignore =>
    }
  }
}
