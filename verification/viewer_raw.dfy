/**
 * The raw WebRTC viewer (viewer-raw/index.js): it joins with recvonly video
 * and audio transceivers, routes the SFU's messages, and keeps one container
 * per remote stream in `streamElements`, holding at most one video and one
 * audio element, until the stream has no tracks left.
 */
module ViewerRaw {
  import opened Wrappers
  import opened Rpc
  import opened Engine
  import opened Js
  import opened Status

  // ---------------------------------------------------------------- signaling

  /**
   * The `onmessage` chain, first match wins: truthy `result` and `id` apply
   * the answer; otherwise `method === 'offer'` renegotiates from `params`;
   * otherwise `method === 'trickle'` adds `params` as a candidate.
   */
  function RawRoute(m: Message): (a: JsAction)
    ensures a.ApplyAnswer? <==> Truthy(m.result) && Truthy(m.id)
    ensures a.Renegotiate? <==> !(Truthy(m.result) && Truthy(m.id)) && m.name == Str("offer")
    ensures a.AddCandidate? <==> !(Truthy(m.result) && Truthy(m.id)) && m.name == Str("trickle")
    ensures a.ApplyAnswer? ==> a.answer == m.result
    ensures a.Renegotiate? ==> a.offer == m.params
    ensures a.AddCandidate? ==> a.candidate == m.params
  {
    if Truthy(m.result) && Truthy(m.id) then ApplyAnswer(m.result)
    else if m.name == Str("offer") then Renegotiate(m.params)
    else if m.name == Str("trickle") then AddCandidate(m.params)
    else Ignore
  }

  /** The settled promises of the renegotiation chain, in call order, and the local description read at its end. */
  datatype ChainOutcome = ChainOutcome(remoteOk: bool, answer: Option<JsValue>, localOk: bool, local: JsValue)

  predicate AnswerInstalled(o: ChainOutcome)
  {
    o.remoteOk && o.answer.Some? && o.localOk
  }

  /** The peer-connection calls a routed message makes; the renegotiation chain stops at its first rejection. */
  function ActionCalls(a: JsAction, o: ChainOutcome): seq<JsCall>
  {
    match a
    case ApplyAnswer(d) => [SetRemote(d)]
    case Renegotiate(p) => AnswerSteps(p, o.remoteOk, o.answer)
    case AddCandidate(c) => [AddIceCandidate(c)]
    case Ignore => []
  }

  /**
   * One message event: unparseable text changes nothing; otherwise the routed
   * calls are made, and `answer` is called with the local description only
   * when set-remote, create-answer and set-local have all resolved.
   */
  function MessageHandled(s: Signaling, m: Inbound, o: ChainOutcome, answerId: nat): (r: Signaling)
    ensures m.Unparseable? ==> r == s
    ensures m.Parsed? ==> r.calls == s.calls + ActionCalls(RawRoute(m.data), o)
    ensures |r.sent| == |s.sent| + 1 <==> m.Parsed? && RawRoute(m.data).Renegotiate? && AnswerInstalled(o)
    ensures |r.sent| != |s.sent| + 1 ==> r.sent == s.sent
    ensures |r.sent| == |s.sent| + 1 ==> r.sent == s.sent + [Call("answer", DescriptionParams(o.local), answerId)]
  {
    match m
    case Unparseable => s
    case Parsed(data) =>
      var a := RawRoute(data);
      var sent := if a.Renegotiate? && AnswerInstalled(o) then s.sent + [Call("answer", DescriptionParams(o.local), answerId)] else s.sent;
      Signaling(sent, s.calls + ActionCalls(a, o))
  }

  /**
   * An `answer` goes out only for an `offer` message, right after the three
   * steps of the chain resolved in order.
   */
  lemma AnswerFollowsChain(s: Signaling, m: Inbound, o: ChainOutcome, answerId: nat)
    requires |MessageHandled(s, m, o, answerId).sent| > |s.sent|
    ensures m.Parsed? && m.data.name == Str("offer") && o.answer.Some?
    ensures MessageHandled(s, m, o, answerId).calls == s.calls + [SetRemote(m.data.params), CreateAnswer, SetLocal(o.answer.value)]
  {
  }

  /** What `createOffer`, `setLocalDescription` and the `localDescription` read gave during `onopen`. */
  datatype JoinOutcome = JoinOutcome(offer: Option<JsValue>, localOk: bool, local: JsValue)

  /**
   * `onopen`: a recvonly video and a recvonly audio transceiver are added
   * before the offer is created; `join` is called with the local description
   * and `sid` = the room once the offer is set locally.
   */
  function Opened(s: Signaling, roomId: string, o: JoinOutcome, joinId: nat): (r: Signaling)
    ensures |r.calls| >= |s.calls| + 3 && r.calls[..|s.calls|] == s.calls
    ensures r.calls[|s.calls|] == AddTransceiver(Video, RecvOnly) && r.calls[|s.calls| + 1] == AddTransceiver(Audio, RecvOnly)
    ensures r.calls[|s.calls| + 2..] == OfferSteps(o.offer)
    ensures r.sent == s.sent + (if o.offer.Some? && o.localOk then [Call("join", JoinParams(roomId, o.local), joinId)] else [])
  {
    var calls := s.calls + [AddTransceiver(Video, RecvOnly), AddTransceiver(Audio, RecvOnly)] + OfferSteps(o.offer);
    assert calls[|s.calls| + 2..] == OfferSteps(o.offer);
    Signaling(if o.offer.Some? && o.localOk then s.sent + [Call("join", JoinParams(roomId, o.local), joinId)] else s.sent, calls)
  }

  /** The status line the ICE state handler shows: a message and whether it is an error, or none. */
  function IceStatus(roomId: string, state: string): (r: Option<(string, bool)>)
    ensures r.Some? <==> state == "connected" || state == "disconnected" || state == "failed"
    ensures r.Some? ==> (r.value.1 <==> state != "connected")
    ensures state == "connected" ==> r.value.0 == "Streaming from room: " + roomId
    ensures r.Some? && state != "connected" ==> r.value.0 == "Connection " + state + ". Try refreshing."
  {
    if state == "connected" then Some(("Streaming from room: " + roomId, false))
    else if state == "disconnected" || state == "failed" then Some(("Connection " + state + ". Try refreshing.", true))
    else None
  }

  // ---------------------------------------------------------------- registry

  /** No media kind occurs twice among a container's elements. */
  predicate NoDuplicateKinds(c: seq<MediaKind>)
  {
    forall i, j :: 0 <= i < j < |c| ==> c[i] != c[j]
  }

  function Count(c: seq<MediaKind>, k: MediaKind): nat
  {
    if |c| == 0 then 0 else (if c[0] == k then 1 else 0) + Count(c[1..], k)
  }

  lemma {:induction false} NoDuplicateKindsCount(c: seq<MediaKind>, k: MediaKind)
    requires NoDuplicateKinds(c)
    ensures Count(c, k) <= 1
    ensures Count(c, k) == 1 <==> k in c
  {
    if |c| > 0 {
      assert NoDuplicateKinds(c[1..]) by {
        forall i, j | 0 <= i < j < |c[1..]| ensures c[1..][i] != c[1..][j] {
          assert c[1..][i] == c[i + 1] && c[1..][j] == c[j + 1];
        }
      }
      NoDuplicateKindsCount(c[1..], k);
      if c[0] == k {
        assert k !in c[1..] by {
          forall i | 0 <= i < |c[1..]| ensures c[1..][i] != k {
            assert c[1..][i] == c[i + 1];
          }
        }
      }
      assert k in c <==> c[0] == k || k in c[1..];
    }
  }

  predicate Distinct(s: seq<string>)
  {
    forall i, j :: 0 <= i < j < |s| ==> s[i] != s[j]
  }

  /** `s` without `x`, order kept. */
  function Removed(s: seq<string>, x: string): (r: seq<string>)
    ensures forall y :: y in r <==> y in s && y != x
    ensures Distinct(s) ==> Distinct(r)
    ensures |r| <= |s|
    ensures x !in s ==> r == s
  {
    if |s| == 0 then []
    else
      var rest := Removed(s[1..], x);
      assert Distinct(s) ==> Distinct(s[1..]) && s[0] !in s[1..] by {
        if Distinct(s) {
          forall i, j | 0 <= i < j < |s[1..]| ensures s[1..][i] != s[1..][j] {
            assert s[1..][i] == s[i + 1] && s[1..][j] == s[j + 1];
          }
          forall i | 0 <= i < |s[1..]| ensures s[1..][i] != s[0] {
            assert s[1..][i] == s[i + 1];
          }
        }
      }
      if s[0] == x then rest else [s[0]] + rest
  }

  /**
   * Removing a container that sits once at position `k` closes the gap: the
   * containers before and after it keep their order.
   */
  lemma {:induction false} RemovedKeepsOrder(s: seq<string>, x: string, k: nat)
    requires Distinct(s) && k < |s| && s[k] == x
    ensures Removed(s, x) == s[..k] + s[k + 1..]
    decreases k
  {
    if k == 0 {
      assert x !in s[1..] by {
        forall i | 0 <= i < |s[1..]| ensures s[1..][i] != x {
          assert s[1..][i] == s[i + 1];
        }
      }
    } else {
      assert Distinct(s[1..]) by {
        forall i, j | 0 <= i < j < |s[1..]| ensures s[1..][i] != s[1..][j] {
          assert s[1..][i] == s[i + 1] && s[1..][j] == s[j + 1];
        }
      }
      RemovedKeepsOrder(s[1..], x, k - 1);
      assert s[0] != x;
      assert s[1..][..k - 1] == s[1..k];
      assert s[1..][k..] == s[k + 1..];
      assert [s[0]] + s[1..k] == s[..k];
    }
  }

  /**
   * The stream registry: `streamElements` (stream id to the kinds of the
   * media elements in its container, in append order), the stream ids whose
   * containers are in the remotes element, in order, and the streams that
   * have a remove-track handler.
   */
  datatype Registry = Registry(containers: map<string, seq<MediaKind>>, remotes: seq<string>, handlers: set<string>)

  /**
   * A container is in the page exactly when it is registered, once, with at
   * most one element of each kind, and its stream has a remove-track handler.
   */
  predicate WellFormed(r: Registry)
  {
    Distinct(r.remotes)
    && (forall id :: id in r.containers ==> id in r.remotes)
    && (forall i :: 0 <= i < |r.remotes| ==> r.remotes[i] in r.containers)
    && (forall id :: id in r.containers ==> NoDuplicateKinds(r.containers[id]) && id in r.handlers)
  }

  /** The `querySelector` test: an element of that kind is appended only when the container has none. */
  function WithKind(c: seq<MediaKind>, kind: Option<MediaKind>): (r: seq<MediaKind>)
    ensures NoDuplicateKinds(c) ==> NoDuplicateKinds(r)
    ensures forall k :: k in r <==> k in c || kind == Some(k)
    ensures |r| >= |c| && r[..|c|] == c
  {
    if kind.Some? && kind.value !in c then c + [kind.value] else c
  }

  /**
   * `ontrack`: a track without a stream changes nothing. Otherwise the first
   * stream's container is looked up or created and registered, an element of
   * the track's kind is added if the container has none, and the stream gets
   * its remove-track handler.
   */
  function TrackAdded(r: Registry, kind: string, streams: seq<string>): (r': Registry)
    ensures |streams| == 0 ==> r' == r
    ensures |streams| > 0 ==> r'.containers.Keys == r.containers.Keys + {streams[0]} && r'.handlers == r.handlers + {streams[0]}
    ensures |streams| > 0 && streams[0] !in r.containers ==> r'.remotes == r.remotes + [streams[0]]
    ensures |streams| > 0 && streams[0] in r.containers ==> r'.remotes == r.remotes
    ensures |streams| > 0 ==> forall id :: id in r.containers && id != streams[0] ==> r'.containers[id] == r.containers[id]
    ensures |streams| > 0 ==> forall k :: k in r'.containers[streams[0]] <==> KindOf(kind) == Some(k) || (streams[0] in r.containers && k in r.containers[streams[0]])
  {
    if |streams| == 0 then r
    else
      var id := streams[0];
      var created := id !in r.containers;
      var c := if created then [] else r.containers[id];
      Registry(r.containers[id := WithKind(c, KindOf(kind))], if created then r.remotes + [id] else r.remotes, r.handlers + {id})
  }

  lemma TrackAddedKeepsWellFormed(r: Registry, kind: string, streams: seq<string>)
    requires WellFormed(r)
    ensures WellFormed(TrackAdded(r, kind, streams))
  {
    if |streams| > 0 {
      var id := streams[0];
      var r' := TrackAdded(r, kind, streams);
      if id !in r.containers {
        assert id !in r.remotes;
        forall i, j | 0 <= i < j < |r'.remotes| ensures r'.remotes[i] != r'.remotes[j] {
          if j == |r.remotes| {
            assert r'.remotes[i] == r.remotes[i];
          }
        }
        assert NoDuplicateKinds([]);
      }
    }
  }

  /** A second delivery of the same track event changes nothing. */
  lemma TrackAddedIdempotent(r: Registry, kind: string, streams: seq<string>)
    ensures TrackAdded(TrackAdded(r, kind, streams), kind, streams) == TrackAdded(r, kind, streams)
  {
  }

  /** However many tracks arrive, a container has at most one element of each kind. */
  lemma AtMostOneElementPerKind(r: Registry, id: string, k: MediaKind)
    requires WellFormed(r) && id in r.containers
    ensures Count(r.containers[id], k) <= 1
  {
    NoDuplicateKindsCount(r.containers[id], k);
  }

  /**
   * `onremovetrack`: when the stream has no tracks left its container is
   * removed from the page and its entry deleted; with tracks left, or with no
   * handler installed, nothing changes.
   */
  function TrackRemoved(r: Registry, streamId: string, remaining: nat): (r': Registry)
    ensures streamId !in r.handlers || remaining > 0 ==> r' == r
    ensures streamId in r.handlers && remaining == 0 ==> r'.containers == r.containers - {streamId} && r'.handlers == r.handlers
    ensures streamId in r.handlers && remaining == 0 && WellFormed(r) ==> streamId !in r'.remotes
  {
    if streamId in r.handlers && remaining == 0 then
      Registry(r.containers - {streamId}, if streamId in r.containers then Removed(r.remotes, streamId) else r.remotes, r.handlers)
    else r
  }

  lemma TrackRemovedKeepsWellFormed(r: Registry, streamId: string, remaining: nat)
    requires WellFormed(r)
    ensures WellFormed(TrackRemoved(r, streamId, remaining))
  {
    var r' := TrackRemoved(r, streamId, remaining);
    if streamId in r.handlers && remaining == 0 {
      assert Distinct(r'.remotes);
      forall id | id in r'.containers ensures id in r'.remotes {
        assert id in r.remotes && id != streamId;
      }
      forall i | 0 <= i < |r'.remotes| ensures r'.remotes[i] in r'.containers {
        var id := r'.remotes[i];
        assert id in r'.remotes;
        assert id in r.remotes && id != streamId;
        assert id in r.containers by {
          var j :| 0 <= j < |r.remotes| && r.remotes[j] == id;
        }
      }
    }
  }

  /** A stream's container lives from its first track until the stream has no tracks left. */
  lemma StreamLifecycle(r: Registry, kind: string, streams: seq<string>)
    requires WellFormed(r) && |streams| > 0
    ensures streams[0] in TrackAdded(r, kind, streams).remotes
    ensures var r' := TrackRemoved(TrackAdded(r, kind, streams), streams[0], 0);
      streams[0] !in r'.containers && streams[0] !in r'.remotes && WellFormed(r')
  {
    TrackAddedKeepsWellFormed(r, kind, streams);
    TrackRemovedKeepsWellFormed(TrackAdded(r, kind, streams), streams[0], 0);
  }

  // ---------------------------------------------------------------- the page

  class RawViewer {
    const roomId: string
    const status: StatusBar
    /** `onopen` has installed the peer-connection handlers. */
    var handlersInstalled: bool
    var streamElements: map<string, seq<MediaKind>>
    var remotes: seq<string>
    var removeHandlers: set<string>
    ghost var sent: seq<JsEnvelope>
    ghost var calls: seq<JsCall>

    ghost function Registered(): Registry
      reads this
    {
      Registry(streamElements, remotes, removeHandlers)
    }

    ghost function Signals(): Signaling
      reads this
    {
      Signaling(sent, calls)
    }

    /** The page script: empty registry, and the "Connecting" status. */
    constructor (roomId: string, sfuUrl: string, status: StatusBar)
      modifies status
      ensures this.roomId == roomId && this.status == status && !handlersInstalled
      ensures Registered() == Registry(map[], [], {}) && WellFormed(Registered())
      ensures Signals() == Signaling([], [])
      ensures status.Display() == AfterUpdate(status.present, old(status.Display()), "Connecting to " + sfuUrl + "...", false)
      ensures status.log == old(status.log) + [UpdateLogLine("Connecting to " + sfuUrl + "...", false)]
    {
      this.roomId := roomId;
      this.status := status;
      handlersInstalled := false;
      streamElements := map[];
      remotes := [];
      removeHandlers := {};
      sent := [];
      calls := [];
      new;
      status.Update("Connecting to " + sfuUrl + "...", false);
    }

    /** `webSocket.onopen` */
    method OnOpen(o: JoinOutcome, joinId: nat)
      modifies this`handlersInstalled, this`sent, this`calls, status
      ensures handlersInstalled
      ensures Signals() == Opened(old(Signals()), roomId, o, joinId)
      ensures status.Display() == AfterUpdate(status.present, old(status.Display()), "Connected! Joining room: " + roomId, false)
      ensures status.log == old(status.log) + [UpdateLogLine("Connected! Joining room: " + roomId, false)]
    {
      status.Update("Connected! Joining room: " + roomId, false);
      handlersInstalled := true;
      calls := calls + [AddTransceiver(Video, RecvOnly), AddTransceiver(Audio, RecvOnly)];
      calls := calls + [CreateOffer];
      if o.offer.None? {
        assert calls == old(calls) + [AddTransceiver(Video, RecvOnly), AddTransceiver(Audio, RecvOnly)] + OfferSteps(o.offer);
        return;
      }
      calls := calls + [SetLocal(o.offer.value)];
      assert calls == old(calls) + [AddTransceiver(Video, RecvOnly), AddTransceiver(Audio, RecvOnly)] + OfferSteps(o.offer);
      if !o.localOk {
        return;
      }
      sent := sent + [Call("join", JoinParams(roomId, o.local), joinId)];
    }

    /** `peerConnection.onicecandidate`: null is dropped, any other candidate is trickled. */
    method OnIceCandidate(candidate: JsValue)
      modifies this`sent
      ensures sent == old(sent) + (if handlersInstalled && !LooselyNull(candidate) then [Trickle(candidate)] else [])
    {
      if !handlersInstalled || LooselyNull(candidate) {
        return;
      }
      sent := sent + [Notification("trickle", TrickleParams(candidate, 0))];
    }

    /** `peerConnection.ontrack`, with the kind of `event.track` and the ids of `event.streams`. */
    method OnTrack(kind: string, streams: seq<string>)
      modifies this`streamElements, this`remotes, this`removeHandlers
      ensures Registered() == if handlersInstalled then TrackAdded(old(Registered()), kind, streams) else old(Registered())
    {
      if !handlersInstalled || |streams| == 0 {
        return;
      }
      var id := streams[0];
      if id !in streamElements {
        remotes := remotes + [id];
        streamElements := streamElements[id := []];
      }
      var k := KindOf(kind);
      if k.Some? && k.value !in streamElements[id] {
        streamElements := streamElements[id := streamElements[id] + [k.value]];
      }
      removeHandlers := removeHandlers + {id};
    }

    /** A stream's `onremovetrack`, with the number of tracks the stream still has. */
    method OnRemoveTrack(streamId: string, remaining: nat)
      modifies this`streamElements, this`remotes
      ensures Registered() == TrackRemoved(old(Registered()), streamId, remaining)
    {
      if streamId !in removeHandlers || remaining != 0 {
        return;
      }
      if streamId in streamElements {
        remotes := Removed(remotes, streamId);
      }
      streamElements := streamElements - {streamId};
    }

    /** `webSocket.onmessage`; the renegotiation chain runs to its end within the event. */
    method OnMessage(m: Inbound, o: ChainOutcome, answerId: nat)
      modifies this`sent, this`calls
      ensures Signals() == MessageHandled(old(Signals()), m, o, answerId)
    {
      if m.Unparseable? {
        return;
      }
      match RawRoute(m.data)
      case ApplyAnswer(d) =>
        calls := calls + [SetRemote(d)];
      case Renegotiate(p) =>
        calls := calls + [SetRemote(p)];
        if !o.remoteOk {
          return;
        }
        calls := calls + [CreateAnswer];
        if o.answer.None? {
          assert calls == old(calls) + AnswerSteps(p, o.remoteOk, o.answer);
          return;
        }
        calls := calls + [SetLocal(o.answer.value)];
        assert calls == old(calls) + AnswerSteps(p, o.remoteOk, o.answer);
        if !o.localOk {
          return;
        }
        sent := sent + [Call("answer", DescriptionParams(o.local), answerId)];
      case AddCandidate(c) =>
        calls := calls + [AddIceCandidate(c)];
      case Ignore =>
    }

    /** `peerConnection.oniceconnectionstatechange` */
    method OnIceStateChange(state: string)
      modifies status
      ensures var shown := IceStatus(roomId, state);
        status.log == old(status.log) + (if handlersInstalled && shown.Some? then [UpdateLogLine(shown.value.0, shown.value.1)] else [])
      ensures var shown := IceStatus(roomId, state);
        status.Display() == if handlersInstalled && shown.Some? then AfterUpdate(status.present, old(status.Display()), shown.value.0, shown.value.1) else old(status.Display())
    {
      if !handlersInstalled {
        return;
      }
      if state == "connected" {
        status.Update("Streaming from room: " + roomId, false);
      } else if state == "disconnected" || state == "failed" {
        status.Update("Connection " + state + ". Try refreshing.", true);
      }
    }

    /** `webSocket.onerror`; an empty message stands for a missing one. */
    method OnSocketError(message: string)
      modifies status
      ensures status.log == old(status.log) + [UpdateLogLine("WebSocket error: " + (if message != "" then message else "Connection failed"), true)]
      ensures status.present ==> status.className == "status error"
      ensures status.Display() == AfterUpdate(status.present, old(status.Display()), "WebSocket error: " + (if message != "" then message else "Connection failed"), true)
    {
      status.Update("WebSocket error: " + (if message != "" then message else "Connection failed"), true);
    }
  }
}
