/**
 * The Go publisher (publisher/main.go): it joins a room with a local offer,
 * answers the SFU's renegotiation offers, trickles its ICE candidates, and
 * routes every message it reads from the socket. The peer connection and the
 * socket are opaque: their outcomes are parameters, the calls made on the
 * peer connection and the messages written to the socket are ghost logs.
 */
module Publisher {
  import opened Wrappers
  import opened Sdp
  import opened Rpc
  import opened Engine

  type Uint32 = x: nat | x < 0x1_0000_0000
  type Uint64 = x: nat | x < 0x1_0000_0000_0000_0000

  /** What the publisher puts in params: a `*SDPDescription` (nil allowed) and an `ICECandidateInit`. */
  type GoParams = Params<Option<SdpDescription>, IceCandidateInit>
  type GoEnvelope = Envelope<Option<SdpDescription>, IceCandidateInit>
  type GoCall = EngineCall<SessionDescription, IceCandidateInit>
  type GoAction = Action<SessionDescription, IceCandidateInit>

  // ---------------------------------------------------------------- inbound

  /** The second decode of a trickle message, into `TrickleResponse`. */
  datatype TrickleDecode =
    | TrickleUnparseable
    | TrickleDecoded(target: int, candidate: Option<IceCandidateInit>)

  /**
   * A message decoded into `Response`: absent fields take Go's zero values
   * (nil, "" and 0).
   */
  datatype Response = Response(
    params: Option<SessionDescription>,
    result: Option<SessionDescription>,
    name: string,
    id: Uint64,
    trickle: TrickleDecode)

  /** One read from the socket. */
  datatype Frame = ReadFailed | Unparseable | Received(response: Response)

  /** The reply to the call the publisher made last (join or answer). */
  predicate AnswersCall(r: Response, connectionID: nat)
  {
    r.id == connectionID && r.result.Some?
  }

  predicate OffersRenegotiation(r: Response)
  {
    r.name == "offer" && r.params.Some?
  }

  predicate CarriesCandidate(r: Response)
  {
    r.name == "trickle" && r.trickle.TrickleDecoded? && r.trickle.candidate.Some?
  }

  /**
   * The `switch` of `handleMessages`, first match wins: a reply to the
   * current call is applied as the remote answer even if it also names a
   * method; otherwise an offer with params renegotiates; otherwise a trickle
   * whose candidate decodes and is not null is added; everything else is
   * skipped.
   */
  function Route(r: Response, connectionID: nat): (a: GoAction)
    ensures a.ApplyAnswer? <==> AnswersCall(r, connectionID)
    ensures a.Renegotiate? <==> !AnswersCall(r, connectionID) && OffersRenegotiation(r)
    ensures a.AddCandidate? <==> !AnswersCall(r, connectionID) && !OffersRenegotiation(r) && CarriesCandidate(r)
    ensures a.ApplyAnswer? ==> a.answer == r.result.value
    ensures a.Renegotiate? ==> a.offer == r.params.value
    ensures a.AddCandidate? ==> a.candidate == r.trickle.candidate.value
  {
    if r.id == connectionID && r.result.Some? then ApplyAnswer(r.result.value)
    else if r.name == "offer" && r.params.Some? then Renegotiate(r.params.value)
    else if r.name == "trickle" then
      match r.trickle
      case TrickleDecoded(_, Some(c)) => AddCandidate(c)
      case _ => Ignore
    else Ignore
  }

  /** The connection id only matters for messages that carry a result. */
  lemma RouteIgnoresIdWithoutResult(r: Response, a: nat, b: nat)
    requires r.result.None?
    ensures Route(r, a) == Route(r, b)
  {
  }

  /** An offer whose params are null falls through to neither renegotiation nor trickle. */
  lemma OfferWithoutParamsIsSkipped(r: Response, connectionID: nat)
    requires r.name == "offer" && r.params.None? && !AnswersCall(r, connectionID)
    ensures Route(r, connectionID) == Ignore
  {
  }

  // ---------------------------------------------------------------- session

  /** The publisher's signaling state and what it has done so far. */
  datatype Session = Session(connectionID: Uint64, room: string, sent: seq<GoEnvelope>, calls: seq<GoCall>)

  /** How a `sendJSONRPC` call ends: the frame written, or the step that failed. */
  datatype SendOutcome = Written | MarshalFailed | EncodeFailed | WriteFailed

  datatype Failure = CreateOfferFailed | CreateAnswerFailed | SetLocalFailed | SetRemoteFailed | SendFailed(outcome: SendOutcome)

  /** `sendJSONRPC`: the envelope reaches the socket only when every step succeeds. */
  function Send(s: Session, name: string, params: GoParams, id: nat, outcome: SendOutcome): (r: (Session, Option<Failure>))
    ensures r.0.connectionID == s.connectionID && r.0.room == s.room && r.0.calls == s.calls
    ensures r.1.None? <==> outcome == Written
    ensures r.0.sent == s.sent + (if outcome == Written then [Request(name, params, id)] else [])
  {
    if outcome == Written then (s.(sent := s.sent + [Request(name, params, id)]), None)
    else (s, Some(SendFailed(outcome)))
  }

  /** What the peer connection and the socket report during one answer to an offer, in call order. */
  datatype AnswerOutcome = AnswerOutcome(
    remoteOk: bool,
    answer: Option<SessionDescription>,
    localOk: bool,
    local: Option<SessionDescription>,
    freshId: Uint32,
    send: SendOutcome)

  /** Set-remote, create-answer and set-local all succeeded. */
  predicate AnswerInstalled(o: AnswerOutcome)
  {
    o.remoteOk && o.answer.Some? && o.localOk
  }

  /**
   * `handleRenegotiation`: set-remote, create-answer, set-local in that order,
   * stopping at the first failure with nothing sent and the connection id
   * unchanged. Once all three succeed the connection id is refreshed (before
   * the send, so even a failed send leaves it refreshed) and `answer` goes out
   * with that id and the local description.
   */
  function Renegotiated(s: Session, offer: SessionDescription, o: AnswerOutcome): (r: (Session, Option<Failure>))
    ensures r.0.room == s.room
    ensures r.0.calls == s.calls + AnswerSteps(offer, o.remoteOk, o.answer)
    ensures !AnswerInstalled(o) ==> r.0.connectionID == s.connectionID && r.0.sent == s.sent && r.1.Some?
    ensures AnswerInstalled(o) ==> r.0.connectionID == o.freshId
    ensures AnswerInstalled(o) ==>
      r.0.sent == s.sent + (if o.send == Written then [Request("answer", DescriptionParams(ToSdpDescription(o.local)), o.freshId)] else [])
    ensures r.1.None? <==> AnswerInstalled(o) && o.send == Written
  {
    var s1 := s.(calls := s.calls + AnswerSteps(offer, o.remoteOk, o.answer));
    if !o.remoteOk then (s1, Some(SetRemoteFailed))
    else if o.answer.None? then (s1, Some(CreateAnswerFailed))
    else if !o.localOk then (s1, Some(SetLocalFailed))
    else Send(s1.(connectionID := o.freshId), "answer", DescriptionParams(ToSdpDescription(o.local)), o.freshId, o.send)
  }

  /** What the peer connection and the socket report during `join`, in call order. */
  datatype OfferOutcome = OfferOutcome(
    offer: Option<SessionDescription>,
    localOk: bool,
    local: Option<SessionDescription>,
    freshId: Uint32,
    send: SendOutcome)

  /**
   * `join`: nothing is sent if create-offer or set-local fails; otherwise a
   * fresh connection id is recorded and `join` goes out with that id, the room
   * as `sid` and the local description as `offer`.
   */
  function Joined(s: Session, o: OfferOutcome): (r: (Session, Option<Failure>))
    ensures r.0.room == s.room
    ensures r.0.calls == s.calls + OfferSteps(o.offer)
    ensures !(o.offer.Some? && o.localOk) ==> r.0.connectionID == s.connectionID && r.0.sent == s.sent && r.1.Some?
    ensures o.offer.Some? && o.localOk ==> r.0.connectionID == o.freshId
    ensures o.offer.Some? && o.localOk ==>
      r.0.sent == s.sent + (if o.send == Written then [Request("join", JoinParams(s.room, ToSdpDescription(o.local)), o.freshId)] else [])
    ensures r.1.None? <==> o.offer.Some? && o.localOk && o.send == Written
  {
    var s1 := s.(calls := s.calls + OfferSteps(o.offer));
    if o.offer.None? then (s1, Some(CreateOfferFailed))
    else if !o.localOk then (s1, Some(SetLocalFailed))
    else Send(s1.(connectionID := o.freshId), "join", JoinParams(s.room, ToSdpDescription(o.local)), o.freshId, o.send)
  }

  /** A fresh id of 0 turns the join call into a notification, which no reply can match by id. */
  lemma ZeroIdJoinIsNotification(s: Session, o: OfferOutcome)
    requires o.offer.Some? && o.localOk && o.send == Written && o.freshId == 0
    ensures var r := Joined(s, o).0;
      |r.sent| == |s.sent| + 1 && IsNotification(r.sent[|s.sent|]) && r.sent[|s.sent|].name == "join"
  {
  }

  /**
   * The local candidate callback: the end-of-candidates nil is dropped,
   * every other candidate is sent as an id-less `trickle` with target 0.
   */
  function CandidateSent(s: Session, c: Option<IceCandidateInit>, outcome: SendOutcome): (r: (Session, Option<Failure>))
    ensures c.None? ==> r == (s, None)
    ensures r.0.connectionID == s.connectionID && r.0.room == s.room && r.0.calls == s.calls
    ensures c.Some? ==> r.0.sent == s.sent + (if outcome == Written then [Trickle(c.value)] else [])
  {
    match c
    case None => (s, None)
    case Some(cand) => Send(s, "trickle", TrickleParams(cand, 0), 0, outcome)
  }

  /**
   * One iteration of the read loop for a frame that is not a read error:
   * unparseable frames and skipped routes leave the session as it was, and
   * failures are only logged.
   */
  function Step(s: Session, f: Frame, o: AnswerOutcome): Session
  {
    match f
    case Received(resp) =>
      (match Route(resp, s.connectionID)
       case ApplyAnswer(d) => s.(calls := s.calls + [SetRemote(d)])
       case Renegotiate(offer) => Renegotiated(s, offer, o).0
       case AddCandidate(c) => s.(calls := s.calls + [AddIceCandidate(c)])
       case Ignore => s)
    case _ => s
  }

  /** The session after the loop has handled `fs` in order, `os` giving each iteration's outcomes. */
  function Run(s: Session, fs: seq<Frame>, os: seq<AnswerOutcome>): Session
    requires |fs| == |os|
    decreases |fs|
  {
    if |fs| == 0 then s
    else Step(Run(s, fs[..|fs| - 1], os[..|os| - 1]), fs[|fs| - 1], os[|os| - 1])
  }

  /**
   * While reading, the publisher sends nothing but `answer` messages: what
   * was sent before stays, and every message added is an answer carrying a
   * description.
   */
  lemma {:induction false} RunSendsOnlyAnswers(s: Session, fs: seq<Frame>, os: seq<AnswerOutcome>)
    requires |fs| == |os|
    ensures var r := Run(s, fs, os);
      |s.sent| <= |r.sent| && r.sent[..|s.sent|] == s.sent &&
      forall k :: |s.sent| <= k < |r.sent| ==> r.sent[k].name == "answer" && r.sent[k].params.DescriptionParams?
    decreases |fs|
  {
    if |fs| > 0 {
      var fs', os' := fs[..|fs| - 1], os[..|os| - 1];
      RunSendsOnlyAnswers(s, fs', os');
      var m := Run(s, fs', os');
      var r := Step(m, fs[|fs| - 1], os[|os| - 1]);
      assert |m.sent| <= |r.sent| && r.sent[..|m.sent|] == m.sent;
      assert forall k :: |m.sent| <= k < |r.sent| ==> r.sent[k].name == "answer" && r.sent[k].params.DescriptionParams?;
      forall k | |s.sent| <= k < |r.sent|
        ensures r.sent[k].name == "answer" && r.sent[k].params.DescriptionParams?
      {
        if k < |m.sent| {
          assert r.sent[k] == m.sent[k];
        }
      }
      assert r.sent[..|s.sent|] == m.sent[..|s.sent|];
    }
  }

  /** Frame `j` was an offer whose answer was installed. */
  predicate RenegotiatedAt(fs: seq<Frame>, os: seq<AnswerOutcome>, j: int)
    requires |fs| == |os| && 0 <= j < |fs|
  {
    fs[j].Received? && OffersRenegotiation(fs[j].response) && AnswerInstalled(os[j])
  }

  /**
   * The connection id only changes through a renegotiation whose answer was
   * installed: after the loop it is the id the session started with, or the
   * fresh id drawn for one of those.
   */
  lemma {:induction false} ConnectionIdOrigin(s: Session, fs: seq<Frame>, os: seq<AnswerOutcome>)
    requires |fs| == |os|
    ensures var id := Run(s, fs, os).connectionID;
      id == s.connectionID || exists j :: 0 <= j < |fs| && RenegotiatedAt(fs, os, j) && os[j].freshId == id
    decreases |fs|
  {
    if |fs| > 0 {
      var n := |fs| - 1;
      var fs', os' := fs[..n], os[..n];
      ConnectionIdOrigin(s, fs', os');
      var m := Run(s, fs', os');
      var id := Run(s, fs, os).connectionID;
      if id != m.connectionID {
        assert RenegotiatedAt(fs, os, n) && os[n].freshId == id;
      } else if id != s.connectionID {
        var j :| 0 <= j < n && RenegotiatedAt(fs', os', j) && os'[j].freshId == m.connectionID;
        assert RenegotiatedAt(fs, os, j);
      }
    }
  }

  // ---------------------------------------------------------------- close

  /** What `Close` shuts down, in order. */
  datatype Closing = TrackClosed(index: nat) | PeerConnectionClosed | SocketClosed

  datatype CloseFailure = PeerConnectionCloseFailed | SocketCloseFailed

  function TrackClosings(n: nat): (r: seq<Closing>)
    ensures |r| == n && forall i :: 0 <= i < n ==> r[i] == TrackClosed(i)
  {
    if n == 0 then [] else TrackClosings(n - 1) + [TrackClosed(n - 1)]
  }

  /** Tracks first, then the peer connection, then the socket. */
  function Rank(c: Closing): nat
  {
    match c
    case TrackClosed(_) => 0
    case PeerConnectionClosed => 1
    case SocketClosed => 2
  }

  /**
   * The body of `Close`: every track in order, then the peer connection and
   * the socket when they exist.
   */
  function CloseSteps(trackCount: nat, hasPeerConnection: bool, hasSocket: bool): (r: seq<Closing>)
    ensures forall i, j :: 0 <= i < j < |r| ==> Rank(r[i]) <= Rank(r[j])
    ensures |r| >= trackCount && r[..trackCount] == TrackClosings(trackCount)
    ensures PeerConnectionClosed in r <==> hasPeerConnection
    ensures SocketClosed in r <==> hasSocket
  {
    TrackClosings(trackCount)
      + (if hasPeerConnection then [PeerConnectionClosed] else [])
      + (if hasSocket then [SocketClosed] else [])
  }

  /** The error `Close` returns from its body: the peer connection's takes precedence over the socket's. */
  function CloseError(hasPeerConnection: bool, pcFails: bool, hasSocket: bool, socketFails: bool): (e: Option<CloseFailure>)
    ensures e == Some(PeerConnectionCloseFailed) <==> hasPeerConnection && pcFails
    ensures e == Some(SocketCloseFailed) <==> !(hasPeerConnection && pcFails) && hasSocket && socketFails
    ensures e.None? <==> !(hasPeerConnection && pcFails) && !(hasSocket && socketFails)
  {
    if hasPeerConnection && pcFails then Some(PeerConnectionCloseFailed)
    else if hasSocket && socketFails then Some(SocketCloseFailed)
    else None
  }

  // ---------------------------------------------------------------- the publisher

  class Publisher {
    var connectionID: Uint64
    const room: string
    /** `len(p.tracks)` */
    const trackCount: nat
    /** `p.peerConnection != nil` */
    const hasPeerConnection: bool
    /** `p.wsConn != nil` */
    const hasSocket: bool
    /** `closeOnce` has run its function. */
    var closed: bool
    /** `done` has been closed. */
    var done: bool
    ghost var sent: seq<GoEnvelope>
    ghost var calls: seq<GoCall>
    ghost var closeLog: seq<Closing>

    ghost function State(): Session
      reads this
    {
      Session(connectionID, room, sent, calls)
    }

    constructor (room: string, trackCount: nat, hasPeerConnection: bool, hasSocket: bool)
      ensures State() == Session(0, room, [], [])
      ensures this.trackCount == trackCount && this.hasPeerConnection == hasPeerConnection && this.hasSocket == hasSocket
      ensures !closed && !done && closeLog == []
    {
      this.room := room;
      this.trackCount := trackCount;
      this.hasPeerConnection := hasPeerConnection;
      this.hasSocket := hasSocket;
      connectionID := 0;
      closed := false;
      done := false;
      sent := [];
      calls := [];
      closeLog := [];
    }

    /** `sendJSONRPC`: marshal the params, build the request, encode it, write it. */
    method SendJsonRpc(name: string, params: GoParams, id: nat, outcome: SendOutcome) returns (err: Option<Failure>)
      modifies this`sent
      ensures (State(), err) == Send(old(State()), name, params, id, outcome)
    {
      if outcome == MarshalFailed {
        return Some(SendFailed(MarshalFailed));
      }
      var message := Request(name, params, id);
      if outcome == EncodeFailed {
        return Some(SendFailed(EncodeFailed));
      }
      if outcome == WriteFailed {
        return Some(SendFailed(WriteFailed));
      }
      sent := sent + [message];
      return None;
    }

    /** `handleRenegotiation` */
    method HandleRenegotiation(offer: SessionDescription, o: AnswerOutcome) returns (err: Option<Failure>)
      modifies this`connectionID, this`calls, this`sent
      ensures (State(), err) == Renegotiated(old(State()), offer, o)
    {
      calls := calls + [SetRemote(offer)];
      if !o.remoteOk {
        return Some(SetRemoteFailed);
      }
      calls := calls + [CreateAnswer];
      assert calls == old(calls) + [SetRemote(offer), CreateAnswer];
      if o.answer.None? {
        return Some(CreateAnswerFailed);
      }
      calls := calls + [SetLocal(o.answer.value)];
      assert calls == old(calls) + [SetRemote(offer), CreateAnswer, SetLocal(o.answer.value)];
      if !o.localOk {
        return Some(SetLocalFailed);
      }
      connectionID := o.freshId;
      err := SendJsonRpc("answer", DescriptionParams(ToSdpDescription(o.local)), connectionID, o.send);
    }

    /** `join` */
    method Join(o: OfferOutcome) returns (err: Option<Failure>)
      modifies this`connectionID, this`calls, this`sent
      ensures (State(), err) == Joined(old(State()), o)
    {
      calls := calls + [CreateOffer];
      if o.offer.None? {
        assert calls == old(calls) + OfferSteps(o.offer);
        return Some(CreateOfferFailed);
      }
      calls := calls + [SetLocal(o.offer.value)];
      assert calls == old(calls) + OfferSteps(o.offer);
      if !o.localOk {
        return Some(SetLocalFailed);
      }
      connectionID := o.freshId;
      err := SendJsonRpc("join", JoinParams(room, ToSdpDescription(o.local)), connectionID, o.send);
    }

    /** The `OnICECandidate` callback installed by `setupICEHandlers`; a send failure is only logged. */
    method OnIceCandidate(c: Option<IceCandidateInit>, outcome: SendOutcome)
      modifies this`sent
      ensures State() == CandidateSent(old(State()), c, outcome).0
    {
      if c.None? {
        return;
      }
      var _ := SendJsonRpc("trickle", TrickleParams(c.value, 0), 0, outcome);
    }

    /**
     * `handleMessages`: reads frames until a read fails, which closes `done`.
     * Unparseable frames, skipped routes and failed handling never end the
     * loop. If every frame was read the loop is still waiting for the next.
     */
    method HandleMessages(frames: seq<Frame>, outcomes: seq<AnswerOutcome>) returns (consumed: nat)
      requires |frames| == |outcomes|
      modifies this`connectionID, this`calls, this`sent, this`done
      ensures consumed <= |frames|
      ensures forall j :: 0 <= j < consumed ==> !frames[j].ReadFailed?
      ensures consumed < |frames| ==> frames[consumed].ReadFailed?
      ensures done == (old(done) || consumed < |frames|)
      ensures State() == Run(old(State()), frames[..consumed], outcomes[..consumed])
    {
      var i := 0;
      while i < |frames| && !frames[i].ReadFailed?
        invariant 0 <= i <= |frames|
        invariant forall j :: 0 <= j < i ==> !frames[j].ReadFailed?
        invariant State() == Run(old(State()), frames[..i], outcomes[..i])
        invariant done == old(done)
      {
        ghost var before := State();
        if frames[i].Received? {
          match Route(frames[i].response, connectionID)
          case ApplyAnswer(d) =>
            calls := calls + [SetRemote(d)];
          case Renegotiate(offer) =>
            var _ := HandleRenegotiation(offer, outcomes[i]);
          case AddCandidate(c) =>
            calls := calls + [AddIceCandidate(c)];
          case Ignore =>
        }
        assert State() == Step(before, frames[i], outcomes[i]);
        assert frames[..i + 1][..i] == frames[..i];
        assert outcomes[..i + 1][..i] == outcomes[..i];
        i := i + 1;
      }
      consumed := i;
      if i < |frames| {
        done := true;
      }
    }

    /**
     * `Close`: the body runs at most once; later calls return nil. The body
     * closes every track, then the peer connection, then the socket, and
     * returns the first error in that order.
     */
    method Close(pcFails: bool, socketFails: bool) returns (err: Option<CloseFailure>)
      modifies this`closed, this`closeLog
      ensures closed
      ensures old(closed) ==> err.None? && closeLog == old(closeLog)
      ensures !old(closed) ==> closeLog == old(closeLog) + CloseSteps(trackCount, hasPeerConnection, hasSocket)
      ensures !old(closed) ==> err == CloseError(hasPeerConnection, pcFails, hasSocket, socketFails)
    {
      err := None;
      if closed {
        return;
      }
      closed := true;
      var i := 0;
      while i < trackCount
        invariant 0 <= i <= trackCount
        invariant closed
        invariant closeLog == old(closeLog) + TrackClosings(i)
      {
        closeLog := closeLog + [TrackClosed(i)];
        i := i + 1;
      }
      if hasPeerConnection {
        closeLog := closeLog + [PeerConnectionClosed];
        if pcFails {
          err := Some(PeerConnectionCloseFailed);
        }
      }
      if hasSocket {
        closeLog := closeLog + [SocketClosed];
        if socketFails && err.None? {
          err := Some(SocketCloseFailed);
        }
      }
    }
  }
}
