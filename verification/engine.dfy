/**
 * The calls a client makes on its peer connection. The peer connection itself
 * is opaque: the model records which calls were made, in order, and takes
 * their outcomes as parameters.
 */
module Engine {
  import opened Wrappers

  datatype MediaKind = Audio | Video

  /** Transceiver direction; `SendRecv` is the default when none is given. */
  datatype Direction = SendRecv | RecvOnly | SendOnly

  /** One call on the peer connection. `D` is the description type, `C` the candidate type. */
  datatype EngineCall<D, C> =
    | CreateOffer
    | CreateAnswer
    | SetLocal(local: D)
    | SetRemote(remote: D)
    | AddIceCandidate(candidate: C)
    | AddTransceiver(kind: MediaKind, direction: Direction)

  /** The media kind a browser track-kind string names, if any. */
  function KindOf(kind: string): (k: Option<MediaKind>)
    ensures k == Some(Video) <==> kind == "video"
    ensures k == Some(Audio) <==> kind == "audio"
  {
    if kind == "video" then Some(Video) else if kind == "audio" then Some(Audio) else None
  }

  /**
   * The calls made to produce and install a local offer: create-offer, then,
   * when an offer was produced, set-local with it.
   */
  function OfferSteps<D, C>(offer: Option<D>): (steps: seq<EngineCall<D, C>>)
    ensures 1 <= |steps| <= 2 && steps[0] == CreateOffer
    ensures |steps| == 2 <==> offer.Some?
    ensures |steps| == 2 ==> steps[1] == SetLocal(offer.value)
  {
    [CreateOffer] + (if offer.Some? then [SetLocal(offer.value)] else [])
  }

  /**
   * The calls made to answer a remote offer: set-remote with the offer, then
   * create-answer, then set-local with the answer, stopping right after the
   * first call that fails.
   */
  function AnswerSteps<D, C>(offer: D, remoteOk: bool, answer: Option<D>): (steps: seq<EngineCall<D, C>>)
    ensures 1 <= |steps| <= 3 && steps[0] == SetRemote(offer)
    ensures |steps| >= 2 <==> remoteOk
    ensures |steps| >= 2 ==> steps[1] == CreateAnswer
    ensures |steps| == 3 <==> remoteOk && answer.Some?
    ensures |steps| == 3 ==> steps[2] == SetLocal(answer.value)
  {
    if !remoteOk then [SetRemote(offer)]
    else if answer.None? then [SetRemote(offer), CreateAnswer]
    else [SetRemote(offer), CreateAnswer, SetLocal(answer.value)]
  }
}
