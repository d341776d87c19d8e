/**
 * Session descriptions and ICE candidates as the peer connection hands them
 * out, and their JSON-serializable form (publisher/main.go:45-49, 83-92).
 */
module Sdp {
  import opened Wrappers

  /** The type of a session description, as the WebRTC library enumerates it. */
  datatype SdpType = Unknown | Offer | Pranswer | Answer | Rollback

  /** The string name the library gives each type (`SDPType.String()`). */
  function TypeName(t: SdpType): string
  {
    match t
    case Offer => "offer"
    case Pranswer => "pranswer"
    case Answer => "answer"
    case Rollback => "rollback"
    case Unknown => "unknown"
  }

  /** The library's parser for type names: any name it does not know is Unknown. */
  function ParseType(name: string): SdpType
  {
    if name == "offer" then Offer
    else if name == "pranswer" then Pranswer
    else if name == "answer" then Answer
    else if name == "rollback" then Rollback
    else Unknown
  }

  /** A session description as the peer connection holds it. */
  datatype SessionDescription = SessionDescription(typ: SdpType, sdp: string)

  /** `SDPDescription`: the same description with its type written as a string. */
  datatype SdpDescription = SdpDescription(typ: string, sdp: string)

  /** An ICE candidate in its serializable (`ICECandidateInit`) form. */
  datatype IceCandidateInit = IceCandidateInit(candidate: string, sdpMid: Option<string>, sdpMLineIndex: Option<nat>)

  /**
   * `toSDPDescription`: nil stays nil; otherwise the SDP text is copied
   * unchanged and the type becomes its name, a name that parses back to the
   * same type.
   */
  function ToSdpDescription(sd: Option<SessionDescription>): (r: Option<SdpDescription>)
    ensures r.None? <==> sd.None?
    ensures sd.Some? ==> r.value.sdp == sd.value.sdp && ParseType(r.value.typ) == sd.value.typ
  {
    match sd
    case None => None
    case Some(d) => Some(SdpDescription(TypeName(d.typ), d.sdp))
  }

  /** Reading a serialized description back, as the receiving side does. */
  function FromSdpDescription(d: SdpDescription): SessionDescription
  {
    SessionDescription(ParseType(d.typ), d.sdp)
  }

  /** Serializing a description loses nothing: it reads back as the same description. */
  lemma SdpDescriptionRoundTrip(sd: SessionDescription)
    ensures ToSdpDescription(Some(sd)).Some?
    ensures FromSdpDescription(ToSdpDescription(Some(sd)).value) == sd
  {
  }

  /** Distinct types get distinct names. */
  lemma TypeNameInjective(a: SdpType, b: SdpType)
    requires TypeName(a) == TypeName(b)
    ensures a == b
  {
    assert ParseType(TypeName(a)) == a;
    assert ParseType(TypeName(b)) == b;
  }
}
