# Signaling and page-state rules of the ion-sample SFU clients

This project models the rules that the demo clients of an ion-sfu / LiveKit
setup implement around their media engines. It covers five clients: a Go
publisher and four browser pages (viewer-raw, viewer, viewer-sdk, js2).
Properties of the model are proved in Dafny.

- **Outbound JSON-RPC framing** (`Rpc`). Each outbound message is an
  `Envelope(name, params, id)`. The publisher's `sendJSONRPC` sets an id only
  when the id is non-zero. The browser clients' `jrpc.call` always sets one
  and `jrpc.notification` never does. The browser clients send a local ICE
  candidate as an id-less `trickle` with target 0, and so does the publisher
  as intended (as written it carries `"id": 0`; see "## Findings"). Every
  client drops the end-of-candidates null.
- **Inbound routing.** Each client variant has one classifier: `Publisher.Route`,
  `ViewerRaw.RawRoute` and `Js2.Js2Route`. Each maps a decoded message to
  `ApplyAnswer`, `Renegotiate`, `AddCandidate` or `Ignore`, first match wins.
  Each variant keeps its own guards: the Go publisher compares the id with
  `connectionID`, viewer-raw tests `result && id` for truthiness, and js2
  tests loose `id == 1`.
- **The publisher session** (`Publisher`). This is a class with
  `connectionID`, a ghost log of sent envelopes and a ghost log of
  peer-connection calls. Each method is proved equal to a pure transition
  function: `Send`, `Joined`, `Renegotiated`, `CandidateSent`, and `Run` for
  the read loop. Lemmas over `Run` show that the read loop sends only
  answers, and that `connectionID` changes only through an installed
  renegotiation. `Close` runs its body once, closes in a fixed order and
  reports errors in a fixed precedence.
- **Remote-media registries.** These are class fields updated in place, each
  with a value-level specification and preserved invariants:
  - viewer-raw keeps a stream-id → container map with at most one element of
    each kind.
  - viewer keeps participant containers with the name tag first, and runs a
    sweep over participants and publications.
  - viewer-sdk keeps elements keyed by kind and stream. Unmuting is idempotent
    and the remove handler captures one element.
  - js2 has a single last-write-wins sink.
- **The viewer's token** (`Base64`, `Token`). `b64` is proved to equal the
  unpadded base64url encoding of section 5 of RFC 4648, against a reference
  encoder with a decoder and a round-trip proof. The token is proved to be
  the three-segment JWS compact serialization of section 7.1 of RFC 7515,
  carrying the JWT claims of section 4.1 of RFC 7519.

The media engines (pion, RTCPeerConnection, the LiveKit and ion-sdk
clients), the sockets, the clock, randomness and the HMAC are opaque.
Their outcomes are method or function parameters. What the clients send
or call is kept in ghost logs.

## Model

| member | source | states |
|---|---|---|
| Sdp.ToSdpDescription | publisher/main.go:84-92 | nil gives nil; otherwise the SDP text is copied unchanged and the type becomes a name that parses back to the same type |
| Sdp.SdpDescriptionRoundTrip | publisher/main.go:88-91 | a serialized description reads back as the original description |
| Sdp.TypeNameInjective | publisher/main.go:89 | distinct SDP types get distinct names |
| Rpc.Request | publisher/main.go:102-124 | method and params are carried verbatim; the envelope has an id iff the id argument is non-zero, so id 0 gives a notification; the correlation id equals the argument |
| Rpc.Call | viewer-raw/index.js:126-129 | `jrpc.call` carries method and params verbatim and always has an id |
| Rpc.Notification | viewer-raw/index.js:60-63 | `jrpc.notification` carries method and params verbatim and has no id |
| Rpc.Trickle | viewer-raw/index.js:60-63 | a local candidate goes out as an id-less `trickle` with the candidate and target 0 |
| Rpc.GoTrickleIsNotification | publisher/main.go:209-212 | the publisher's `sendJSONRPC("trickle", …, 0)` is the same id-less trickle the browser clients send |
| Rpc.BrowserEnvelopesAreRequests | publisher/main.go:102-124 | every `jrpc.call` with a non-zero id is the publisher's request with that id, and every `jrpc.notification` is its request with id 0 |
| Rpc.BuildRequestAsWritten | publisher/main.go:109-116 | the request handed to the encoder keeps method and params and never sets the notification flag |
| Rpc.AsWrittenTrickleCarriesIdZero | publisher/main.go:109-119 | as written, a trickle with id 0 is encoded with an `id` member of 0, while the intended envelope has none |
| Engine.KindOf | viewer-raw/index.js:91-101 | "video" and "audio", and only those strings, name a media kind |
| Engine.OfferSteps | publisher/main.go:234-241 | create-offer always comes first; set-local with the offer follows iff an offer was produced |
| Engine.AnswerSteps | publisher/main.go:182-193 | set-remote, create-answer, set-local in that order, stopping after the first failure |
| Publisher.Route | publisher/main.go:145-176 | first match: a reply whose id equals `connectionID` with a result is applied as the answer even if it names a method; else an offer with params renegotiates; else a trickle with a decoded non-null candidate is added; else ignored (each branch as an iff, payloads preserved) |
| Publisher.RouteIgnoresIdWithoutResult | publisher/main.go:146 | without a result, the routing does not depend on `connectionID` |
| Publisher.OfferWithoutParamsIsSkipped | publisher/main.go:153 | an offer with null params that is not a reply is ignored |
| Publisher.Send | publisher/main.go:102-124 | the envelope is appended to the sent log iff marshal, encode and write all succeed; nothing else changes; an error is returned otherwise |
| Publisher.Renegotiated | publisher/main.go:181-198 | calls are set-remote, create-answer, set-local up to the first failure; on a failure nothing is sent and `connectionID` is unchanged; once all succeed `connectionID` is the fresh id and the `answer` goes out with that id and the local description; success iff all steps and the send succeed |
| Publisher.Joined | publisher/main.go:233-249 | create-offer and set-local are called; nothing is sent and the id is unchanged if either fails; otherwise `connectionID` is the fresh id and `join` goes out with that id, `sid` = room and the local description as offer |
| Publisher.ZeroIdJoinIsNotification | publisher/main.go:243-248 | a fresh id of 0 makes the join call a notification |
| Publisher.CandidateSent | publisher/main.go:202-217 | a nil candidate changes nothing; any other is sent as an id-less trickle with target 0 when the write succeeds; id, room and calls are unchanged |
| Publisher.RunSendsOnlyAnswers | publisher/main.go:127-177 | over any run of the read loop (`Run`, the fold of one iteration `Step` over the frames), earlier sends are kept and every message sent is an `answer` whose params are description-shaped (the local description itself may be nil) |
| Publisher.ConnectionIdOrigin | publisher/main.go:145-198 | after the read loop (`Run`), `connectionID` is the starting id or the fresh id of a frame whose renegotiation installed an answer |
| Publisher.TrackClosings | publisher/main.go:256-258 | every track is closed, in order |
| Publisher.CloseSteps | publisher/main.go:255-269 | tracks close before the peer connection, and that before the socket; the peer connection and socket close iff present |
| Publisher.CloseError | publisher/main.go:260-269 | a peer-connection close error takes precedence over a socket close error; nil iff neither fails |
| Publisher.Publisher.constructor | publisher/main.go:292-296 | a fresh publisher has id 0, the room, nothing sent or called, not closed |
| Publisher.Publisher.SendJsonRpc | publisher/main.go:102-124 | the new state and result are those of `Send` |
| Publisher.Publisher.HandleRenegotiation | publisher/main.go:181-198 | the new state and result are those of `Renegotiated` |
| Publisher.Publisher.Join | publisher/main.go:233-249 | the new state and result are those of `Joined` |
| Publisher.Publisher.OnIceCandidate | publisher/main.go:202-217 | the new state is that of `CandidateSent` |
| Publisher.Publisher.HandleMessages | publisher/main.go:127-178 | frames are handled until the first read error, which closes `done`; skipped and failed frames never stop the loop; the state equals `Run` over the frames handled |
| Publisher.Publisher.Close | publisher/main.go:252-272 | the first call closes in `CloseSteps` order and returns `CloseError`; later calls close nothing and return nil |
| Js.OneIsTruthyAndNotNull | js2/index.js:50 | a value loosely equal to 1 is truthy and not null |
| Status.SetClass | viewer/index.js:12-16 | className is `status` iff the type is empty, else `status ` followed by the type |
| Status.UpdateAgreesWithSet | viewer-raw/index.js:13-19 | `updateStatus`'s className (`UpdateClass`) is the one `setStatus` gives for type `error` or no type |
| Status.SetClassInjective | viewer/index.js:14 | the className determines the type it was set with |
| Status.StatusBar.constructor | viewer-raw/index.js:7 | the status element starts empty, with an empty console |
| Status.StatusBar.Update | viewer-raw/index.js:13-19 | text and className `status error` / `status` are set only when the element exists, otherwise both are unchanged (`Display()` is `AfterUpdate` of the old display); the `[ERROR]`/`[INFO]` console line is written always |
| Status.StatusBar.Set | viewer/index.js:12-16 | text, className and the `[type]` console line are set |
| ViewerRaw.RawRoute | viewer-raw/index.js:136-153 | first match: truthy result and id apply the result; else method `offer` renegotiates from params; else `trickle` adds params; else ignored (each as an iff) |
| ViewerRaw.MessageHandled | viewer-raw/index.js:132-154 | unparseable text changes nothing; the routed calls (`ActionCalls`: set-remote for a reply, the answer chain up to its first rejection for an offer, add-candidate for a trickle, none otherwise) are made; exactly one `answer` call with the local description is sent iff the message renegotiates and set-remote, create-answer and set-local all succeed |
| ViewerRaw.AnswerFollowsChain | viewer-raw/index.js:141-148 | an answer is sent only for an `offer`, right after set-remote, create-answer and set-local |
| ViewerRaw.Opened | viewer-raw/index.js:66-129 | recvonly video then recvonly audio transceivers come before the offer; `join` with the local description and `sid` = roomId is called iff the offer was created and set |
| ViewerRaw.IceStatus | viewer-raw/index.js:45-53 | a status is shown iff the state is connected, disconnected or failed; it is an error iff not connected; the text is "Streaming from room: " and the room for connected, "Connection " + state + ". Try refreshing." otherwise |
| ViewerRaw.NoDuplicateKindsCount | viewer-raw/index.js:91-109 | in a container without repeated kinds each kind occurs at most once, and exactly once iff present |
| ViewerRaw.Removed | viewer-raw/index.js:116 | removing a container keeps every other one without repeats, and changes nothing when it is absent |
| ViewerRaw.RemovedKeepsOrder | viewer-raw/index.js:116 | removing a registered container closes its gap: the containers before and after it keep their order |
| ViewerRaw.WithKind | viewer-raw/index.js:91-109 | an element of the track's kind is appended only if the container has none |
| ViewerRaw.TrackAdded | viewer-raw/index.js:70-121 | no stream: nothing changes; otherwise the first stream's container is registered (created and appended only if unseen), other containers unchanged, the kind added, the handler installed |
| ViewerRaw.TrackAddedKeepsWellFormed | viewer-raw/index.js:82-109 | containers in the page and in the map stay the same set, without repeats, with at most one element per kind |
| ViewerRaw.TrackAddedIdempotent | viewer-raw/index.js:82-109 | the same track event twice has the effect of once |
| ViewerRaw.AtMostOneElementPerKind | viewer-raw/index.js:91-109 | a registered container has at most one video and at most one audio element |
| ViewerRaw.TrackRemoved | viewer-raw/index.js:112-120 | with zero tracks left the container is deleted from the map and the page; with tracks left or no handler nothing changes |
| ViewerRaw.TrackRemovedKeepsWellFormed | viewer-raw/index.js:112-120 | removal keeps the registry well formed |
| ViewerRaw.StreamLifecycle | viewer-raw/index.js:82-120 | a stream's container appears with its first track and is gone once the stream has no tracks |
| ViewerRaw.RawViewer.constructor | viewer-raw/index.js:10-26 | empty registry; the element shows "Connecting to <url>..." with class `status` (text and className as `AfterUpdate` gives them: set when the element exists, unchanged otherwise), and the `[INFO]` line is logged |
| ViewerRaw.RawViewer.OnOpen | viewer-raw/index.js:42-130 | the element shows "Connected! Joining room: <room>" with class `status` (text and className as `AfterUpdate` gives them: set when the element exists, unchanged otherwise) and the line is logged; handlers installed, and the state of `Opened` |
| ViewerRaw.RawViewer.OnIceCandidate | viewer-raw/index.js:55-64 | a null candidate sends nothing; any other is sent as an id-less trickle with target 0 |
| ViewerRaw.RawViewer.OnTrack | viewer-raw/index.js:70-121 | the registry becomes that of `TrackAdded` |
| ViewerRaw.RawViewer.OnRemoveTrack | viewer-raw/index.js:112-120 | the registry becomes that of `TrackRemoved` |
| ViewerRaw.RawViewer.OnMessage | viewer-raw/index.js:132-154 | the signaling state becomes that of `MessageHandled` |
| ViewerRaw.RawViewer.OnIceStateChange | viewer-raw/index.js:45-53 | when `IceStatus` gives a line (and the handlers are installed) the element shows its text and class (text and className as `AfterUpdate` gives them: set when the element exists, unchanged otherwise) and the line is logged; for any other state text, className and log are unchanged |
| ViewerRaw.RawViewer.OnSocketError | viewer-raw/index.js:34-36 | the element shows "WebSocket error: " and the message, or "Connection failed", with class `status error` (text and className as `AfterUpdate` gives them: set when the element exists, unchanged otherwise), and the `[ERROR]` line is logged |
| Js2.Js2Route | js2/index.js:50-57 | first match: a non-null id loosely equal to 1 applies the result; else `offer` renegotiates from params; else `trickle` adds params; else ignored |
| Js2.NullCheckIsRedundant | js2/index.js:50 | the null test does not change which messages are applied as the answer |
| Js2.RoutesAgreeWithoutId | js2/index.js:50-57 | without an id, js2 and viewer-raw route every message alike |
| Js2.RoutesAgreeOnJoinReply | js2/index.js:50-51 | a reply with id 1 and a description is applied by both browser routers |
| Js2.RoutesDifferOnEmptyReply | js2/index.js:50-52 | a reply with id 1, no result and method `offer` is applied as an answer by js2 but renegotiated by viewer-raw |
| Js2.Js2Handled | js2/index.js:46-58 | unparseable text changes nothing; the calls are exactly those of the route (`Js2Calls`): an id-1 reply sets its result as the remote description, an offer sets its params, a trickle adds its params as a candidate, anything else changes nothing; an offer sends `answer` with the current local description at once and no answer is created; only offers send |
| Js2.Js2Opened | js2/index.js:31-43 | one sendrecv video transceiver before the offer; `join` with sid "test room" iff the offer was created and set |
| Js2.LastWriteWins | js2/index.js:33-35 | after any series of track events (`ShownAfter`, repeated `ontrack`) the element shows the first stream of the latest one |
| Js2.Js2Client.constructor | js2/index.js:1-11 | no handlers, an empty element, nothing sent |
| Js2.Js2Client.OnOpen | js2/index.js:17-44 | handlers installed and the state of `Js2Opened` |
| Js2.Js2Client.OnIceCandidate | js2/index.js:20-29 | a null candidate sends nothing; any other is sent as an id-less trickle with target 0 |
| Js2.Js2Client.OnTrack | js2/index.js:33-35 | the element is overwritten with the event's first stream |
| Js2.Js2Client.OnMessage | js2/index.js:46-58 | the signaling state becomes that of `Js2Handled` |
| Base64.UrlCharIsSafe | viewer/index.js:19 | the URL-safe alphabet has no `+`, `/`, `=` or `.` |
| Base64.EncodeStd | viewer/index.js:19 | standard base64 has 4 characters per started group of 3 bytes |
| Base64.EncodeUrl | viewer/index.js:19 | unpadded base64url of n bytes has ceil(8n/6) characters, all URL-safe |
| Base64.UrlRoundTrip | viewer/index.js:19 | decoding the base64url encoding gives the bytes back |
| Base64.Bytes | viewer/index.js:19 | a binary string's bytes are its code units |
| Base64.FromBytes | viewer/index.js:39 | `String.fromCharCode` of bytes is a binary string whose bytes are those bytes |
| Base64.Btoa | viewer/index.js:19 | `btoa` succeeds iff every code unit is at most 0xFF |
| Base64.ReplaceChar | viewer/index.js:19 | a global single-character replace changes exactly the matching characters |
| Base64.B64BytesIsEncodeUrl | viewer/index.js:19 | substituting and stripping the padding of standard base64 gives the unpadded base64url encoding |
| Base64.B64IsUnpaddedBase64Url | viewer/index.js:19 | `b64` (`B64`) succeeds iff the string is binary, and is then base64url of its bytes with no `+`, `/` or `=`, as long as unpadded base64 |
| Base64.EncodeStdPadding | viewer/index.js:19 | standard base64 ends in exactly (3 - n mod 3) mod 3 `=` characters |
| Base64.B64PlusPaddingIsSubstitutedBtoa | viewer/index.js:19 | `b64` plus the padding is `btoa` with `+`→`-` and `/`→`_` substituted one for one |
| Token.NowSeconds | viewer/index.js:23 | the floor of the millisecond clock in seconds |
| Token.ViewerClaims | viewer/index.js:26-34 | iss = apiKey, sub = identity, jti; grants roomJoin and canSubscribe, not canPublish, for the room |
| Token.ViewerTokenWindow | viewer/index.js:30-32 | iat = now, and the token is acceptable at t iff now <= t < now + 86400 |
| Token.Split | viewer/index.js:35-39 | a split yields at least one piece |
| Token.ThreeSegments | viewer/index.js:35-39 | dot-free segments joined by `.` split back into exactly those three |
| Token.HeaderIsBinary | viewer/index.js:25 | the header JSON is accepted by `btoa` |
| Token.EncodeUrlHasNoDot | viewer/index.js:35-39 | base64url text has no `.` |
| Token.MakeToken | viewer/index.js:25-39 | a token is made iff the claims' JSON text is a binary string |
| Token.MakeTokenValue | viewer/index.js:25-39 | the token is b64(header) `.` b64(claims) `.` b64(signature over that signing input) |
| Token.TokenIsCompactJws | viewer/index.js:25-39 | the token splits into exactly header, payload and signature segments, and starts with the signing input |
| Token.ViewerToken | viewer/index.js:22-40 | the token `makeToken` builds from the viewer claims at the current second has three segments, the second being the base64url JSON of those claims, and is accepted for exactly the day starting at that second |
| Viewer.Subscribed | viewer/index.js:42-66 | the participant's container is created with the name tag first only if absent; the track's element is appended; other containers unchanged |
| Viewer.SubscribedKeepsWellFormed | viewer/index.js:48-63 | every container keeps its name tag first, followed only by media elements |
| Viewer.SubscribedHasMedia | viewer/index.js:61-63 | after a subscription the container shows a media element |
| Viewer.Detached | viewer/index.js:70 | exactly the track's elements leave; a container without them is unchanged |
| Viewer.DetachedKeepsContainerOk | viewer/index.js:70 | detaching keeps the name tag first |
| Viewer.Unsubscribed | viewer/index.js:68-76 | the track's elements are removed everywhere; the participant's container is removed iff no media element remains; other containers stay |
| Viewer.UnsubscribedKeepsWellFormed | viewer/index.js:68-76 | unsubscription keeps every container well formed |
| Viewer.SubscribeUnsubscribeRoundTrip | viewer/index.js:42-76 | subscribing a new participant's track and unsubscribing it restores the page |
| Viewer.DoubleSubscription | viewer/index.js:104-110 | a track subscribed by the event and again by the sweep gets two elements, whether or not the participant had a container before (a fresh one holds the name tag and both); unsubscription removes both, and a container created by the two subscriptions goes |
| Viewer.Disconnected | viewer/index.js:95-99 | the participant's container is removed unconditionally; others unchanged |
| Viewer.SweepPublicationsKeepsWellFormed | viewer/index.js:105-109 | the inner sweep over one participant's publications (`SweepPublications`) keeps the page well formed |
| Viewer.SweepKeepsWellFormed | viewer/index.js:104-110 | the whole sweep over the remote participants (`Swept`) keeps the page well formed |
| Viewer.SweepSkipsIneligible | viewer/index.js:106 | publications without a track or not subscribed change neither the page nor the status |
| Viewer.NothingEligible | viewer/index.js:105-109 | the same, for one participant's publications |
| Viewer.LiveKitViewer.constructor | viewer/index.js:9-10 | no containers |
| Viewer.LiveKitViewer.HandleTrackSubscribed | viewer/index.js:42-66 | the page becomes `Subscribed`, and the status reads "Receiving stream from: identity" with class `status connected` |
| Viewer.LiveKitViewer.HandleTrackUnsubscribed | viewer/index.js:68-76 | the page becomes `Unsubscribed` |
| Viewer.LiveKitViewer.OnParticipantDisconnected | viewer/index.js:95-99 | the page becomes `Disconnected` |
| Viewer.LiveKitViewer.SweepExisting | viewer/index.js:104-110 | the page becomes `Swept`, the status log gains one line per eligible publication, and the element shows "Receiving stream from: " and the identity of the last participant with an eligible publication (`LastSubscribed`) with class `status connected`, or is unchanged when none is eligible |
| Viewer.PublicationLinesNameParticipant | viewer/index.js:105-109 | one participant's sweep logs a line iff one of its publications is eligible (`AnyEligible`), and every line names that participant |
| Viewer.LastSubscribedIsLastLine | viewer/index.js:104-110 | the sweep has a last subscription iff it logged anything, and its last console line is that participant's receiving line |
| ViewerSdk.ElementIdInjective | viewer-sdk/index.js:51-54 | `video-`/`audio-` ids name the kind and stream unambiguously |
| ViewerSdk.Find | viewer-sdk/index.js:51 | the lookup finds an element with that kind and stream, or proves there is none |
| ViewerSdk.WithoutSerial | viewer-sdk/index.js:64-66 | exactly the captured element leaves; ids stay unique |
| ViewerSdk.TrackArrived | viewer-sdk/index.js:45-87 | a video or audio track gets an unmute handler for its stream; any other kind changes nothing |
| ViewerSdk.Unmuted | viewer-sdk/index.js:49-86 | the element is created only if absent; the remove handler captures the element with that id; the status flag holds iff a new video element was created |
| ViewerSdk.UnmutedKeepsWellFormed | viewer-sdk/index.js:51-59 | element ids and serials stay unique |
| ViewerSdk.UnmuteIdempotent | viewer-sdk/index.js:48-61 | a repeated unmute changes nothing and shows no status |
| ViewerSdk.TrackRemoved | viewer-sdk/index.js:63-67 | without a prior unmute nothing changes; otherwise only the captured element is removed |
| ViewerSdk.TrackRemovedKeepsWellFormed | viewer-sdk/index.js:63-67 | removal keeps ids unique |
| ViewerSdk.UnmuteThenRemove | viewer-sdk/index.js:49-67 | after unmute and remove no element of that kind and stream is left and every other element remains |
| ViewerSdk.SdkViewer.constructor | viewer-sdk/index.js:6-27 | no elements or handlers; the element shows "Connecting to <url>..." with class `status` (text and className as `AfterUpdate` gives them: set when the element exists, unchanged otherwise), and the line is logged |
| ViewerSdk.SdkViewer.OnOpen | viewer-sdk/index.js:32-35 | the element shows "Connected! Joining room: <room>" with class `status` (text and className as `AfterUpdate` gives them: set when the element exists, unchanged otherwise) and the line is logged, then `join(roomId)` |
| ViewerSdk.SdkViewer.OnError | viewer-sdk/index.js:37-39 | the element shows "Connection error: " and the message, or "Unknown error", with class `status error` (text and className as `AfterUpdate` gives them: set when the element exists, unchanged otherwise), and the `[ERROR]` line is logged |
| ViewerSdk.SdkViewer.OnClose | viewer-sdk/index.js:41-43 | the element shows "Connection closed. Refresh to reconnect." with class `status error` (text and className as `AfterUpdate` gives them: set when the element exists, unchanged otherwise), and the `[ERROR]` line is logged |
| ViewerSdk.SdkViewer.OnTrack | viewer-sdk/index.js:45-88 | the state becomes that of `TrackArrived` |
| ViewerSdk.SdkViewer.OnUnmute | viewer-sdk/index.js:49-86 | the state becomes that of `Unmuted`; the "Receiving stream from room: <room>" line is logged and shown (text and className as `AfterUpdate` gives them: set when the element exists, unchanged otherwise) iff a video element was created; otherwise text, className and log are unchanged |
| ViewerSdk.SdkViewer.OnRemoveTrack | viewer-sdk/index.js:63-67 | the state becomes that of `TrackRemoved` |

## Left out

- Socket dial, read and write, `wsMutex`, the `done` channel and the goroutine are left out: they are I/O and concurrency. Reads arrive as a sequence of `Frame`s, writes as the ghost `sent` log, and `done` is a flag.
- `main`, flag parsing, media capture, codec setup and the remaining glue (publisher/main.go:279-387) are left out: they are configuration and hardware.
- The peer connection and the LiveKit and ion-sdk clients are opaque. Their outcomes, and `LocalDescription()` / `localDescription`, are parameters. The peer connection's own state (SDP, ICE, transceivers) is not modelled.
- JSON encoding and decoding are not modelled. Messages arrive already decoded, and a decode failure is a distinct input. A type name the WebRTC library rejects while decoding also counts as unparseable. In the browser clients, `JSON.parse` text that parses to null counts as unparseable too, because reading its fields throws.
- The JSON-RPC library's call-id allocation is not modelled: the id of each `jrpc.call` is a parameter.
- The HMAC, `crypto.randomUUID`, `Math.random`, `Date.now` and `uuid.New()` are left out, as are `JSON.stringify`. They are crypto, randomness, clock and encoding, and enter as parameters.
- Promise chains run to completion inside the event that starts them. Interleaving with other events is left out.
- Js.LooselyEqualsOne: strings count as equal to 1 only when they are exactly "1". Forms such as " 1" or "1.0", and objects that convert to 1, are not modelled.
- Js.JsValue: the loose `== 'offer'` in js2 is modelled as string equality, so objects whose string conversion is `offer` are not modelled. NaN is not a value of the model.
- Js2.Js2Client.OnMessage: the trickle branch uses `this.peerConnection`. The model assumes a classic script, where that is the global peer connection. In a module script it would throw.
- ViewerSdk.SdkViewer.OnRemoveTrack: the handler is modelled as if the library fires `onremovetrack` on the track.
- Viewer: the startup sequence (token, connect, catch) and the Connected/Disconnected status lines are left out. They are orchestration around the LiveKit client; the token, the handlers and the sweep are modelled.
- ViewerRaw.RawViewer: the close handler's status line is left out, because it needs number formatting for the close code.
- DOM details are left out: element attributes, `srcObject`, autoplay, muting and console-only logging. Only the keyed registry state and the status element are kept.
- Publisher.Send: the `sent` log records the intended envelope (`Rpc.Request`, id-less for id 0), not the bytes the encoder writes; the as-written encoding is modelled only by `Rpc.AsWrittenTrickleCarriesIdZero`.
- Publisher.Publisher.SendJsonRpc: a failed write is modelled as sending nothing. A partially written frame is not modelled.

## Findings

| source | as written | input that shows it | evidently intended | confidence | as-written member | corrected member |
|---|---|---|---|---|---|---|
| publisher/main.go:109-116 | the request's id field is left at its zero value when the id is 0, but the request's notification flag is never set, so the JSON-RPC library's encoder still writes an `id` member | a local ICE candidate, sent with id 0: it is encoded with `"id": 0` | an id-less notification for id 0, as the `if id != 0` test aims at | medium (depends on the library's encoder, which is not part of this model); not executed | Rpc.AsWrittenTrickleCarriesIdZero | Rpc.Request |
