/**
 * The ion-sdk viewer (viewer-sdk/index.js): the client library handles the
 * signaling; the page keeps, in the remotes element, at most one
 * `video-<streamId>` and one `audio-<streamId>` element per stream, created
 * when a track unmutes and removed by that track's remove handler.
 */
module ViewerSdk {
  import opened Wrappers
  import opened Engine
  import opened Status

  /** A media element in the remotes element; `serial` tells apart elements created at different times. */
  datatype Elem = Elem(serial: nat, kind: MediaKind, streamId: string)

  /** The element id the page gives an element of that kind for that stream. */
  function ElementId(kind: MediaKind, streamId: string): string
  {
    (if kind == Video then "video-" else "audio-") + streamId
  }

  /** Element ids name the kind and the stream unambiguously. */
  lemma ElementIdInjective(k1: MediaKind, s1: string, k2: MediaKind, s2: string)
    requires ElementId(k1, s1) == ElementId(k2, s2)
    ensures k1 == k2 && s1 == s2
  {
    assert ElementId(k1, s1)[0] == ElementId(k2, s2)[0];
    assert ElementId(k1, s1)[6..] == s1;
    assert ElementId(k2, s2)[6..] == s2;
  }

  /** The kind and stream a track's unmute handler was installed for. */
  datatype Binding = Binding(kind: MediaKind, streamId: string)

  predicate Shows(e: Elem, b: Binding)
  {
    e.kind == b.kind && e.streamId == b.streamId
  }

  /** `document.getElementById`: the position of the element with the binding's id, if any. */
  function Find(children: seq<Elem>, b: Binding): (r: Option<nat>)
    ensures r.Some? ==> r.value < |children| && Shows(children[r.value], b)
    ensures r.None? ==> forall i :: 0 <= i < |children| ==> !Shows(children[i], b)
  {
    if |children| == 0 then None
    else if Shows(children[0], b) then Some(0)
    else
      match Find(children[1..], b)
      case None => None
      case Some(i) => Some(i + 1)
  }

  /** No two elements share a serial or an element id. */
  predicate DistinctElems(c: seq<Elem>)
  {
    forall i, j :: 0 <= i < j < |c| ==> c[i].serial != c[j].serial && !(c[i].kind == c[j].kind && c[i].streamId == c[j].streamId)
  }

  /** `remotesDiv.removeChild`: the element with that serial leaves, the others keep their order. */
  function WithoutSerial(c: seq<Elem>, serial: nat): (r: seq<Elem>)
    ensures forall e :: e in r <==> e in c && e.serial != serial
    ensures DistinctElems(c) ==> DistinctElems(r)
    ensures |r| <= |c|
  {
    if |c| == 0 then []
    else
      var rest := WithoutSerial(c[1..], serial);
      assert DistinctElems(c) ==> DistinctElems(c[1..]) && forall e :: e in c[1..] ==> e.serial != c[0].serial && !(e.kind == c[0].kind && e.streamId == c[0].streamId) by {
        if DistinctElems(c) {
          forall i, j | 0 <= i < j < |c[1..]|
            ensures c[1..][i].serial != c[1..][j].serial && !(c[1..][i].kind == c[1..][j].kind && c[1..][i].streamId == c[1..][j].streamId)
          {
            assert c[1..][i] == c[i + 1] && c[1..][j] == c[j + 1];
          }
          forall e | e in c[1..] ensures e.serial != c[0].serial && !(e.kind == c[0].kind && e.streamId == c[0].streamId) {
            var k :| 0 <= k < |c[1..]| && c[1..][k] == e;
            assert c[k + 1] == e;
          }
        }
      }
      if c[0].serial == serial then rest else [c[0]] + rest
  }

  /**
   * The page state: the remotes element's children, the next serial, the
   * unmute handler of each track (track id to binding) and the element each
   * track's remove handler captured (track id to serial).
   */
  datatype Remotes = Remotes(children: seq<Elem>, nextSerial: nat, unmute: map<string, Binding>, remove: map<string, nat>)

  /** Element ids are unique and every serial was handed out. */
  predicate WellFormed(st: Remotes)
  {
    DistinctElems(st.children)
    && (forall e :: e in st.children ==> e.serial < st.nextSerial)
  }

  /**
   * `clientLocal.ontrack`: a video or audio track gets an unmute handler for
   * its stream; a track of any other kind gets no handler.
   */
  function TrackArrived(st: Remotes, trackId: string, kind: string, streamId: string): (r: Remotes)
    ensures KindOf(kind).None? ==> r == st
    ensures KindOf(kind).Some? ==> r == st.(unmute := st.unmute[trackId := Binding(KindOf(kind).value, streamId)])
  {
    match KindOf(kind)
    case None => st
    case Some(k) => st.(unmute := st.unmute[trackId := Binding(k, streamId)])
  }

  /**
   * A track's `onunmute`: the element for its kind and stream is looked up by
   * id and created only if absent, and the remove handler captures it. The
   * flag says whether a new video element was created, which is when the
   * "Receiving stream" status is shown.
   */
  function Unmuted(st: Remotes, trackId: string): (r: (Remotes, bool))
    ensures trackId !in st.unmute ==> r == (st, false)
    ensures trackId in st.unmute ==>
      trackId in r.0.remove &&
      exists i :: 0 <= i < |r.0.children| && Shows(r.0.children[i], st.unmute[trackId]) && r.0.children[i].serial == r.0.remove[trackId]
    ensures r.1 <==> trackId in st.unmute && st.unmute[trackId].kind == Video && Find(st.children, st.unmute[trackId]).None?
    ensures trackId in st.unmute && Find(st.children, st.unmute[trackId]).Some? ==> r.0.children == st.children
    ensures trackId in st.unmute && Find(st.children, st.unmute[trackId]).None? ==>
      r.0.children == st.children + [Elem(st.nextSerial, st.unmute[trackId].kind, st.unmute[trackId].streamId)]
    ensures r.0.unmute == st.unmute
  {
    if trackId !in st.unmute then (st, false)
    else
      var b := st.unmute[trackId];
      match Find(st.children, b)
      case Some(i) => (st.(remove := st.remove[trackId := st.children[i].serial]), false)
      case None =>
        var e := Elem(st.nextSerial, b.kind, b.streamId);
        var children := st.children + [e];
        assert Shows(children[|children| - 1], b);
        (Remotes(children, st.nextSerial + 1, st.unmute, st.remove[trackId := e.serial]), b.kind == Video)
  }

  lemma UnmutedKeepsWellFormed(st: Remotes, trackId: string)
    requires WellFormed(st)
    ensures WellFormed(Unmuted(st, trackId).0)
  {
    if trackId in st.unmute && Find(st.children, st.unmute[trackId]).None? {
      var r := Unmuted(st, trackId).0;
      forall i, j | 0 <= i < j < |r.children|
        ensures r.children[i].serial != r.children[j].serial && !(r.children[i].kind == r.children[j].kind && r.children[i].streamId == r.children[j].streamId)
      {
        if j == |st.children| {
          assert r.children[i] == st.children[i];
          assert st.children[i] in st.children;
        }
      }
    }
  }

  /** Unmuting again never duplicates the element, changes nothing and shows no status. */
  lemma UnmuteIdempotent(st: Remotes, trackId: string)
    ensures var once := Unmuted(st, trackId).0; Unmuted(once, trackId) == (once, false)
  {
    if trackId in st.unmute {
      var b := st.unmute[trackId];
      if Find(st.children, b).None? {
        var e := Elem(st.nextSerial, b.kind, b.streamId);
        var once := Unmuted(st, trackId).0;
        assert once.children == st.children + [e];
        FindAfterAppend(st.children, b, e);
        assert once.children[|st.children|].serial == once.remove[trackId];
        assert once.remove[trackId := e.serial] == once.remove;
      } else {
        var i := Find(st.children, b).value;
        var once := Unmuted(st, trackId).0;
        assert once.children == st.children;
        assert once.remove[trackId := st.children[i].serial] == once.remove;
      }
    }
  }

  lemma FindAfterAppend(c: seq<Elem>, b: Binding, e: Elem)
    requires Find(c, b).None? && Shows(e, b)
    ensures Find(c + [e], b) == Some(|c|)
    decreases |c|
  {
    if |c| > 0 {
      assert (c + [e])[1..] == c[1..] + [e];
      FindAfterAppend(c[1..], b, e);
    }
  }

  /**
   * A track's `onremovetrack`: the element its handler captured is removed
   * if it is still in the page; without a handler (no unmute yet) nothing
   * changes.
   */
  function TrackRemoved(st: Remotes, trackId: string): (r: Remotes)
    ensures trackId !in st.remove ==> r == st
    ensures trackId in st.remove ==> r == st.(children := WithoutSerial(st.children, st.remove[trackId]))
  {
    if trackId in st.remove then st.(children := WithoutSerial(st.children, st.remove[trackId])) else st
  }

  lemma TrackRemovedKeepsWellFormed(st: Remotes, trackId: string)
    requires WellFormed(st)
    ensures WellFormed(TrackRemoved(st, trackId))
  {
  }

  /**
   * Unmute then remove: afterwards the page has no element for the track's
   * kind and stream, and every other element is still there.
   */
  lemma UnmuteThenRemove(st: Remotes, trackId: string)
    requires WellFormed(st) && trackId in st.unmute
    ensures var u := Unmuted(st, trackId).0; var r := TrackRemoved(u, trackId);
      (forall e :: e in r.children ==> !Shows(e, st.unmute[trackId])) &&
      (forall e :: e in u.children && !Shows(e, st.unmute[trackId]) ==> e in r.children)
  {
    var b := st.unmute[trackId];
    var u := Unmuted(st, trackId).0;
    UnmutedKeepsWellFormed(st, trackId);
    var i :| 0 <= i < |u.children| && Shows(u.children[i], b) && u.children[i].serial == u.remove[trackId];
    forall e | e in u.children && Shows(e, b) ensures e.serial == u.remove[trackId] {
      var k :| 0 <= k < |u.children| && u.children[k] == e;
      assert k == i;
    }
    forall e | e in u.children && !Shows(e, b) ensures e.serial != u.remove[trackId] {
      var k :| 0 <= k < |u.children| && u.children[k] == e;
      assert k != i;
    }
  }

  class SdkViewer {
    const roomId: string
    const status: StatusBar
    var children: seq<Elem>
    var nextSerial: nat
    var unmuteHandlers: map<string, Binding>
    var removeHandlers: map<string, nat>
    /** The rooms passed to `clientLocal.join`. */
    ghost var joins: seq<string>

    ghost function State(): Remotes
      reads this
    {
      Remotes(children, nextSerial, unmuteHandlers, removeHandlers)
    }

    /** The page script: no elements, and the "Connecting" status. */
    constructor (roomId: string, sfuUrl: string, status: StatusBar)
      modifies status
      ensures this.roomId == roomId && this.status == status && joins == []
      ensures State() == Remotes([], 0, map[], map[]) && WellFormed(State())
      ensures status.Display() == AfterUpdate(status.present, old(status.Display()), "Connecting to " + sfuUrl + "...", false)
      ensures status.log == old(status.log) + [UpdateLogLine("Connecting to " + sfuUrl + "...", false)]
    {
      this.roomId := roomId;
      this.status := status;
      children := [];
      nextSerial := 0;
      unmuteHandlers := map[];
      removeHandlers := map[];
      joins := [];
      new;
      status.Update("Connecting to " + sfuUrl + "...", false);
    }

    /** `signalLocal.onopen`: the status, then the join. */
    method OnOpen()
      modifies this`joins, status
      ensures joins == old(joins) + [roomId]
      ensures status.log == old(status.log) + [UpdateLogLine("Connected! Joining room: " + roomId, false)]
      ensures status.Display() == AfterUpdate(status.present, old(status.Display()), "Connected! Joining room: " + roomId, false)
    {
      status.Update("Connected! Joining room: " + roomId, false);
      joins := joins + [roomId];
    }

    /** `signalLocal.onerror`; an empty message stands for a missing one. */
    method OnError(message: string)
      modifies status
      ensures status.Display() == AfterUpdate(status.present, old(status.Display()), "Connection error: " + (if message != "" then message else "Unknown error"), true)
      ensures status.log == old(status.log) + [UpdateLogLine("Connection error: " + (if message != "" then message else "Unknown error"), true)]
    {
      status.Update("Connection error: " + (if message != "" then message else "Unknown error"), true);
    }

    /** `signalLocal.onclose` */
    method OnClose()
      modifies status
      ensures status.Display() == AfterUpdate(status.present, old(status.Display()), "Connection closed. Refresh to reconnect.", true)
      ensures status.log == old(status.log) + [UpdateLogLine("Connection closed. Refresh to reconnect.", true)]
    {
      status.Update("Connection closed. Refresh to reconnect.", true);
    }

    /** `clientLocal.ontrack` */
    method OnTrack(trackId: string, kind: string, streamId: string)
      modifies this`unmuteHandlers
      ensures State() == TrackArrived(old(State()), trackId, kind, streamId)
    {
      if kind == "video" {
        unmuteHandlers := unmuteHandlers[trackId := Binding(Video, streamId)];
      } else if kind == "audio" {
        unmuteHandlers := unmuteHandlers[trackId := Binding(Audio, streamId)];
      }
    }

    /** A track's `onunmute` */
    method OnUnmute(trackId: string)
      modifies this`children, this`nextSerial, this`removeHandlers, status
      ensures State() == Unmuted(old(State()), trackId).0
      ensures status.log == old(status.log) +
        (if Unmuted(old(State()), trackId).1 then [UpdateLogLine("Receiving stream from room: " + roomId, false)] else [])
      ensures status.Display() ==
        if Unmuted(old(State()), trackId).1 then AfterUpdate(status.present, old(status.Display()), "Receiving stream from room: " + roomId, false) else old(status.Display())
    {
      if trackId !in unmuteHandlers {
        return;
      }
      var b := unmuteHandlers[trackId];
      var found := Find(children, b);
      var serial: nat;
      if found.Some? {
        serial := children[found.value].serial;
      } else {
        serial := nextSerial;
        children := children + [Elem(serial, b.kind, b.streamId)];
        nextSerial := nextSerial + 1;
        if b.kind == Video {
          status.Update("Receiving stream from room: " + roomId, false);
        }
      }
      removeHandlers := removeHandlers[trackId := serial];
    }

    /** A track's `onremovetrack` */
    method OnRemoveTrack(trackId: string)
      modifies this`children
      ensures State() == TrackRemoved(old(State()), trackId)
    {
      if trackId in removeHandlers {
        children := WithoutSerial(children, removeHandlers[trackId]);
      }
    }
  }
}
