/**
 * The LiveKit viewer's page registry (viewer/index.js): one container per
 * remote participant, `participant-<identity>`, holding the participant's
 * name tag first and then one media element per subscribed track,
 * `track-<trackSid>`. LiveKit itself is opaque: its events arrive as method
 * calls with the fields the handlers read.
 */
module Viewer {
  import opened Wrappers
  import opened Engine
  import opened Status

  /** A child of a participant container: the name tag, or a track's attached video or audio element. */
  datatype Child = NameTag(identity: string) | Media(trackSid: string, kind: MediaKind)

  /** Participant identity to the children of its container, in append order. */
  type Page = map<string, seq<Child>>

  /** The name tag comes first and is followed only by media elements. */
  predicate ContainerOk(identity: string, c: seq<Child>)
  {
    |c| >= 1 && c[0] == NameTag(identity) && forall x :: x in c[1..] ==> x.Media?
  }

  predicate WellFormed(p: Page)
  {
    forall id :: id in p ==> ContainerOk(id, p[id])
  }

  /** `querySelectorAll('video, audio')` finds something. */
  predicate HasMedia(c: seq<Child>)
  {
    exists i :: 0 <= i < |c| && c[i].Media?
  }

  predicate Attaches(x: Child, trackSid: string)
  {
    x.Media? && x.trackSid == trackSid
  }

  /** The status line a subscription shows. */
  function ReceivingLine(identity: string): string
  {
    SetLogLine("Receiving stream from: " + identity, "connected")
  }

  /**
   * `handleTrackSubscribed`: the participant's container is created with its
   * name tag only when none exists; the track's new element is appended to it.
   */
  function Subscribed(p: Page, identity: string, trackSid: string, kind: MediaKind): (p': Page)
    ensures p'.Keys == p.Keys + {identity}
    ensures forall id :: id in p && id != identity ==> p'[id] == p[id]
    ensures identity !in p ==> p'[identity] == [NameTag(identity), Media(trackSid, kind)]
    ensures identity in p ==> p'[identity] == p[identity] + [Media(trackSid, kind)]
  {
    var c := if identity in p then p[identity] else [NameTag(identity)];
    p[identity := c + [Media(trackSid, kind)]]
  }

  lemma SubscribedKeepsWellFormed(p: Page, identity: string, trackSid: string, kind: MediaKind)
    requires WellFormed(p)
    ensures WellFormed(Subscribed(p, identity, trackSid, kind))
  {
    var p' := Subscribed(p, identity, trackSid, kind);
    if identity in p {
      assert p'[identity][1..] == p[identity][1..] + [Media(trackSid, kind)];
    }
  }

  /** A subscribed container always shows at least one media element. */
  lemma SubscribedHasMedia(p: Page, identity: string, trackSid: string, kind: MediaKind)
    ensures HasMedia(Subscribed(p, identity, trackSid, kind)[identity])
  {
    var c := Subscribed(p, identity, trackSid, kind)[identity];
    assert c[|c| - 1].Media?;
  }

  /** `track.detach().forEach(el => el.remove())`: every element of the track leaves its container. */
  function Detached(c: seq<Child>, trackSid: string): (r: seq<Child>)
    ensures forall x :: x in r <==> x in c && !Attaches(x, trackSid)
    ensures |r| <= |c|
    ensures (forall x :: x in c ==> !Attaches(x, trackSid)) ==> r == c
  {
    if |c| == 0 then []
    else
      var rest := Detached(c[1..], trackSid);
      assert forall x :: x in c ==> x == c[0] || x in c[1..];
      if Attaches(c[0], trackSid) then rest else [c[0]] + rest
  }

  lemma DetachedKeepsContainerOk(identity: string, c: seq<Child>, trackSid: string)
    requires ContainerOk(identity, c)
    ensures ContainerOk(identity, Detached(c, trackSid))
  {
    assert c == [c[0]] + c[1..];
    assert Detached(c, trackSid) == [c[0]] + Detached(c[1..], trackSid);
    assert Detached(c, trackSid)[1..] == Detached(c[1..], trackSid);
  }

  /**
   * `handleTrackUnsubscribed`: the track's elements are removed, then the
   * participant's container is removed only if it has no video or audio
   * element left.
   */
  function Unsubscribed(p: Page, identity: string, trackSid: string): (p': Page)
    ensures forall id :: id in p' ==> id in p && p'[id] == Detached(p[id], trackSid)
    ensures forall id :: id in p && id != identity ==> id in p'
    ensures identity in p ==> (identity in p' <==> HasMedia(Detached(p[identity], trackSid)))
    ensures identity !in p ==> identity !in p'
  {
    var q := map id | id in p :: Detached(p[id], trackSid);
    if identity in q && !HasMedia(q[identity]) then q - {identity} else q
  }

  lemma UnsubscribedKeepsWellFormed(p: Page, identity: string, trackSid: string)
    requires WellFormed(p)
    ensures WellFormed(Unsubscribed(p, identity, trackSid))
  {
    var p' := Unsubscribed(p, identity, trackSid);
    forall id | id in p' ensures ContainerOk(id, p'[id]) {
      DetachedKeepsContainerOk(id, p[id], trackSid);
    }
  }

  /**
   * Subscribing a new participant's track and unsubscribing it again leaves
   * the page as it was, when no other container shows that track.
   */
  lemma SubscribeUnsubscribeRoundTrip(p: Page, identity: string, trackSid: string, kind: MediaKind)
    requires identity !in p
    requires forall id, x :: id in p && x in p[id] ==> !Attaches(x, trackSid)
    ensures Unsubscribed(Subscribed(p, identity, trackSid, kind), identity, trackSid) == p
  {
    var s := Subscribed(p, identity, trackSid, kind);
    var c := [NameTag(identity), Media(trackSid, kind)];
    assert Detached(c, trackSid) == [NameTag(identity)];
    assert !HasMedia([NameTag(identity)]);
    var u := Unsubscribed(s, identity, trackSid);
    assert u.Keys == p.Keys;
    forall id | id in p ensures u[id] == p[id] {
      assert u[id] == Detached(p[id], trackSid);
    }
  }

  /**
   * A track subscribed twice (by the event and again by the sweep) gets two
   * elements, whether or not the participant had a container before, and one
   * unsubscription removes both.
   */
  lemma DoubleSubscription(p: Page, identity: string, trackSid: string, kind: MediaKind)
    ensures Subscribed(Subscribed(p, identity, trackSid, kind), identity, trackSid, kind)[identity]
      == Subscribed(p, identity, trackSid, kind)[identity] + [Media(trackSid, kind)]
    ensures identity !in p ==>
      Subscribed(Subscribed(p, identity, trackSid, kind), identity, trackSid, kind)[identity]
      == [NameTag(identity), Media(trackSid, kind), Media(trackSid, kind)]
    ensures var u := Unsubscribed(Subscribed(Subscribed(p, identity, trackSid, kind), identity, trackSid, kind), identity, trackSid);
      identity in u ==> Media(trackSid, kind) !in u[identity]
    ensures identity !in p ==>
      identity !in Unsubscribed(Subscribed(Subscribed(p, identity, trackSid, kind), identity, trackSid, kind), identity, trackSid)
  {
    if identity !in p {
      var c := Subscribed(Subscribed(p, identity, trackSid, kind), identity, trackSid, kind)[identity];
      assert c == [NameTag(identity), Media(trackSid, kind), Media(trackSid, kind)];
      var d := Detached(c, trackSid);
      assert !HasMedia(d) by {
        forall i | 0 <= i < |d| ensures !d[i].Media? {
          assert d[i] in c;
        }
      }
    }
  }

  /** `ParticipantDisconnected`: the container goes whatever it holds. */
  function Disconnected(p: Page, identity: string): (p': Page)
    ensures identity !in p'
    ensures forall id :: id != identity ==> (id in p' <==> id in p) && (id in p ==> p'[id] == p[id])
  {
    p - {identity}
  }

  /** What the sweep reads of a track publication. */
  datatype Publication = Publication(trackSid: string, kind: MediaKind, hasTrack: bool, isSubscribed: bool)

  datatype RemoteParticipant = RemoteParticipant(identity: string, publications: seq<Publication>)

  /** The sweep handles a publication only when it has a track and is subscribed. */
  predicate Eligible(pub: Publication)
  {
    pub.hasTrack && pub.isSubscribed
  }

  function Visit(p: Page, identity: string, pub: Publication): Page
  {
    if Eligible(pub) then Subscribed(p, identity, pub.trackSid, pub.kind) else p
  }

  /** The page after the inner `forEach` over one participant's publications. */
  function SweepPublications(p: Page, identity: string, pubs: seq<Publication>): Page
    decreases |pubs|
  {
    if |pubs| == 0 then p
    else Visit(SweepPublications(p, identity, pubs[..|pubs| - 1]), identity, pubs[|pubs| - 1])
  }

  /** The page after the post-connect sweep over `parts`. */
  function Swept(p: Page, parts: seq<RemoteParticipant>): Page
    decreases |parts|
  {
    if |parts| == 0 then p
    else
      var last := parts[|parts| - 1];
      SweepPublications(Swept(p, parts[..|parts| - 1]), last.identity, last.publications)
  }

  /** The status lines the inner `forEach` writes. */
  function PublicationLines(identity: string, pubs: seq<Publication>): seq<string>
    decreases |pubs|
  {
    if |pubs| == 0 then []
    else PublicationLines(identity, pubs[..|pubs| - 1]) + (if Eligible(pubs[|pubs| - 1]) then [ReceivingLine(identity)] else [])
  }

  function SweepLines(parts: seq<RemoteParticipant>): seq<string>
    decreases |parts|
  {
    if |parts| == 0 then []
    else
      var last := parts[|parts| - 1];
      SweepLines(parts[..|parts| - 1]) + PublicationLines(last.identity, last.publications)
  }

  /** Whether any of the publications is handled by the sweep. */
  function AnyEligible(pubs: seq<Publication>): bool
    decreases |pubs|
  {
    |pubs| > 0 && (Eligible(pubs[|pubs| - 1]) || AnyEligible(pubs[..|pubs| - 1]))
  }

  /** The participant whose subscription the sweep handled last, if it handled any. */
  function LastSubscribed(parts: seq<RemoteParticipant>): Option<string>
    decreases |parts|
  {
    if |parts| == 0 then None
    else if AnyEligible(parts[|parts| - 1].publications) then Some(parts[|parts| - 1].identity)
    else LastSubscribed(parts[..|parts| - 1])
  }

  /** One participant's sweep logs a line iff a publication is eligible, and every line names that participant. */
  lemma {:induction false} PublicationLinesNameParticipant(identity: string, pubs: seq<Publication>)
    ensures AnyEligible(pubs) <==> |PublicationLines(identity, pubs)| > 0
    ensures forall k :: 0 <= k < |PublicationLines(identity, pubs)| ==> PublicationLines(identity, pubs)[k] == ReceivingLine(identity)
    decreases |pubs|
  {
    if |pubs| > 0 {
      PublicationLinesNameParticipant(identity, pubs[..|pubs| - 1]);
    }
  }

  /**
   * The status the sweep leaves is the one its last console line reports:
   * there is a last subscription iff the sweep logged anything, and the last
   * line is that participant's.
   */
  lemma {:induction false} LastSubscribedIsLastLine(parts: seq<RemoteParticipant>)
    ensures LastSubscribed(parts).Some? <==> |SweepLines(parts)| > 0
    ensures LastSubscribed(parts).Some? ==> SweepLines(parts)[|SweepLines(parts)| - 1] == ReceivingLine(LastSubscribed(parts).value)
    decreases |parts|
  {
    if |parts| > 0 {
      var last := parts[|parts| - 1];
      LastSubscribedIsLastLine(parts[..|parts| - 1]);
      PublicationLinesNameParticipant(last.identity, last.publications);
    }
  }

  lemma {:induction false} SweepPublicationsKeepsWellFormed(p: Page, identity: string, pubs: seq<Publication>)
    requires WellFormed(p)
    ensures WellFormed(SweepPublications(p, identity, pubs))
    decreases |pubs|
  {
    if |pubs| > 0 {
      var last := pubs[|pubs| - 1];
      SweepPublicationsKeepsWellFormed(p, identity, pubs[..|pubs| - 1]);
      if Eligible(last) {
        SubscribedKeepsWellFormed(SweepPublications(p, identity, pubs[..|pubs| - 1]), identity, last.trackSid, last.kind);
      }
    }
  }

  lemma {:induction false} SweepKeepsWellFormed(p: Page, parts: seq<RemoteParticipant>)
    requires WellFormed(p)
    ensures WellFormed(Swept(p, parts))
    decreases |parts|
  {
    if |parts| > 0 {
      SweepKeepsWellFormed(p, parts[..|parts| - 1]);
      var last := parts[|parts| - 1];
      SweepPublicationsKeepsWellFormed(Swept(p, parts[..|parts| - 1]), last.identity, last.publications);
    }
  }

  /** Publications without a track, or not subscribed, leave the page and the status alone. */
  lemma {:induction false} SweepSkipsIneligible(p: Page, parts: seq<RemoteParticipant>)
    requires forall i, pub :: 0 <= i < |parts| && pub in parts[i].publications ==> !Eligible(pub)
    ensures Swept(p, parts) == p && SweepLines(parts) == []
    decreases |parts|
  {
    if |parts| > 0 {
      SweepSkipsIneligible(p, parts[..|parts| - 1]);
      var last := parts[|parts| - 1];
      NothingEligible(Swept(p, parts[..|parts| - 1]), last.identity, last.publications);
    }
  }

  lemma {:induction false} NothingEligible(p: Page, identity: string, pubs: seq<Publication>)
    requires forall pub :: pub in pubs ==> !Eligible(pub)
    ensures SweepPublications(p, identity, pubs) == p && PublicationLines(identity, pubs) == []
    decreases |pubs|
  {
    if |pubs| > 0 {
      NothingEligible(p, identity, pubs[..|pubs| - 1]);
    }
  }

  class LiveKitViewer {
    const status: StatusBar
    /** The participant containers in the remotes element. */
    var containers: Page

    constructor (status: StatusBar)
      ensures this.status == status && containers == map[]
    {
      this.status := status;
      containers := map[];
    }

    /** `handleTrackSubscribed`, then the "Receiving stream" status. */
    method HandleTrackSubscribed(identity: string, trackSid: string, kind: MediaKind)
      requires status.present
      modifies this`containers, status
      ensures containers == Subscribed(old(containers), identity, trackSid, kind)
      ensures status.text == "Receiving stream from: " + identity && status.className == SetClass("connected")
      ensures status.log == old(status.log) + [ReceivingLine(identity)]
    {
      var container: seq<Child>;
      if identity in containers {
        container := containers[identity];
      } else {
        container := [NameTag(identity)];
      }
      containers := containers[identity := container + [Media(trackSid, kind)]];
      status.Set("Receiving stream from: " + identity, "connected");
    }

    /** `handleTrackUnsubscribed` */
    method HandleTrackUnsubscribed(identity: string, trackSid: string)
      modifies this`containers
      ensures containers == Unsubscribed(old(containers), identity, trackSid)
    {
      containers := map id | id in containers :: Detached(containers[id], trackSid);
      if identity in containers && !HasMedia(containers[identity]) {
        containers := containers - {identity};
      }
    }

    /** The `ParticipantDisconnected` handler. */
    method OnParticipantDisconnected(identity: string)
      modifies this`containers
      ensures containers == Disconnected(old(containers), identity)
    {
      if identity in containers {
        containers := containers - {identity};
      }
    }

    /** The sweep over `room.remoteParticipants` after connecting. */
    method SweepExisting(parts: seq<RemoteParticipant>)
      requires status.present
      modifies this`containers, status
      ensures containers == Swept(old(containers), parts)
      ensures status.log == old(status.log) + SweepLines(parts)
      ensures status.Display() ==
        if LastSubscribed(parts).Some? then ("Receiving stream from: " + LastSubscribed(parts).value, SetClass("connected")) else old(status.Display())
    {
      var i := 0;
      while i < |parts|
        invariant 0 <= i <= |parts|
        invariant containers == Swept(old(containers), parts[..i])
        invariant status.log == old(status.log) + SweepLines(parts[..i])
        invariant status.Display() ==
          if LastSubscribed(parts[..i]).Some? then ("Receiving stream from: " + LastSubscribed(parts[..i]).value, SetClass("connected")) else old(status.Display())
      {
        var participant := parts[i];
        ghost var before := containers;
        ghost var logBefore := status.log;
        ghost var shownBefore := status.Display();
        var j := 0;
        while j < |participant.publications|
          invariant 0 <= j <= |participant.publications|
          invariant containers == SweepPublications(before, participant.identity, participant.publications[..j])
          invariant status.log == logBefore + PublicationLines(participant.identity, participant.publications[..j])
          invariant status.Display() ==
            if AnyEligible(participant.publications[..j]) then ("Receiving stream from: " + participant.identity, SetClass("connected")) else shownBefore
        {
          var publication := participant.publications[j];
          if publication.hasTrack && publication.isSubscribed {
            HandleTrackSubscribed(participant.identity, publication.trackSid, publication.kind);
          }
          assert participant.publications[..j + 1][..j] == participant.publications[..j];
          j := j + 1;
        }
        assert participant.publications[..j] == participant.publications;
        assert parts[..i + 1][..i] == parts[..i];
        i := i + 1;
      }
      assert parts[..i] == parts;
    }
  }
}
