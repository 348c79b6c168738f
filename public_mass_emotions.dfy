/** The server-facing analyser. It uses the same tracker and role separation
    as the full analyser, but a smaller face record whose eyes-open and
    mouth-open flags default to false. Per frame it counts speaking faces
    without a confidence floor, the audience emotion balance, an
    eye-direction histogram and eyes-open and mouth-open totals. Within a
    frame it identifies the audience faces first and the speaker last. */
module PublicMassEmotions {
  import opened Wrappers
  import opened Detector
  import opened Seqs
  import opened Roles
  import opened Tracking
  import opened Attributes
  import MassEmotions
  import MassEmotionsAnalysis

  /** The server variant's face record. */
  datatype PublicFace = PublicFace(
    emotion: string,
    eyesOpen: bool,
    mouthOpen: bool,
    eyeDirection: Direction,
    boundingBox: Option<Box>,
    boundingBoxArea: real)

  /** A yes/no attribute read as a plain boolean: false when missing. */
  function FlagOn(f: Option<Flag>): (on: bool)
    ensures on <==> FlagValue(f) == Some(true)
  {
    FlagValue(f).GetOr(false)
  }

  /** Normalises one detected face: the emotion label as in the full
      analyser, eyes-open and mouth-open true only when the detector says so
      (false when missing), the gaze classified, and the box area (0 for a
      missing box). */
  function FormatFaceData(raw: RawFace): (f: PublicFace)
    ensures f.emotion == MassEmotions.NormalisedEmotion(raw.emotions).0
    ensures f.eyesOpen <==> FlagValue(raw.eyesOpen) == Some(true)
    ensures f.mouthOpen <==> FlagValue(raw.mouthOpen) == Some(true)
    ensures f.eyeDirection == Unknown <==> !GazeTrusted(raw.eyeDirection)
    ensures GazeTrusted(raw.eyeDirection) ==> f.eyeDirection == ClassifyYaw(raw.eyeDirection.value.yaw)
    ensures f.boundingBox == raw.boundingBox
    ensures f.boundingBoxArea == BoxArea(raw.boundingBox)
  {
    PublicFace(
      MassEmotions.NormalisedEmotion(raw.emotions).0,
      FlagOn(raw.eyesOpen),
      FlagOn(raw.mouthOpen),
      EyeDirection(raw.eyeDirection),
      raw.boundingBox,
      BoxArea(raw.boundingBox))
  }

  /** Both normalisers read a face alike: the same emotion label, gaze, box
      and area. Where the full record keeps a missing eyes-open or mouth-open
      value as absent, this record has false. */
  lemma AgreesWithFullRecord(raw: RawFace)
    ensures
      var f := FormatFaceData(raw);
      var g := MassEmotions.FormatFaceData(raw);
      && f.emotion == g.emotion
      && f.eyeDirection == g.eyeDirection
      && f.boundingBox == g.boundingBox
      && f.boundingBoxArea == g.boundingBoxArea
      && (f.eyesOpen <==> g.eyesOpen == Some(true))
      && (f.mouthOpen <==> g.mouthOpen == Some(true))
  {
    var g := MassEmotions.FormatFaceData(raw);
    assert g.eyeDirection == EyeDirection(raw.eyeDirection) by {
      if GazeTrusted(raw.eyeDirection) {
        assert g.eyeDirection != Unknown;
      }
    }
  }

  /** One face of one frame, with the role it was given. */
  datatype PublicObservation = PublicObservation(frame: nat, face: PublicFace, role: Role)

  function AreaOf(f: PublicFace): real { f.boundingBoxArea }

  /** The faces of frame `i` in the order they are identified: the audience
      in sorted order, then the speaker. */
  function FrameOrder(faces: seq<PublicFace>, i: nat): (obs: seq<PublicObservation>)
    ensures |obs| == |faces|
  {
    var sep := SeparateSpeaker(faces, AreaOf);
    assert sep.speaker.Some? ==> |multiset([sep.speaker.value] + sep.audience)| == |multiset(faces)|;
    Order(sep, i)
  }

  /** A separation as the order of identification: audience, then speaker. */
  function Order(sep: Separation<PublicFace>, i: nat): (obs: seq<PublicObservation>)
    ensures |obs| == if sep.speaker.Some? then |sep.audience| + 1 else 0
    ensures forall k :: 0 <= k < |obs| ==> obs[k].frame == i
    ensures forall k :: 0 <= k < |obs| ==> (obs[k].role == Speaker <==> k == |obs| - 1)
  {
    if sep.speaker.None? then []
    else AudienceOrder(sep.audience, i) + [PublicObservation(i, sep.speaker.value, Speaker)]
  }

  function AudienceOrder(audience: seq<PublicFace>, i: nat): (obs: seq<PublicObservation>)
    ensures |obs| == |audience|
    ensures forall k :: 0 <= k < |obs| ==> obs[k] == PublicObservation(i, audience[k], Audience)
  {
    seq(|audience|, k requires 0 <= k < |audience| => PublicObservation(i, audience[k], Audience))
  }

  function FacesOf(obs: seq<PublicObservation>): (faces: seq<PublicFace>)
    ensures |faces| == |obs|
  {
    seq(|obs|, k requires 0 <= k < |obs| => obs[k].face)
  }

  lemma OrderFaces(sep: Separation<PublicFace>, i: nat)
    requires sep.speaker.Some?
    ensures FacesOf(Order(sep, i)) == sep.audience + [sep.speaker.value]
  {
  }

  /** In a non-empty frame the speaker, identified last, is the
      earliest-detected face of largest area. */
  lemma SpeakerIdentifiedLast(faces: seq<PublicFace>, i: nat)
    requires faces != []
    ensures
      var obs := FrameOrder(faces, i);
      exists k :: IsFirstMax(faces, AreaOf, k) && obs[|obs| - 1].face == faces[k]
  {
    var sep := SeparateSpeaker(faces, AreaOf);
    assert FrameOrder(faces, i)[|faces| - 1].face == sep.speaker.value;
  }

  /** The audience faces, identified first, come in non-increasing area
      order, none larger than the speaker's. */
  lemma AudienceIdentifiedBySize(faces: seq<PublicFace>, i: nat)
    requires faces != []
    ensures
      var obs := FrameOrder(faces, i);
      var n := |obs| - 1;
      && (forall a, b :: 0 <= a < b < n ==> AreaOf(obs[a].face) >= AreaOf(obs[b].face))
      && (forall a :: 0 <= a < n ==> AreaOf(obs[a].face) <= AreaOf(obs[n].face))
  {
    var sep := SeparateSpeaker(faces, AreaOf);
    assert forall a :: 0 <= a < |sep.audience| ==> sep.audience[a] in sep.audience;
  }

  /** Every face of the frame is identified, each once. */
  lemma FrameIdentifiedOnce(faces: seq<PublicFace>, i: nat)
    ensures multiset(FacesOf(FrameOrder(faces, i))) == multiset(faces)
  {
    var sep := SeparateSpeaker(faces, AreaOf);
    if faces != [] {
      var speaker := sep.speaker.value;
      OrderFaces(sep, i);
      assert multiset(sep.audience + [speaker]) == multiset([speaker] + sep.audience);
    } else {
      assert FacesOf(FrameOrder(faces, i)) == [];
    }
  }

  /** All faces of all frames, frame by frame, in the order they are identified. */
  function Observations(frames: seq<seq<RawFace>>): seq<PublicObservation>
  {
    if frames == [] then []
    else
      var n := |frames| - 1;
      Observations(frames[..n]) + FrameOrder(MassEmotionsAnalysis.NormaliseFrame(frames[n], FormatFaceData), n)
  }

  /** What the tracker is asked, face by face. */
  function Sightings(obs: seq<PublicObservation>): (ss: seq<Sighting>)
    ensures |ss| == |obs|
  {
    seq(|obs|, k requires 0 <= k < |obs| => Sighting(obs[k].face.boundingBox, obs[k].frame))
  }

  /** As many faces are identified as are detected. */
  lemma {:induction false} ObservationsCount(frames: seq<seq<RawFace>>)
    ensures |Observations(frames)| == MassEmotionsAnalysis.TotalFaces(frames)
    decreases |frames|
  {
    if frames != [] {
      ObservationsCount(frames[..|frames| - 1]);
    }
  }

  lemma FacesOfAppend(a: seq<PublicObservation>, b: seq<PublicObservation>)
    ensures FacesOf(a + b) == FacesOf(a) + FacesOf(b)
  {
  }

  /** Every detected face is identified, each exactly once: the identified
      faces are the detected faces, counted with multiplicity. */
  lemma {:induction false} ObservationsFaces(frames: seq<seq<RawFace>>)
    ensures multiset(FacesOf(Observations(frames))) == MassEmotionsAnalysis.DetectedFaces(frames, FormatFaceData)
    decreases |frames|
  {
    if frames != [] {
      var n := |frames| - 1;
      ObservationsFaces(frames[..n]);
      var faces := MassEmotionsAnalysis.NormaliseFrame(frames[n], FormatFaceData);
      FacesOfAppend(Observations(frames[..n]), FrameOrder(faces, n));
      FrameIdentifiedOnce(faces, n);
    }
  }

  // ---------------------------------------------------------------------
  // The counters

  predicate SpeakerSpeaks(o: PublicObservation) { o.role == Speaker && o.face.mouthOpen }
  predicate AudienceSpeaks(o: PublicObservation) { o.role == Audience && o.face.mouthOpen }
  predicate IsAudience(o: PublicObservation) { o.role == Audience }
  predicate AudiencePositive(o: PublicObservation)
  {
    o.role == Audience && o.face.emotion in MassEmotionsAnalysis.PositiveEmotions
  }
  predicate AudienceNegative(o: PublicObservation)
  {
    o.role == Audience && o.face.emotion in MassEmotionsAnalysis.NegativeEmotions
  }
  predicate EyesOpen(o: PublicObservation) { o.face.eyesOpen }
  predicate MouthOpen(o: PublicObservation) { o.face.mouthOpen }

  /** The number of faces looking in direction `d`. */
  function DirectionCount(obs: seq<PublicObservation>, d: Direction): (n: nat)
    ensures n <= |obs|
  {
    if obs == [] then 0
    else DirectionCount(obs[..|obs| - 1], d) + (if obs[|obs| - 1].face.eyeDirection == d then 1 else 0)
  }

  /** The eye-direction histogram: one counter per direction, all four
      present from the start. */
  datatype DirectionCounts = DirectionCounts(left: nat, right: nat, center: nat, unknown: nat)

  /** The counter of direction `d`. */
  function Bucket(c: DirectionCounts, d: Direction): nat
  {
    match d
    case Left => c.left
    case Right => c.right
    case Center => c.center
    case Unknown => c.unknown
  }

  /** One more face looking in direction `d`. */
  function Bump(c: DirectionCounts, d: Direction): (c': DirectionCounts)
    ensures Bucket(c', d) == Bucket(c, d) + 1
    ensures forall e :: e != d ==> Bucket(c', e) == Bucket(c, e)
  {
    match d
    case Left => c.(left := c.left + 1)
    case Right => c.(right := c.right + 1)
    case Center => c.(center := c.center + 1)
    case Unknown => c.(unknown := c.unknown + 1)
  }

  /** The eye-direction histogram of the faces `obs`. */
  function Histogram(obs: seq<PublicObservation>): (h: DirectionCounts)
    ensures forall d :: Bucket(h, d) == DirectionCount(obs, d)
  {
    var h := DirectionCounts(DirectionCount(obs, Left), DirectionCount(obs, Right),
                             DirectionCount(obs, Center), DirectionCount(obs, Unknown));
    assert forall d :: Bucket(h, d) == DirectionCount(obs, d) by {
      forall d ensures Bucket(h, d) == DirectionCount(obs, d) {
        if d.Left? {
        } else if d.Right? {
        } else if d.Center? {
        } else {
          assert d.Unknown?;
        }
      }
    }
    h
  }

  /** What the analysis returns. */
  datatype Report = Report(
    speakerSpeakingFrames: nat,
    audienceSpeakingFrames: nat,
    positive: nat,
    negative: nat,
    eyeDirectionCounts: DirectionCounts,
    eyesOpen: nat,
    mouthOpen: nat)

  /** The counters over the faces `obs`: each counts the faces it names. */
  function Expected(obs: seq<PublicObservation>): Report
  {
    Report(
      Count(obs, SpeakerSpeaks), Count(obs, AudienceSpeaks),
      Count(obs, AudiencePositive), Count(obs, AudienceNegative),
      Histogram(obs), Count(obs, EyesOpen), Count(obs, MouthOpen))
  }

  /** The updates the loop makes for face `o`, the speaker's speaking count
      excepted: that one is made at the start of the frame. */
  function Note(r: Report, o: PublicObservation): Report
  {
    r.(audienceSpeakingFrames := r.audienceSpeakingFrames + (if AudienceSpeaks(o) then 1 else 0),
       positive := r.positive + (if AudiencePositive(o) then 1 else 0),
       negative := r.negative + (if AudienceNegative(o) then 1 else 0),
       eyeDirectionCounts := Bump(r.eyeDirectionCounts, o.face.eyeDirection),
       eyesOpen := r.eyesOpen + (if o.face.eyesOpen then 1 else 0),
       mouthOpen := r.mouthOpen + (if o.face.mouthOpen then 1 else 0))
  }

  lemma DirectionCountAppend(obs: seq<PublicObservation>, o: PublicObservation, d: Direction)
    ensures DirectionCount(obs + [o], d) == DirectionCount(obs, d) + (if o.face.eyeDirection == d then 1 else 0)
  {
    assert (obs + [o])[..|obs|] == obs;
  }

  /** One more face changes the counters by that face's updates. */
  lemma ExpectedAppend(obs: seq<PublicObservation>, o: PublicObservation)
    ensures
      var e := Expected(obs);
      Expected(obs + [o]) == Note(e, o).(speakerSpeakingFrames := e.speakerSpeakingFrames + (if SpeakerSpeaks(o) then 1 else 0))
  {
    CountAppend(obs, o, SpeakerSpeaks);
    CountAppend(obs, o, AudienceSpeaks);
    CountAppend(obs, o, AudiencePositive);
    CountAppend(obs, o, AudienceNegative);
    CountAppend(obs, o, EyesOpen);
    CountAppend(obs, o, MouthOpen);
    HistogramAppend(obs, o);
  }

  /** One more face adds one to its direction's bucket. */
  lemma HistogramAppend(obs: seq<PublicObservation>, o: PublicObservation)
    ensures Histogram(obs + [o]) == Bump(Histogram(obs), o.face.eyeDirection)
  {
    DirectionCountAppend(obs, o, Left);
    DirectionCountAppend(obs, o, Right);
    DirectionCountAppend(obs, o, Center);
    DirectionCountAppend(obs, o, Unknown);
  }

  /** The histogram counts every face exactly once. */
  lemma {:induction false} HistogramTotal(obs: seq<PublicObservation>)
    ensures DirectionCount(obs, Left) + DirectionCount(obs, Right)
      + DirectionCount(obs, Center) + DirectionCount(obs, Unknown) == |obs|
    decreases |obs|
  {
    if obs != [] {
      HistogramTotal(obs[..|obs| - 1]);
    }
  }

  /** A frame's identification order has its one speaker at the end. */
  lemma FrameSpeaksOnce(fo: seq<PublicObservation>)
    requires forall k :: 0 <= k < |fo| ==> (fo[k].role == Speaker <==> k == |fo| - 1)
    ensures Count(fo, SpeakerSpeaks) <= 1
  {
    if fo != [] {
      var init := fo[..|fo| - 1];
      assert forall k :: 0 <= k < |init| ==> init[k] == fo[k];
      CountNone(init, SpeakerSpeaks);
    }
  }

  /** The speaker's speaking count grows by at most one per frame. */
  lemma {:induction false} SpeakerSpeaksAtMostOncePerFrame(frames: seq<seq<RawFace>>)
    ensures Count(Observations(frames), SpeakerSpeaks) <= |frames|
    decreases |frames|
  {
    if frames != [] {
      var n := |frames| - 1;
      SpeakerSpeaksAtMostOncePerFrame(frames[..n]);
      var last := FrameOrder(MassEmotionsAnalysis.NormaliseFrame(frames[n], FormatFaceData), n);
      CountConcat(Observations(frames[..n]), last, SpeakerSpeaks);
      FrameSpeaksOnce(last);
    }
  }

  /** What the returned counters say about the video: the histogram counts
      every face once; eyes-open and mouth-open totals never exceed the
      faces; the speaker's speaking count is at most one per frame; the
      audience speaking count and the positive and negative counts (from
      disjoint emotion sets) never exceed the audience faces. */
  lemma ReportBounds(frames: seq<seq<RawFace>>)
    ensures
      var obs := Observations(frames);
      var r := Expected(obs);
      && Bucket(r.eyeDirectionCounts, Left) + Bucket(r.eyeDirectionCounts, Right)
         + Bucket(r.eyeDirectionCounts, Center) + Bucket(r.eyeDirectionCounts, Unknown) == MassEmotionsAnalysis.TotalFaces(frames)
      && r.eyesOpen <= MassEmotionsAnalysis.TotalFaces(frames)
      && r.mouthOpen <= MassEmotionsAnalysis.TotalFaces(frames)
      && r.speakerSpeakingFrames <= |frames|
      && r.audienceSpeakingFrames <= Count(obs, IsAudience)
      && r.positive + r.negative <= Count(obs, IsAudience)
  {
    ObservationsCount(frames);
    SpeakerSpeaksAtMostOncePerFrame(frames);
    CounterBounds(Observations(frames));
  }

  /** The same bounds over any sequence of faces. */
  lemma CounterBounds(obs: seq<PublicObservation>)
    ensures
      var r := Expected(obs);
      && Bucket(r.eyeDirectionCounts, Left) + Bucket(r.eyeDirectionCounts, Right)
         + Bucket(r.eyeDirectionCounts, Center) + Bucket(r.eyeDirectionCounts, Unknown) == |obs|
      && r.eyesOpen <= |obs|
      && r.mouthOpen <= |obs|
      && r.audienceSpeakingFrames <= Count(obs, IsAudience)
      && r.positive + r.negative <= Count(obs, IsAudience)
  {
    HistogramTotal(obs);
    CountImplies(obs, AudienceSpeaks, IsAudience);
    assert MassEmotionsAnalysis.PositiveEmotions !! MassEmotionsAnalysis.NegativeEmotions;
    CountDisjoint(obs, AudiencePositive, AudienceNegative, IsAudience);
  }

  // ---------------------------------------------------------------------
  // The analysis loop

  /** The counters while a frame's audience is processed: the speaker's
      speaking count already holds the frame's speaker (`pending`). */
  function WithPending(r: Report, pending: bool): Report
  {
    r.(speakerSpeakingFrames := r.speakerSpeakingFrames + (if pending then 1 else 0))
  }

  /** The loop's invariant: the tracker, started in `st0`, has been asked
      about the faces `obs` and is now in `st`. */
  ghost predicate Tracked(st0: TrackerState, obs: seq<PublicObservation>, st: TrackerState)
  {
    st == TrackAll(st0, Sightings(obs)).1
  }

  lemma TrackedStep(st0: TrackerState, obs: seq<PublicObservation>, st: TrackerState, o: PublicObservation, id: nat, st': TrackerState)
    requires Tracked(st0, obs, st)
    requires (id, st') == TrackStep(st, Sighting(o.face.boundingBox, o.frame))
    ensures Tracked(st0, obs + [o], st')
  {
    var s := Sighting(o.face.boundingBox, o.frame);
    assert Sightings(obs + [o]) == Sightings(obs) + [s];
    TrackAllAppend(st0, Sightings(obs), s);
  }

  /** An audience face changes the counters by its updates alone. */
  lemma NoteAudience(obs: seq<PublicObservation>, o: PublicObservation, pending: bool)
    requires o.role == Audience
    ensures Note(WithPending(Expected(obs), pending), o) == WithPending(Expected(obs + [o]), pending)
  {
    ExpectedAppend(obs, o);
  }

  /** The speaker, its speaking count already made, changes the counters by
      its remaining updates. */
  lemma NoteSpeaker(obs: seq<PublicObservation>, o: PublicObservation)
    requires o.role == Speaker
    ensures Note(WithPending(Expected(obs), o.face.mouthOpen), o) == Expected(obs + [o])
  {
    ExpectedAppend(obs, o);
  }

  /** The counter updates for audience face `face` of frame `i`. */
  method CountAudienceFace(r0: Report, face: PublicFace, i: nat) returns (r: Report)
    ensures r == Note(r0, PublicObservation(i, face, Audience))
  {
    var audienceSpeaking := r0.audienceSpeakingFrames + (if face.mouthOpen then 1 else 0);
    var positive := r0.positive + (if face.emotion in MassEmotionsAnalysis.PositiveEmotions then 1 else 0);
    var negative := r0.negative + (if face.emotion in MassEmotionsAnalysis.NegativeEmotions then 1 else 0);
    var eyesOpen := r0.eyesOpen + (if face.eyesOpen then 1 else 0);
    var mouthOpen := r0.mouthOpen + (if face.mouthOpen then 1 else 0);
    var counts := Bump(r0.eyeDirectionCounts, face.eyeDirection);
    r := Report(r0.speakerSpeakingFrames, audienceSpeaking, positive, negative, counts, eyesOpen, mouthOpen);
  }

  /** The counter updates for the speaker `speaker` of frame `i`, its
      speaking count excepted. */
  method CountSpeakerFace(r0: Report, speaker: PublicFace, i: nat) returns (r: Report)
    ensures r == Note(r0, PublicObservation(i, speaker, Speaker))
  {
    var eyesOpen := r0.eyesOpen + (if speaker.eyesOpen then 1 else 0);
    var mouthOpen := r0.mouthOpen + (if speaker.mouthOpen then 1 else 0);
    var counts := Bump(r0.eyeDirectionCounts, speaker.eyeDirection);
    r := r0.(eyeDirectionCounts := counts, eyesOpen := eyesOpen, mouthOpen := mouthOpen);
  }

  /** One audience face of frame `i`: counted, then identified. */
  method ProcessAudienceFace(r0: Report, face: PublicFace, i: nat, tracker: Tracker, pending: bool,
                             ghost st0: TrackerState, ghost obs0: seq<PublicObservation>)
    returns (r: Report)
    requires tracker.Valid()
    requires Tracked(st0, obs0, tracker.State())
    requires r0 == WithPending(Expected(obs0), pending)
    modifies tracker
    ensures tracker.Valid()
    ensures Tracked(st0, obs0 + [PublicObservation(i, face, Audience)], tracker.State())
    ensures r == WithPending(Expected(obs0 + [PublicObservation(i, face, Audience)]), pending)
  {
    ghost var o := PublicObservation(i, face, Audience);
    NoteAudience(obs0, o, pending);
    r := CountAudienceFace(r0, face, i);
    ghost var st := tracker.State();
    var personId := tracker.Assign(face.boundingBox, i);
    TrackedStep(st0, obs0, st, o, personId, tracker.State());
  }

  /** The audience loop of frame `i`: each audience face updates the counters
      and is identified. */
  method ProcessAudience(r0: Report, audience: seq<PublicFace>, i: nat, tracker: Tracker, pending: bool,
                         ghost st0: TrackerState, ghost obs0: seq<PublicObservation>)
    returns (r: Report)
    requires tracker.Valid()
    requires Tracked(st0, obs0, tracker.State())
    requires r0 == WithPending(Expected(obs0), pending)
    modifies tracker
    ensures tracker.Valid()
    ensures Tracked(st0, obs0 + AudienceOrder(audience, i), tracker.State())
    ensures r == WithPending(Expected(obs0 + AudienceOrder(audience, i)), pending)
  {
    r := r0;
    ghost var order := AudienceOrder(audience, i);
    ghost var obs := obs0;
    var k := 0;
    while k < |audience|
      invariant 0 <= k <= |audience|
      invariant tracker.Valid()
      invariant obs == obs0 + order[..k]
      invariant Tracked(st0, obs, tracker.State())
      invariant r == WithPending(Expected(obs), pending)
    {
      PrefixStep(obs0, order, k);
      r := ProcessAudienceFace(r, audience[k], i, tracker, pending, st0, obs);
      obs := obs + [PublicObservation(i, audience[k], Audience)];
      k := k + 1;
    }
    assert order[..|audience|] == order;
  }

  /** The speaker block of frame `i`: the speaker's other counters are
      updated and the speaker is identified. */
  method ProcessSpeaker(r0: Report, speaker: PublicFace, i: nat, tracker: Tracker,
                        ghost st0: TrackerState, ghost obs0: seq<PublicObservation>)
    returns (r: Report)
    requires tracker.Valid()
    requires Tracked(st0, obs0, tracker.State())
    requires r0 == WithPending(Expected(obs0), speaker.mouthOpen)
    modifies tracker
    ensures tracker.Valid()
    ensures Tracked(st0, obs0 + [PublicObservation(i, speaker, Speaker)], tracker.State())
    ensures r == Expected(obs0 + [PublicObservation(i, speaker, Speaker)])
  {
    ghost var o := PublicObservation(i, speaker, Speaker);
    NoteSpeaker(obs0, o);
    r := CountSpeakerFace(r0, speaker, i);
    ghost var st := tracker.State();
    var personId := tracker.Assign(speaker.boundingBox, i);
    TrackedStep(st0, obs0, st, o, personId, tracker.State());
  }

  /** One frame: the speaker's speaking count first, then the audience loop,
      then the speaker's other counters and identification. */
  method ProcessFrame(r0: Report, raw: seq<RawFace>, i: nat, tracker: Tracker,
                      ghost st0: TrackerState, ghost obs0: seq<PublicObservation>)
    returns (r: Report)
    requires tracker.Valid()
    requires Tracked(st0, obs0, tracker.State())
    requires r0 == Expected(obs0)
    modifies tracker
    ensures tracker.Valid()
    ensures Tracked(st0, obs0 + FrameOrder(MassEmotionsAnalysis.NormaliseFrame(raw, FormatFaceData), i), tracker.State())
    ensures r == Expected(obs0 + FrameOrder(MassEmotionsAnalysis.NormaliseFrame(raw, FormatFaceData), i))
  {
    var faces := MassEmotionsAnalysis.NormaliseFrame(raw, FormatFaceData);
    var sep := SeparateSpeaker(faces, AreaOf);
    assert FrameOrder(faces, i) == Order(sep, i);
    var pending := sep.speaker.Some? && sep.speaker.value.mouthOpen;
    r := r0.(speakerSpeakingFrames := r0.speakerSpeakingFrames + (if pending then 1 else 0));
    r := ProcessAudience(r, sep.audience, i, tracker, pending, st0, obs0);
    OrderSplit(sep, i, obs0);
    if sep.speaker.Some? {
      r := ProcessSpeaker(r, sep.speaker.value, i, tracker, st0, obs0 + AudienceOrder(sep.audience, i));
    }
  }

  /** A frame's identification order, split before its speaker. */
  lemma OrderSplit(sep: Separation<PublicFace>, i: nat, obs0: seq<PublicObservation>)
    requires sep.speaker.None? ==> sep.audience == []
    ensures sep.speaker.Some? ==>
      obs0 + Order(sep, i) == obs0 + AudienceOrder(sep.audience, i) + [PublicObservation(i, sep.speaker.value, Speaker)]
    ensures sep.speaker.None? ==> obs0 + Order(sep, i) == obs0 + AudienceOrder(sep.audience, i) == obs0
  {
  }

  /** The whole analysis of a video's detections, with the tracker's state
      carried across the call as the source's module state is: the tracker
      has been asked about every face in identification order, and every
      returned counter counts the faces it names. */
  method AnalyzeVideo(frames: seq<seq<RawFace>>, tracker: Tracker) returns (report: Report)
    requires tracker.Valid()
    modifies tracker
    ensures tracker.Valid()
    ensures tracker.State() == TrackAll(old(tracker.State()), Sightings(Observations(frames))).1
    ensures report == Expected(Observations(frames))
  {
    ghost var st0 := tracker.State();
    ghost var obs: seq<PublicObservation> := [];
    report := Report(0, 0, 0, 0, DirectionCounts(0, 0, 0, 0), 0, 0);
    for i := 0 to |frames|
      invariant tracker.Valid()
      invariant obs == Observations(frames[..i])
      invariant Tracked(st0, obs, tracker.State())
      invariant report == Expected(obs)
    {
      assert frames[..i + 1][..i] == frames[..i];
      report := ProcessFrame(report, frames[i], i, tracker, st0, obs);
      obs := obs + FrameOrder(MassEmotionsAnalysis.NormaliseFrame(frames[i], FormatFaceData), i);
    }
    assert frames[..|frames|] == frames;
  }
}
