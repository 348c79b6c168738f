/** The full analyser's frame loop: every face of every frame, speaker first,
    is identified, classified, counted and written as one CSV row; then the
    per-person distraction rates, the speaking ratio and the audience
    emotion balance are computed once. */
module MassEmotionsAnalysis {
  import opened Wrappers
  import opened Detector
  import opened Seqs
  import opened Roles
  import opened Tracking
  import opened Attributes
  import opened MassEmotions

  /** Mouth-open readings count as speaking only above this confidence. */
  const MouthOpenConfidenceFloor: real := 70.0
  const PositiveEmotions: set<string> := {"HAPPY", "SURPRISED"}
  const NegativeEmotions: set<string> := {"SAD", "ANGRY", "DISGUSTED", "CONFUSED", "FEAR"}

  /** One face of one frame, with the role it was given. */
  datatype Observation = Observation(frame: nat, face: Face, role: Role)

  function AreaOf(f: Face): real { f.boundingBoxArea }

  /** A frame's faces, each normalised by `normalise`, in detection order. */
  function NormaliseFrame<F>(raw: seq<RawFace>, normalise: RawFace -> F): (faces: seq<F>)
    ensures |faces| == |raw|
    ensures forall k :: 0 <= k < |raw| ==> faces[k] == normalise(raw[k])
  {
    seq(|raw|, k requires 0 <= k < |raw| => normalise(raw[k]))
  }

  /** The faces of frame `i` in processing order: the speaker, then the
      audience in sorted order. */
  function FrameObservations(faces: seq<Face>, i: nat): (obs: seq<Observation>)
    ensures |obs| == |faces|
    ensures forall k :: 0 <= k < |obs| ==> obs[k].frame == i
    ensures forall k :: 0 <= k < |obs| ==> (obs[k].role == Speaker <==> k == 0)
  {
    var sep := SeparateSpeaker(faces, AreaOf);
    assert sep.speaker.Some? ==> |multiset([sep.speaker.value] + sep.audience)| == |multiset(faces)|;
    SpeakerFirst(sep, i)
  }

  /** A separation in processing order: speaker, then audience. */
  function SpeakerFirst(sep: Separation<Face>, i: nat): (obs: seq<Observation>)
    ensures |obs| == if sep.speaker.Some? then |sep.audience| + 1 else 0
    ensures forall k :: 0 <= k < |obs| ==> obs[k].frame == i
    ensures forall k :: 0 <= k < |obs| ==> (obs[k].role == Speaker <==> k == 0)
  {
    if sep.speaker.None? then []
    else
      [Observation(i, sep.speaker.value, Speaker)]
        + seq(|sep.audience|, k requires 0 <= k < |sep.audience| => Observation(i, sep.audience[k], Audience))
  }

  /** The faces of processed faces, in processing order. */
  function FacesOf(obs: seq<Observation>): (faces: seq<Face>)
    ensures |faces| == |obs|
    ensures forall k :: 0 <= k < |obs| ==> faces[k] == obs[k].face
  {
    seq(|obs|, k requires 0 <= k < |obs| => obs[k].face)
  }

  lemma FacesOfAppend(a: seq<Observation>, b: seq<Observation>)
    ensures FacesOf(a + b) == FacesOf(a) + FacesOf(b)
  {
  }

  /** In a non-empty frame the speaker, processed first, is the
      earliest-detected face of largest area. */
  lemma SpeakerProcessedFirst(faces: seq<Face>, i: nat)
    requires faces != []
    ensures exists k :: IsFirstMax(faces, AreaOf, k) && FrameObservations(faces, i)[0].face == faces[k]
  {
    var sep := SeparateSpeaker(faces, AreaOf);
    assert FrameObservations(faces, i)[0].face == sep.speaker.value;
  }

  /** The audience faces, processed after the speaker, come in
      non-increasing area order, none larger than the speaker's. */
  lemma AudienceProcessedBySize(faces: seq<Face>, i: nat)
    requires faces != []
    ensures
      var obs := FrameObservations(faces, i);
      && (forall a, b :: 1 <= a < b < |obs| ==> AreaOf(obs[a].face) >= AreaOf(obs[b].face))
      && (forall a :: 1 <= a < |obs| ==> AreaOf(obs[a].face) <= AreaOf(obs[0].face))
  {
    SpeakerFirstBySize(SeparateSpeaker(faces, AreaOf), i);
  }

  lemma SpeakerFirstBySize(sep: Separation<Face>, i: nat)
    requires sep.speaker.Some?
    requires NonIncreasing(sep.audience, AreaOf)
    requires forall f :: f in sep.audience ==> AreaOf(f) <= AreaOf(sep.speaker.value)
    ensures
      var obs := SpeakerFirst(sep, i);
      && (forall a, b :: 1 <= a < b < |obs| ==> AreaOf(obs[a].face) >= AreaOf(obs[b].face))
      && (forall a :: 1 <= a < |obs| ==> AreaOf(obs[a].face) <= AreaOf(obs[0].face))
  {
    var obs := SpeakerFirst(sep, i);
    assert forall a :: 1 <= a < |obs| ==> obs[a].face == sep.audience[a - 1] && sep.audience[a - 1] in sep.audience;
  }

  lemma SpeakerFirstFaces(sep: Separation<Face>, i: nat)
    requires sep.speaker.Some?
    ensures FacesOf(SpeakerFirst(sep, i)) == [sep.speaker.value] + sep.audience
  {
    var obs := SpeakerFirst(sep, i);
    assert forall k :: 1 <= k < |obs| ==> obs[k].face == sep.audience[k - 1];
  }

  /** Every face of the frame is processed, each once. */
  lemma FrameProcessedOnce(faces: seq<Face>, i: nat)
    ensures multiset(FacesOf(FrameObservations(faces, i))) == multiset(faces)
  {
    var sep := SeparateSpeaker(faces, AreaOf);
    if sep.speaker.Some? {
      SpeakerFirstFaces(sep, i);
    }
  }

  /** All faces of all frames, frame by frame, in processing order. */
  function Observations(frames: seq<seq<RawFace>>): seq<Observation>
  {
    if frames == [] then []
    else
      var n := |frames| - 1;
      Observations(frames[..n]) + FrameObservations(NormaliseFrame(frames[n], FormatFaceData), n)
  }

  /** What the tracker is asked, face by face. */
  function Sightings(obs: seq<Observation>): (ss: seq<Sighting>)
    ensures |ss| == |obs|
  {
    seq(|obs|, k requires 0 <= k < |obs| => Sighting(obs[k].face.boundingBox, obs[k].frame))
  }

  /** The number of faces detected over all frames. */
  function TotalFaces(frames: seq<seq<RawFace>>): nat
  {
    if frames == [] then 0 else TotalFaces(frames[..|frames| - 1]) + |frames[|frames| - 1]|
  }

  /** The faces detected over all frames, each normalised by `normalise`. */
  function DetectedFaces<F>(frames: seq<seq<RawFace>>, normalise: RawFace -> F): (m: multiset<F>)
    ensures |m| == TotalFaces(frames)
  {
    if frames == [] then multiset{}
    else
      var n := |frames| - 1;
      DetectedFaces(frames[..n], normalise) + multiset(NormaliseFrame(frames[n], normalise))
  }

  lemma ObservationsAppend(frames: seq<seq<RawFace>>)
    requires frames != []
    ensures Observations(frames) ==
      Observations(frames[..|frames| - 1]) + FrameObservations(NormaliseFrame(frames[|frames| - 1], FormatFaceData), |frames| - 1)
  {
  }

  /** As many faces are processed as are detected. */
  lemma {:induction false} ObservationsCount(frames: seq<seq<RawFace>>)
    ensures |Observations(frames)| == TotalFaces(frames)
    decreases |frames|
  {
    if frames != [] {
      ObservationsCount(frames[..|frames| - 1]);
      ObservationsAppend(frames);
    }
  }

  /** Every detected face is processed, each exactly once: the processed
      faces are the detected faces, counted with multiplicity. */
  lemma {:induction false} ObservationsFaces(frames: seq<seq<RawFace>>)
    ensures multiset(FacesOf(Observations(frames))) == DetectedFaces(frames, FormatFaceData)
    decreases |frames|
  {
    if frames != [] {
      var n := |frames| - 1;
      ObservationsFaces(frames[..n]);
      ObservationsAppend(frames);
      var faces := NormaliseFrame(frames[n], FormatFaceData);
      FacesOfAppend(Observations(frames[..n]), FrameObservations(faces, n));
      FrameProcessedOnce(faces, n);
    }
  }

  /** Every observation lies in the frame range, and observations come in
      frame order. */
  lemma {:induction false} ObservationsInFrameOrder(frames: seq<seq<RawFace>>)
    ensures forall k :: 0 <= k < |Observations(frames)| ==> Observations(frames)[k].frame < |frames|
    ensures forall k, l :: 0 <= k < l < |Observations(frames)| ==>
      Observations(frames)[k].frame <= Observations(frames)[l].frame
    decreases |frames|
  {
    if frames != [] {
      var n := |frames| - 1;
      ObservationsInFrameOrder(frames[..n]);
      ObservationsAppend(frames);
      FrameOrderAppend(Observations(frames[..n]), FrameObservations(NormaliseFrame(frames[n], FormatFaceData), n), n);
    }
  }

  /** Appending the faces of frame `n` to faces of earlier frames in frame
      order keeps them in frame order. */
  lemma FrameOrderAppend(prev: seq<Observation>, last: seq<Observation>, n: nat)
    requires forall k :: 0 <= k < |prev| ==> prev[k].frame < n
    requires forall k, l :: 0 <= k < l < |prev| ==> prev[k].frame <= prev[l].frame
    requires forall k :: 0 <= k < |last| ==> last[k].frame == n
    ensures forall k :: 0 <= k < |prev + last| ==> (prev + last)[k].frame < n + 1
    ensures forall k, l :: 0 <= k < l < |prev + last| ==> (prev + last)[k].frame <= (prev + last)[l].frame
  {
    var all := prev + last;
    assert forall k :: 0 <= k < |prev| ==> all[k] == prev[k];
    assert forall k :: |prev| <= k < |all| ==> all[k] == last[k - |prev|];
  }

  // ---------------------------------------------------------------------
  // Counters

  predicate IsSpeaking(f: Face)
  {
    f.mouthOpen == Some(true) && f.mouthOpenConfidence > MouthOpenConfidenceFloor
  }

  /** The emotion used for the balance, with "Unknown" standing for an empty label. */
  function BalanceEmotion(f: Face): string
  {
    if f.emotion == "" then "Unknown" else f.emotion
  }

  predicate IsSpeakerObs(o: Observation) { o.role == Speaker }
  predicate IsAudienceObs(o: Observation) { o.role == Audience }
  predicate SpeakerSpeaks(o: Observation) { o.role == Speaker && IsSpeaking(o.face) }
  predicate AudienceSpeaks(o: Observation) { o.role == Audience && IsSpeaking(o.face) }
  predicate AudiencePositive(o: Observation) { o.role == Audience && BalanceEmotion(o.face) in PositiveEmotions }
  predicate AudienceNegative(o: Observation) { o.role == Audience && BalanceEmotion(o.face) in NegativeEmotions }

  // ---------------------------------------------------------------------
  // Rows and per-person summaries

  datatype CsvRow = CsvRow(
    timestamp: nat,
    personId: nat,
    role: Role,
    emotion: string,
    emotionConfidence: real,
    eyeDirection: Direction,
    eyesOpen: Option<bool>,
    mouthOpen: Option<bool>,
    smile: Option<bool>,
    poseYaw: real,
    distracted: bool,
    reason: Option<Reason>)

  /** Counts per reason; `unknown` is the bucket for a distracted verdict
      without a reason. */
  datatype Breakdown = Breakdown(turned: nat, eyesAway: nat, occluded: nat, multiple: nat, unknown: nat)

  datatype PersonSummary = PersonSummary(totalFrames: nat, distractedFrames: nat, reasonBreakdown: Breakdown)

  const ZeroSummary := PersonSummary(0, 0, Breakdown(0, 0, 0, 0, 0))

  function BreakdownTotal(b: Breakdown): nat
  {
    b.turned + b.eyesAway + b.occluded + b.multiple + b.unknown
  }

  /** The row written for one face of one frame. */
  function MakeRow(o: Observation, id: nat): (row: CsvRow)
    ensures row.distracted <==> row.reason.Some?
  {
    var v := DetectDistraction(o.face);
    CsvRow(o.frame, id, o.role, o.face.emotion, o.face.emotionConfidence, o.face.eyeDirection,
      o.face.eyesOpen, o.face.mouthOpen, o.face.smile, o.face.poseYaw, v.distracted, v.reason)
  }

  /** The rows written for the faces `obs` with identities `ids`, in order. */
  function Rows(obs: seq<Observation>, ids: seq<nat>): (rows: seq<CsvRow>)
    requires |ids| == |obs|
    ensures |rows| == |obs|
  {
    if obs == [] then []
    else
      var n := |obs| - 1;
      Rows(obs[..n], ids[..n]) + [MakeRow(obs[n], ids[n])]
  }

  /** Row `k` is the row of face `k` with identity `k`. */
  lemma {:induction false} RowsAt(obs: seq<Observation>, ids: seq<nat>)
    requires |ids| == |obs|
    ensures forall k :: 0 <= k < |obs| ==> Rows(obs, ids)[k] == MakeRow(obs[k], ids[k])
    decreases |obs|
  {
    if obs != [] {
      var n := |obs| - 1;
      RowsAt(obs[..n], ids[..n]);
    }
  }

  function Bump(b: Breakdown, reason: Option<Reason>): Breakdown
  {
    match reason
    case None => b.(unknown := b.unknown + 1)
    case Some(Turned) => b.(turned := b.turned + 1)
    case Some(EyesAway) => b.(eyesAway := b.eyesAway + 1)
    case Some(Occluded) => b.(occluded := b.occluded + 1)
    case Some(Multiple) => b.(multiple := b.multiple + 1)
  }

  /** Adds one row to a person's distraction record. */
  function Tally(s: PersonSummary, row: CsvRow): PersonSummary
  {
    if row.distracted then
      PersonSummary(s.totalFrames + 1, s.distractedFrames + 1, Bump(s.reasonBreakdown, row.reason))
    else
      s.(totalFrames := s.totalFrames + 1)
  }

  /** The rows of person `p`, in order. */
  function RowsFor(rows: seq<CsvRow>, p: nat): seq<CsvRow>
  {
    if rows == [] then []
    else RowsFor(rows[..|rows| - 1], p) + (if rows[|rows| - 1].personId == p then [rows[|rows| - 1]] else [])
  }

  /** The distraction record built from a person's rows. */
  function SummaryOf(rs: seq<CsvRow>): PersonSummary
  {
    if rs == [] then ZeroSummary else Tally(SummaryOf(rs[..|rs| - 1]), rs[|rs| - 1])
  }

  /** The emotion table of a person's rows: each emotion with its number of rows. */
  function EmotionsOf(rs: seq<CsvRow>): multiset<string>
  {
    if rs == [] then multiset{} else EmotionsOf(rs[..|rs| - 1]) + multiset{rs[|rs| - 1].emotion}
  }

  predicate IsDistractedRow(row: CsvRow) { row.distracted }

  ghost predicate WellFormedRows(rs: seq<CsvRow>)
  {
    forall k :: 0 <= k < |rs| ==> (rs[k].distracted <==> rs[k].reason.Some?)
  }

  lemma RowsForAppend(rows: seq<CsvRow>, row: CsvRow, p: nat)
    ensures RowsFor(rows + [row], p) == RowsFor(rows, p) + (if row.personId == p then [row] else [])
  {
    assert (rows + [row])[..|rows|] == rows;
  }

  /** A person with no row has no rows; a person with a row has at least one. */
  lemma {:induction false} RowsForEmpty(rows: seq<CsvRow>, p: nat)
    ensures RowsFor(rows, p) == [] <==> forall k :: 0 <= k < |rows| ==> rows[k].personId != p
    decreases |rows|
  {
    if rows != [] {
      var init := rows[..|rows| - 1];
      RowsForEmpty(init, p);
      assert forall k :: 0 <= k < |init| ==> init[k] == rows[k];
    }
  }

  lemma {:induction false} RowsForWellFormed(rows: seq<CsvRow>, p: nat)
    requires WellFormedRows(rows)
    ensures WellFormedRows(RowsFor(rows, p))
    decreases |rows|
  {
    if rows != [] {
      var init := rows[..|rows| - 1];
      assert forall k :: 0 <= k < |init| ==> init[k] == rows[k];
      RowsForWellFormed(init, p);
    }
  }

  /** One more well-formed row keeps a record's counts in step. */
  lemma TallyFacts(s: PersonSummary, row: CsvRow)
    requires row.distracted <==> row.reason.Some?
    requires s.distractedFrames <= s.totalFrames
    requires BreakdownTotal(s.reasonBreakdown) == s.distractedFrames
    requires s.reasonBreakdown.unknown == 0
    ensures Tally(s, row).totalFrames == s.totalFrames + 1
    ensures Tally(s, row).distractedFrames <= Tally(s, row).totalFrames
    ensures BreakdownTotal(Tally(s, row).reasonBreakdown) == Tally(s, row).distractedFrames
    ensures Tally(s, row).reasonBreakdown.unknown == 0
  {
  }

  /** A record built from well-formed rows counts every row once, never
      counts more distracted rows than rows, spreads the distracted rows over
      the reason buckets exactly, and never uses the `unknown` bucket. */
  lemma {:induction false} SummaryOfFacts(rs: seq<CsvRow>)
    requires WellFormedRows(rs)
    ensures SummaryOf(rs).totalFrames == |rs|
    ensures SummaryOf(rs).distractedFrames <= SummaryOf(rs).totalFrames
    ensures BreakdownTotal(SummaryOf(rs).reasonBreakdown) == SummaryOf(rs).distractedFrames
    ensures SummaryOf(rs).reasonBreakdown.unknown == 0
    decreases |rs|
  {
    if rs != [] {
      var init := rs[..|rs| - 1];
      assert forall k :: 0 <= k < |init| ==> init[k] == rs[k];
      SummaryOfFacts(init);
      TallyFacts(SummaryOf(init), rs[|rs| - 1]);
    }
  }

  /** A record's distracted frames are its distracted rows. */
  lemma {:induction false} SummaryOfDistracted(rs: seq<CsvRow>)
    ensures SummaryOf(rs).distractedFrames == Count(rs, IsDistractedRow)
    decreases |rs|
  {
    if rs != [] {
      SummaryOfDistracted(rs[..|rs| - 1]);
    }
  }

  /** A person's emotion table holds one entry per row. */
  lemma {:induction false} EmotionsOfSize(rs: seq<CsvRow>)
    ensures |EmotionsOf(rs)| == |rs|
    decreases |rs|
  {
    if rs != [] {
      EmotionsOfSize(rs[..|rs| - 1]);
    }
  }

  // ---------------------------------------------------------------------
  // The running state of the frame loop

  datatype Aggregate = Aggregate(
    rows: seq<CsvRow>,
    emotionCounts: map<nat, multiset<string>>,
    distractionSummary: map<nat, PersonSummary>,
    people: seq<nat>,
    speakerSpeaking: nat,
    audienceSpeaking: nat,
    audiencePositive: nat,
    audienceNegative: nat)

  const EmptyAggregate := Aggregate([], map[], map[], [], 0, 0, 0, 0)

  /** Everything the loop body does with one face once it has its identity:
      speaking and balance counters, the person's emotion table and
      distraction record (created on first sight), and the CSV row. */
  function RecordFace(agg: Aggregate, o: Observation, id: nat): Aggregate
  {
    var row := MakeRow(o, id);
    var counts := if id in agg.emotionCounts then agg.emotionCounts[id] else multiset{};
    var known := id in agg.distractionSummary;
    var record := if known then agg.distractionSummary[id] else ZeroSummary;
    Aggregate(
      agg.rows + [row],
      agg.emotionCounts[id := counts + multiset{o.face.emotion}],
      agg.distractionSummary[id := Tally(record, row)],
      if known then agg.people else agg.people + [id],
      agg.speakerSpeaking + (if SpeakerSpeaks(o) then 1 else 0),
      agg.audienceSpeaking + (if AudienceSpeaks(o) then 1 else 0),
      agg.audiencePositive + (if AudiencePositive(o) then 1 else 0),
      agg.audienceNegative + (if AudienceNegative(o) then 1 else 0))
  }

  /** One row per face, in order. */
  ghost predicate RowsMatch(agg: Aggregate, obs: seq<Observation>, ids: seq<nat>)
  {
    |ids| == |obs| && agg.rows == Rows(obs, ids)
  }

  /** A table entry, a distraction record and a place in `people` for exactly
      the persons seen, each listed once in `people`. */
  ghost predicate KeysMatch(agg: Aggregate, ids: seq<nat>)
  {
    && (forall p :: p in agg.distractionSummary <==> p in ids)
    && (forall p :: p in agg.emotionCounts <==> p in ids)
    && (forall p :: p in agg.people <==> p in ids)
    && (forall a, b :: 0 <= a < b < |agg.people| ==> agg.people[a] != agg.people[b])
  }

  /** Each person's record and table are what that person's rows give. */
  ghost predicate RecordsMatch(agg: Aggregate)
  {
    RecordsMatchOn(agg.rows, agg.distractionSummary, agg.emotionCounts)
  }

  ghost predicate RecordsMatchOn(rows: seq<CsvRow>, summary: map<nat, PersonSummary>, emotions: map<nat, multiset<string>>)
  {
    && (forall p :: p in summary ==> summary[p] == SummaryOf(RowsFor(rows, p)))
    && (forall p :: p in emotions ==> emotions[p] == EmotionsOf(RowsFor(rows, p)))
  }

  /** Every counter equals the number of faces it is meant to count. */
  ghost predicate CountersMatch(agg: Aggregate, obs: seq<Observation>)
  {
    && agg.speakerSpeaking == Count(obs, SpeakerSpeaks)
    && agg.audienceSpeaking == Count(obs, AudienceSpeaks)
    && agg.audiencePositive == Count(obs, AudiencePositive)
    && agg.audienceNegative == Count(obs, AudienceNegative)
  }

  /** The loop state after the faces `obs` were given the identities `ids`. */
  ghost predicate Consistent(agg: Aggregate, obs: seq<Observation>, ids: seq<nat>)
  {
    RowsMatch(agg, obs, ids) && KeysMatch(agg, ids) && RecordsMatch(agg) && CountersMatch(agg, obs)
  }

  lemma EmptyConsistent()
    ensures Consistent(EmptyAggregate, [], [])
  {
  }

  lemma RecordFaceRows(agg: Aggregate, obs: seq<Observation>, ids: seq<nat>, o: Observation, id: nat)
    requires RowsMatch(agg, obs, ids)
    ensures RowsMatch(RecordFace(agg, o, id), obs + [o], ids + [id])
  {
    assert (obs + [o])[..|obs|] == obs;
    assert (ids + [id])[..|ids|] == ids;
  }

  lemma RecordFaceKeys(agg: Aggregate, ids: seq<nat>, o: Observation, id: nat)
    requires KeysMatch(agg, ids)
    ensures KeysMatch(RecordFace(agg, o, id), ids + [id])
  {
  }

  lemma SummaryOfAppend(rs: seq<CsvRow>, row: CsvRow)
    ensures SummaryOf(rs + [row]) == Tally(SummaryOf(rs), row)
    ensures EmotionsOf(rs + [row]) == EmotionsOf(rs) + multiset{row.emotion}
  {
    assert (rs + [row])[..|rs|] == rs;
  }

  /** The rows of a person not yet seen are empty. */
  lemma UnseenHasNoRows(agg: Aggregate, obs: seq<Observation>, ids: seq<nat>, p: nat)
    requires RowsMatch(agg, obs, ids)
    requires p !in ids
    ensures RowsFor(agg.rows, p) == []
  {
    RowsAt(obs, ids);
    RowsForEmpty(agg.rows, p);
  }

  lemma SummariesStep(rows: seq<CsvRow>, summary: map<nat, PersonSummary>, row: CsvRow)
    requires forall p :: p in summary ==> summary[p] == SummaryOf(RowsFor(rows, p))
    requires row.personId !in summary ==> RowsFor(rows, row.personId) == []
    ensures
      var id := row.personId;
      var record := if id in summary then summary[id] else ZeroSummary;
      var summary' := summary[id := Tally(record, row)];
      forall p :: p in summary' ==> summary'[p] == SummaryOf(RowsFor(rows + [row], p))
  {
    var id := row.personId;
    var record := if id in summary then summary[id] else ZeroSummary;
    var summary' := summary[id := Tally(record, row)];
    forall p | p in summary'
      ensures summary'[p] == SummaryOf(RowsFor(rows + [row], p))
    {
      RowsForAppend(rows, row, p);
      if p == id {
        SummaryOfAppend(RowsFor(rows, p), row);
      } else {
        assert RowsFor(rows + [row], p) == RowsFor(rows, p) + [];
        assert RowsFor(rows, p) + [] == RowsFor(rows, p);
      }
    }
  }

  lemma EmotionsStep(rows: seq<CsvRow>, emotions: map<nat, multiset<string>>, row: CsvRow)
    requires forall p :: p in emotions ==> emotions[p] == EmotionsOf(RowsFor(rows, p))
    requires row.personId !in emotions ==> RowsFor(rows, row.personId) == []
    ensures
      var id := row.personId;
      var counts := if id in emotions then emotions[id] else multiset{};
      var emotions' := emotions[id := counts + multiset{row.emotion}];
      forall p :: p in emotions' ==> emotions'[p] == EmotionsOf(RowsFor(rows + [row], p))
  {
    var id := row.personId;
    var counts := if id in emotions then emotions[id] else multiset{};
    var emotions' := emotions[id := counts + multiset{row.emotion}];
    forall p | p in emotions'
      ensures emotions'[p] == EmotionsOf(RowsFor(rows + [row], p))
    {
      RowsForAppend(rows, row, p);
      if p == id {
        SummaryOfAppend(RowsFor(rows, p), row);
      } else {
        assert RowsFor(rows + [row], p) == RowsFor(rows, p) + [];
        assert RowsFor(rows, p) + [] == RowsFor(rows, p);
      }
    }
  }

  /** Adding a row and updating its person's record and table from the
      previous ones (or from nothing, for a person without rows) keeps every
      record and table equal to what the rows give. */
  lemma RecordsStep(rows: seq<CsvRow>, summary: map<nat, PersonSummary>, emotions: map<nat, multiset<string>>, row: CsvRow)
    requires RecordsMatchOn(rows, summary, emotions)
    requires row.personId !in summary ==> RowsFor(rows, row.personId) == []
    requires row.personId !in emotions ==> RowsFor(rows, row.personId) == []
    ensures
      var id := row.personId;
      var counts := if id in emotions then emotions[id] else multiset{};
      var record := if id in summary then summary[id] else ZeroSummary;
      RecordsMatchOn(rows + [row], summary[id := Tally(record, row)], emotions[id := counts + multiset{row.emotion}])
  {
    SummariesStep(rows, summary, row);
    EmotionsStep(rows, emotions, row);
  }

  lemma RecordFaceRecords(agg: Aggregate, obs: seq<Observation>, ids: seq<nat>, o: Observation, id: nat)
    requires RowsMatch(agg, obs, ids) && KeysMatch(agg, ids) && RecordsMatch(agg)
    ensures RecordsMatch(RecordFace(agg, o, id))
  {
    var row := MakeRow(o, id);
    if id !in ids {
      UnseenHasNoRows(agg, obs, ids, id);
    }
    RecordsStep(agg.rows, agg.distractionSummary, agg.emotionCounts, row);
  }

  lemma RecordFaceCounters(agg: Aggregate, obs: seq<Observation>, o: Observation, id: nat)
    requires CountersMatch(agg, obs)
    ensures CountersMatch(RecordFace(agg, o, id), obs + [o])
  {
    CountAppend(obs, o, SpeakerSpeaks);
    CountAppend(obs, o, AudienceSpeaks);
    CountAppend(obs, o, AudiencePositive);
    CountAppend(obs, o, AudienceNegative);
  }

  /** Recording one more face keeps the loop state consistent. */
  lemma RecordFaceConsistent(agg: Aggregate, obs: seq<Observation>, ids: seq<nat>, o: Observation, id: nat)
    requires Consistent(agg, obs, ids)
    ensures Consistent(RecordFace(agg, o, id), obs + [o], ids + [id])
  {
    RecordFaceRows(agg, obs, ids, o, id);
    RecordFaceKeys(agg, ids, o, id);
    RecordFaceRecords(agg, obs, ids, o, id);
    RecordFaceCounters(agg, obs, o, id);
  }

  // ---------------------------------------------------------------------
  // What the finished loop state says

  /** How many faces were given identity `p`. */
  function Occurrences(ids: seq<nat>, p: nat): nat
  {
    if ids == [] then 0
    else Occurrences(ids[..|ids| - 1], p) + (if ids[|ids| - 1] == p then 1 else 0)
  }

  lemma {:induction false} RowsForSize(rows: seq<CsvRow>, ids: seq<nat>, p: nat)
    requires |rows| == |ids|
    requires forall k :: 0 <= k < |rows| ==> rows[k].personId == ids[k]
    ensures |RowsFor(rows, p)| == Occurrences(ids, p)
    decreases |rows|
  {
    if rows != [] {
      var n := |rows| - 1;
      RowsForSize(rows[..n], ids[..n], p);
    }
  }

  lemma {:induction false} OccurrencesPositive(ids: seq<nat>, p: nat)
    requires p in ids
    ensures Occurrences(ids, p) >= 1
    decreases |ids|
  {
    var n := |ids| - 1;
    if ids[n] != p {
      assert p in ids[..n] by {
        var k :| 0 <= k < |ids| && ids[k] == p;
        assert ids[..n][k] == p;
      }
      OccurrencesPositive(ids[..n], p);
    }
  }

  /** The rows written for faces are well formed, and row `k` belongs to the
      identity of face `k`. */
  lemma RowsFacts(obs: seq<Observation>, ids: seq<nat>)
    requires |ids| == |obs|
    ensures WellFormedRows(Rows(obs, ids))
    ensures forall k :: 0 <= k < |obs| ==> Rows(obs, ids)[k].personId == ids[k]
  {
    RowsAt(obs, ids);
  }

  /** A record and table built from a person's well-formed rows. */
  lemma RecordFacts(rs: seq<CsvRow>)
    requires WellFormedRows(rs)
    ensures SummaryOf(rs).totalFrames == |rs|
    ensures SummaryOf(rs).distractedFrames <= SummaryOf(rs).totalFrames
    ensures BreakdownTotal(SummaryOf(rs).reasonBreakdown) == SummaryOf(rs).distractedFrames
    ensures SummaryOf(rs).reasonBreakdown.unknown == 0
    ensures |EmotionsOf(rs)| == |rs|
  {
    SummaryOfFacts(rs);
    EmotionsOfSize(rs);
  }

  /** The record of every person seen: one frame per face given that
      identity, at most as many distracted frames as frames, the distracted
      frames spread exactly over the named reasons (the `unknown` bucket stays
      empty), and an emotion table whose counts add up to the frames. */
  lemma PersonSummaryFacts(agg: Aggregate, obs: seq<Observation>, ids: seq<nat>, p: nat)
    requires Consistent(agg, obs, ids)
    requires p in agg.distractionSummary
    ensures p in agg.emotionCounts && p in agg.people
    ensures agg.distractionSummary[p].totalFrames == Occurrences(ids, p) >= 1
    ensures agg.distractionSummary[p].distractedFrames <= agg.distractionSummary[p].totalFrames
    ensures BreakdownTotal(agg.distractionSummary[p].reasonBreakdown) == agg.distractionSummary[p].distractedFrames
    ensures agg.distractionSummary[p].reasonBreakdown.unknown == 0
    ensures |agg.emotionCounts[p]| == agg.distractionSummary[p].totalFrames
  {
    RowsFacts(obs, ids);
    RowsForWellFormed(agg.rows, p);
    RecordFacts(RowsFor(agg.rows, p));
    RowsForSize(agg.rows, ids, p);
    OccurrencesPositive(ids, p);
  }

  /** A frame's processing order has one speaker at most, at its head. */
  lemma FrameSpeaksOnce(fo: seq<Observation>)
    requires forall k :: 0 <= k < |fo| ==> (fo[k].role == Speaker <==> k == 0)
    ensures Count(fo, SpeakerSpeaks) <= 1
  {
    if fo != [] {
      var head, tail := fo[..1], fo[1..];
      assert fo == head + tail;
      assert forall k :: 0 <= k < |tail| ==> tail[k] == fo[k + 1];
      CountConcat(head, tail, SpeakerSpeaks);
      CountNone(tail, SpeakerSpeaks);
    }
  }

  /** The speaker's speaking count grows by at most one per frame. */
  lemma {:induction false} SpeakerSpeaksAtMostOncePerFrame(frames: seq<seq<RawFace>>)
    ensures Count(Observations(frames), SpeakerSpeaks) <= |frames|
    decreases |frames|
  {
    if frames != [] {
      var n := |frames| - 1;
      SpeakerSpeaksAtMostOncePerFrame(frames[..n]);
      var last := FrameObservations(NormaliseFrame(frames[n], FormatFaceData), n);
      CountConcat(Observations(frames[..n]), last, SpeakerSpeaks);
      FrameSpeaksOnce(last);
    }
  }

  /** The positive and negative counts come from disjoint emotion sets of
      audience faces, so together they never exceed the audience faces. */
  lemma BalanceBound(obs: seq<Observation>)
    ensures Count(obs, AudiencePositive) + Count(obs, AudienceNegative) <= Count(obs, IsAudienceObs)
  {
    assert PositiveEmotions !! NegativeEmotions;
    CountDisjoint(obs, AudiencePositive, AudienceNegative, IsAudienceObs);
  }

  /** The audience counters of a consistent loop state: the audience's
      speaking count is at most the number of audience faces, and so are the
      positive and negative counts together. (The speaker's count is bounded
      by `SpeakerSpeaksAtMostOncePerFrame`.) */
  lemma CounterBounds(agg: Aggregate, obs: seq<Observation>)
    requires CountersMatch(agg, obs)
    ensures agg.audienceSpeaking <= Count(obs, IsAudienceObs)
    ensures agg.audiencePositive + agg.audienceNegative <= Count(obs, IsAudienceObs)
  {
    CountImplies(obs, AudienceSpeaks, IsAudienceObs);
    BalanceBound(obs);
  }

  // ---------------------------------------------------------------------
  // Final outputs

  /** A person's distraction rate: distracted frames over frames, 0 for a
      record without frames. */
  function DistractionRate(s: PersonSummary): (rate: real)
    ensures s.totalFrames == 0 ==> rate == 0.0
    ensures s.totalFrames > 0 ==> rate * (s.totalFrames as real) == s.distractedFrames as real
    ensures s.distractedFrames <= s.totalFrames ==> 0.0 <= rate <= 1.0
  {
    if s.totalFrames == 0 then 0.0 else (s.distractedFrames as real) / (s.totalFrames as real)
  }

  /** The speaker-to-audience speaking ratio, or the sentinel `Infinite`. */
  datatype Ratio = Infinite | Finite(value: real)

  function SpeakingRatio(speaker: nat, audience: nat): (r: Ratio)
    ensures r.Infinite? <==> audience == 0
    ensures r.Finite? ==> r.value >= 0.0 && r.value * (audience as real) == speaker as real
  {
    if audience == 0 then Infinite else Finite((speaker as real) / (audience as real))
  }

  datatype Balance = Balance(positive: nat, negative: nat, positiveRate: real, negativeRate: real)

  /** The audience emotion balance: both rates 0 when nothing was counted,
      otherwise the shares of positive and negative faces, which add up to 1. */
  function EmotionBalance(positive: nat, negative: nat): (b: Balance)
    ensures b.positive == positive && b.negative == negative
    ensures positive + negative == 0 ==> b.positiveRate == 0.0 && b.negativeRate == 0.0
    ensures positive + negative > 0 ==>
      && 0.0 <= b.positiveRate <= 1.0
      && 0.0 <= b.negativeRate <= 1.0
      && b.positiveRate + b.negativeRate == 1.0
      && b.positiveRate * ((positive + negative) as real) == positive as real
  {
    var total := positive + negative;
    if total == 0 then Balance(positive, negative, 0.0, 0.0)
    else
      var t := total as real;
      Share(positive as real, t);
      Share(negative as real, t);
      assert (positive as real) / t + (negative as real) / t == t / t;
      Balance(positive, negative, (positive as real) / t, (negative as real) / t)
  }

  /** A part of a positive whole, divided by the whole, is a share in [0, 1]. */
  lemma Share(a: real, t: real)
    requires 0.0 <= a <= t && t > 0.0
    ensures 0.0 <= a / t <= 1.0
    ensures (a / t) * t == a
  {
    var q := a / t;
    assert q * t == a;
    assert (1.0 - q) * t == t - a;
  }

  /** The finalisation loop over the recorded persons: each gets its rate. */
  method DistractionRates(summary: map<nat, PersonSummary>, people: seq<nat>) returns (rates: map<nat, real>)
    requires forall p :: p in people <==> p in summary
    ensures rates.Keys == summary.Keys
    ensures forall p :: p in rates ==> rates[p] == DistractionRate(summary[p])
  {
    rates := map[];
    for i := 0 to |people|
      invariant forall p :: p in rates <==> p in people[..i]
      invariant forall p :: p in rates ==> p in summary && rates[p] == DistractionRate(summary[p])
    {
      rates := rates[people[i] := DistractionRate(summary[people[i]])];
    }
    assert people[..|people|] == people;
  }

  datatype SpeakingOutput = SpeakingOutput(speakerSpeakingFrames: nat, audienceSpeakingFrames: nat, speakerVsAudienceRatio: Ratio)

  /** Everything the analysis produces: the loop state (rows, tables,
      records, counters), the rates, the speaking output and the balance. */
  datatype Report = Report(aggregate: Aggregate, distractionRates: map<nat, real>, speaking: SpeakingOutput, balance: Balance)

  /** The loop state after recording the faces `obs` with identities `ids`,
      one after the other, from the empty state. */
  function Recorded(obs: seq<Observation>, ids: seq<nat>): Aggregate
    requires |ids| == |obs|
  {
    if obs == [] then EmptyAggregate
    else
      var n := |obs| - 1;
      RecordFace(Recorded(obs[..n], ids[..n]), obs[n], ids[n])
  }

  lemma RecordedAppend(obs: seq<Observation>, ids: seq<nat>, o: Observation, id: nat)
    requires |ids| == |obs|
    ensures Recorded(obs + [o], ids + [id]) == RecordFace(Recorded(obs, ids), o, id)
  {
    assert (obs + [o])[..|obs|] == obs;
    assert (ids + [id])[..|ids|] == ids;
  }

  /** Recording faces one by one always gives a consistent loop state. */
  lemma {:induction false} RecordedConsistent(obs: seq<Observation>, ids: seq<nat>)
    requires |ids| == |obs|
    ensures Consistent(Recorded(obs, ids), obs, ids)
    decreases |obs|
  {
    if obs == [] {
      EmptyConsistent();
    } else {
      var n := |obs| - 1;
      assert obs[..n] + [obs[n]] == obs;
      assert ids[..n] + [ids[n]] == ids;
      RecordedConsistent(obs[..n], ids[..n]);
      RecordFaceConsistent(Recorded(obs[..n], ids[..n]), obs[..n], ids[..n], obs[n], ids[n]);
    }
  }

  /** The frame loop's invariant: the identities `ids` are what the tracker,
      started in `st0`, gave the faces `obs`, it is now in `st`, and `agg` is
      the loop state after recording those faces. */
  ghost predicate LoopState(st0: TrackerState, obs: seq<Observation>, ids: seq<nat>, agg: Aggregate, st: TrackerState)
  {
    (ids, st) == TrackAll(st0, Sightings(obs)) && agg == Recorded(obs, ids)
  }

  /** One face identified by the tracker and recorded keeps the invariant. */
  lemma LoopStep(st0: TrackerState, obs: seq<Observation>, ids: seq<nat>, agg: Aggregate, st: TrackerState,
                 o: Observation, id: nat, st': TrackerState)
    requires LoopState(st0, obs, ids, agg, st)
    requires (id, st') == TrackStep(st, Sighting(o.face.boundingBox, o.frame))
    ensures LoopState(st0, obs + [o], ids + [id], RecordFace(agg, o, id), st')
  {
    var s := Sighting(o.face.boundingBox, o.frame);
    assert Sightings(obs + [o]) == Sightings(obs) + [s];
    TrackAllAppend(st0, Sightings(obs), s);
    RecordedAppend(obs, ids, o, id);
  }

  /** One face: identified by the tracker in its frame, then recorded. */
  method ProcessFace(agg0: Aggregate, o: Observation, tracker: Tracker,
                     ghost st0: TrackerState, ghost obs0: seq<Observation>, ghost ids0: seq<nat>)
    returns (agg: Aggregate, personId: nat)
    requires tracker.Valid()
    requires LoopState(st0, obs0, ids0, agg0, tracker.State())
    modifies tracker
    ensures tracker.Valid()
    ensures LoopState(st0, obs0 + [o], ids0 + [personId], agg, tracker.State())
  {
    ghost var st := tracker.State();
    personId := tracker.Assign(o.face.boundingBox, o.frame);
    LoopStep(st0, obs0, ids0, agg0, st, o, personId, tracker.State());
    agg := RecordFace(agg0, o, personId);
  }

  /** The body of the frame loop for frame `i`: each face of the frame, in
      processing order, is identified by the tracker and recorded. */
  method ProcessFrame(agg0: Aggregate, allFaces: seq<Observation>, i: nat, tracker: Tracker,
                      ghost st0: TrackerState, ghost obs0: seq<Observation>, ghost ids0: seq<nat>)
    returns (agg: Aggregate, ghost ids: seq<nat>)
    requires tracker.Valid()
    requires LoopState(st0, obs0, ids0, agg0, tracker.State())
    requires forall k :: 0 <= k < |allFaces| ==> allFaces[k].frame == i
    modifies tracker
    ensures tracker.Valid()
    ensures LoopState(st0, obs0 + allFaces, ids, agg, tracker.State())
  {
    agg := agg0;
    ghost var obs := obs0;
    ids := ids0;
    for j := 0 to |allFaces|
      invariant tracker.Valid()
      invariant obs == obs0 + allFaces[..j]
      invariant LoopState(st0, obs, ids, agg, tracker.State())
    {
      var o := allFaces[j];
      PrefixStep(obs0, allFaces, j);
      var personId;
      agg, personId := ProcessFace(agg, o, tracker, st0, obs, ids);
      obs := obs + [o];
      ids := ids + [personId];
    }
    assert allFaces[..|allFaces|] == allFaces;
  }

  /** The rates of a consistent loop state all lie between 0 and 1. */
  lemma RatesInRange(agg: Aggregate, obs: seq<Observation>, ids: seq<nat>, rates: map<nat, real>)
    requires Consistent(agg, obs, ids)
    requires rates.Keys == agg.distractionSummary.Keys
    requires forall p :: p in rates ==> rates[p] == DistractionRate(agg.distractionSummary[p])
    ensures forall p :: p in rates ==> 0.0 <= rates[p] <= 1.0
  {
    forall p | p in rates
      ensures 0.0 <= rates[p] <= 1.0
    {
      PersonSummaryFacts(agg, obs, ids, p);
    }
  }

  /** The final outputs computed from the loop state: the rates, the
      speaking output and the emotion balance. */
  method Finish(agg: Aggregate, ghost obs: seq<Observation>, ghost ids: seq<nat>) returns (report: Report)
    requires Consistent(agg, obs, ids)
    ensures report.aggregate == agg
    ensures report.distractionRates.Keys == agg.distractionSummary.Keys
    ensures forall p :: p in report.distractionRates ==>
      && report.distractionRates[p] == DistractionRate(agg.distractionSummary[p])
      && 0.0 <= report.distractionRates[p] <= 1.0
    ensures report.speaking == SpeakingOutput(agg.speakerSpeaking, agg.audienceSpeaking,
      SpeakingRatio(agg.speakerSpeaking, agg.audienceSpeaking))
    ensures report.balance == EmotionBalance(agg.audiencePositive, agg.audienceNegative)
  {
    var rates := DistractionRates(agg.distractionSummary, agg.people);
    RatesInRange(agg, obs, ids, rates);
    var speaking := SpeakingOutput(agg.speakerSpeaking, agg.audienceSpeaking,
      SpeakingRatio(agg.speakerSpeaking, agg.audienceSpeaking));
    report := Report(agg, rates, speaking, EmotionBalance(agg.audiencePositive, agg.audienceNegative));
  }

  /** The frame loop: every frame's faces, normalised and put in processing
      order, are identified and recorded. */
  method AnalyzeFrames(frames: seq<seq<RawFace>>, tracker: Tracker) returns (agg: Aggregate, ghost ids: seq<nat>)
    requires tracker.Valid()
    modifies tracker
    ensures tracker.Valid()
    ensures LoopState(old(tracker.State()), Observations(frames), ids, agg, tracker.State())
  {
    ghost var st0 := tracker.State();
    agg := EmptyAggregate;
    ghost var obs: seq<Observation> := [];
    ids := [];
    for i := 0 to |frames|
      invariant tracker.Valid()
      invariant obs == Observations(frames[..i])
      invariant LoopState(st0, obs, ids, agg, tracker.State())
    {
      var faces := NormaliseFrame(frames[i], FormatFaceData);
      var allFaces := FrameObservations(faces, i);
      assert frames[..i + 1][..i] == frames[..i];
      agg, ids := ProcessFrame(agg, allFaces, i, tracker, st0, obs, ids);
      obs := obs + allFaces;
    }
    assert frames[..|frames|] == frames;
  }

  /** The whole analysis of a video's detections, with the tracker's state
      carried across the call as the source's module state is. */
  method AnalyzeVideo(frames: seq<seq<RawFace>>, tracker: Tracker) returns (report: Report)
    requires tracker.Valid()
    modifies tracker
    ensures tracker.Valid()
    ensures
      var run := TrackAll(old(tracker.State()), Sightings(Observations(frames)));
      && tracker.State() == run.1
      && report.aggregate == Recorded(Observations(frames), run.0)
      && Consistent(report.aggregate, Observations(frames), run.0)
    ensures report.distractionRates.Keys == report.aggregate.distractionSummary.Keys
    ensures forall p :: p in report.distractionRates ==>
      && report.distractionRates[p] == DistractionRate(report.aggregate.distractionSummary[p])
      && 0.0 <= report.distractionRates[p] <= 1.0
    ensures report.speaking == SpeakingOutput(report.aggregate.speakerSpeaking, report.aggregate.audienceSpeaking,
      SpeakingRatio(report.aggregate.speakerSpeaking, report.aggregate.audienceSpeaking))
    ensures report.balance == EmotionBalance(report.aggregate.audiencePositive, report.aggregate.audienceNegative)
  {
    var agg, ids := AnalyzeFrames(frames, tracker);
    RecordedConsistent(Observations(frames), ids);
    report := Finish(agg, Observations(frames), ids);
  }
}
