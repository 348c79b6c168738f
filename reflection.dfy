/** The single-face analyser: each frame's detector answer is reduced to one
    record describing the first detected face, or to "no face", and the
    records are tagged with their frame index (one frame per second). */
module Reflection {
  import opened Wrappers
  import opened Detector
  import opened Seqs
  import opened Attributes
  import Roles

  /** A frame's record when a face was found. The emotion is the top entry's
      label and confidence exactly as the detector gave them. */
  datatype FaceRecord = FaceRecord(
    emotion: string,
    confidence: real,
    eyeDirection: Direction,
    eyeDirectionConfidence: real,
    eyesOpen: Option<bool>,
    eyesOpenConfidence: real,
    faceOccluded: Option<bool>,
    faceOccludedConfidence: real,
    mouthOpen: Option<bool>,
    mouthOpenConfidence: real,
    poseYaw: real,
    smile: Option<bool>,
    smileConfidence: real)

  /** `{faceFound: false}`, or `{faceFound: true, ...}` with the face's record. */
  datatype FrameResult = NoFace | FaceFound(face: FaceRecord)

  /** The one way a frame's analysis fails: the top emotion of a face whose
      emotion list is missing or empty is read all the same. */
  datatype Failure = NoTopEmotion

  /** A face without a usable emotion list. */
  predicate LacksEmotions(face: RawFace)
  {
    face.emotions.None? || face.emotions.value == []
  }

  /** The top emotion: the head of the emotions sorted by decreasing
      confidence, which is the earliest entry of maximal confidence. */
  function SortedTop(es: seq<Emotion>): (top: Emotion)
    requires es != []
    ensures exists k :: IsFirstMax(es, Confidence, k) && top == es[k]
  {
    Roles.SortHeadIsFirstMax(es, Confidence);
    Roles.SortDescending(es, Confidence)[0]
  }

  /** Sorting and taking the head picks the same entry as the reduction the
      multi-face analysers use. */
  lemma SortedTopIsTopEmotion(es: seq<Emotion>)
    requires es != []
    ensures TopEmotion(es) == Some(SortedTop(es))
  {
    var sorted, reduced := SortedTop(es), TopEmotion(es);
    var k1 :| IsFirstMax(es, Confidence, k1) && sorted == es[k1];
    var k2 :| IsFirstMax(es, Confidence, k2) && reduced.value == es[k2];
    FirstMaxUnique(es, Confidence, k1, k2);
  }

  /** The record of one face: fails exactly when the face has no emotions;
      otherwise the emotion is an entry of maximal confidence (the earliest
      on ties), the gaze is `Unknown` unless trusted and otherwise classified
      by yaw, and every attribute keeps the detector's value and confidence,
      `None` and 0 when missing (yaw 0 when the pose is missing). */
  function NormaliseFace(face: RawFace): (r: Result<FaceRecord, Failure>)
    ensures r.Failure? <==> LacksEmotions(face)
    ensures r.Success? ==>
      var es := face.emotions.value;
      exists k :: IsFirstMax(es, Confidence, k)
        && r.value.emotion == es[k].kind && r.value.confidence == es[k].confidence
    ensures r.Success? ==> (r.value.eyeDirection == Unknown <==> !GazeTrusted(face.eyeDirection))
    ensures r.Success? && GazeTrusted(face.eyeDirection) ==>
      r.value.eyeDirection == ClassifyYaw(face.eyeDirection.value.yaw)
    ensures r.Success? ==> r.value.eyeDirectionConfidence == GazeConfidence(face.eyeDirection)
    ensures r.Success? ==>
      && r.value.eyesOpen == FlagValue(face.eyesOpen) && r.value.eyesOpenConfidence == FlagConfidence(face.eyesOpen)
      && r.value.faceOccluded == FlagValue(face.faceOccluded) && r.value.faceOccludedConfidence == FlagConfidence(face.faceOccluded)
      && r.value.mouthOpen == FlagValue(face.mouthOpen) && r.value.mouthOpenConfidence == FlagConfidence(face.mouthOpen)
      && r.value.smile == FlagValue(face.smile) && r.value.smileConfidence == FlagConfidence(face.smile)
    ensures r.Success? ==> r.value.poseYaw == PoseYaw(face.pose)
  {
    if LacksEmotions(face) then Failure(NoTopEmotion)
    else
      var top := SortedTop(face.emotions.value);
      Success(FaceRecord(
        top.kind,
        top.confidence,
        EyeDirection(face.eyeDirection),
        GazeConfidence(face.eyeDirection),
        FlagValue(face.eyesOpen),
        FlagConfidence(face.eyesOpen),
        FlagValue(face.faceOccluded),
        FlagConfidence(face.faceOccluded),
        FlagValue(face.mouthOpen),
        FlagConfidence(face.mouthOpen),
        PoseYaw(face.pose),
        FlagValue(face.smile),
        FlagConfidence(face.smile)))
  }

  /** One frame: no face when the face list is missing or empty; otherwise
      the first face's record, or the failure of its missing emotions. */
  function AnalyzeBuffer(faceDetails: Option<seq<RawFace>>): (r: Result<FrameResult, Failure>)
    ensures r == Success(NoFace) <==> faceDetails.None? || faceDetails.value == []
    ensures r.Failure? <==> faceDetails.Some? && faceDetails.value != [] && LacksEmotions(faceDetails.value[0])
    ensures r.Success? && r.value.FaceFound? ==>
      faceDetails.Some? && faceDetails.value != [] && NormaliseFace(faceDetails.value[0]) == Success(r.value.face)
  {
    if faceDetails.None? || faceDetails.value == [] then Success(NoFace)
    else
      var face := NormaliseFace(faceDetails.value[0]);
      if face.Failure? then Failure(face.error) else Success(FaceFound(face.value))
  }

  /** Faces after the first one never change a frame's result. */
  lemma OnlyFirstFace(first: RawFace, others: seq<RawFace>)
    ensures AnalyzeBuffer(Some([first] + others)) == AnalyzeBuffer(Some([first]))
  {
    assert ([first] + others)[0] == first;
  }

  /** A frame's result tagged with its time: frame `i` is second `i`. */
  datatype Timed = Timed(timestampSeconds: nat, result: FrameResult)

  /** The timeline: frame `i`'s result at position `i`, tagged with second
      `i`, or a failure as soon as any frame fails. */
  function AnalyzeVideo(frames: seq<Option<seq<RawFace>>>): (r: Result<seq<Timed>, Failure>)
    ensures r.Success? <==> forall i :: 0 <= i < |frames| ==> AnalyzeBuffer(frames[i]).Success?
    ensures r.Success? ==> |r.value| == |frames|
    ensures r.Success? ==>
      forall i :: 0 <= i < |frames| ==> r.value[i] == Timed(i, AnalyzeBuffer(frames[i]).value)
    decreases |frames|
  {
    if frames == [] then Success([])
    else
      var n := |frames| - 1;
      var init := AnalyzeVideo(frames[..n]);
      var last := AnalyzeBuffer(frames[n]);
      assert forall i :: 0 <= i < n ==> frames[..n][i] == frames[i];
      if init.Failure? then Failure(init.error)
      else if last.Failure? then Failure(last.error)
      else Success(init.value + [Timed(n, last.value)])
  }

  // ---------------------------------------------------------------------
  // Completion order

  /** The frames settle in the order `order` (frame indices); each settled
      frame's tagged result is written to its own slot, and the first frame
      that settles with a failure fails the whole. */
  function Settle(frames: seq<Option<seq<RawFace>>>, slots: seq<Option<Timed>>, order: seq<nat>)
    : (r: Result<seq<Option<Timed>>, Failure>)
    requires |slots| == |frames|
    requires forall k :: 0 <= k < |order| ==> order[k] < |frames|
    ensures r.Success? ==> |r.value| == |slots|
    decreases |order|
  {
    if order == [] then Success(slots)
    else
      var i := order[0];
      var out := AnalyzeBuffer(frames[i]);
      if out.Failure? then Failure(out.error)
      else Settle(frames, slots[i := Some(Timed(i, out.value))], order[1..])
  }

  /** Settling fails exactly when some settled frame fails; otherwise every
      settled frame's slot holds that frame's tagged result and every other
      slot is untouched. */
  lemma {:induction false} SettleFacts(frames: seq<Option<seq<RawFace>>>, slots: seq<Option<Timed>>, order: seq<nat>)
    requires |slots| == |frames|
    requires forall k :: 0 <= k < |order| ==> order[k] < |frames|
    ensures var r := Settle(frames, slots, order);
      && (r.Failure? <==> exists k :: 0 <= k < |order| && AnalyzeBuffer(frames[order[k]]).Failure?)
      && (r.Success? ==> forall j :: 0 <= j < |slots| ==>
            r.value[j] == if j in order then Some(Timed(j, AnalyzeBuffer(frames[j]).value)) else slots[j])
    decreases |order|
  {
    if order != [] {
      var i := order[0];
      var out := AnalyzeBuffer(frames[i]);
      if out.Success? {
        var slots' := slots[i := Some(Timed(i, out.value))];
        var rest := order[1..];
        assert forall k :: 0 <= k < |rest| ==> rest[k] == order[k + 1];
        SettleFacts(frames, slots', rest);
        assert forall j :: j in order <==> j == i || j in rest;
      }
    }
  }

  /** The frames' results come back in frame order whatever order the frames
      settle in: settling every frame, each at least once, in any order from
      empty slots gives the timeline. */
  lemma SettleInAnyOrder(frames: seq<Option<seq<RawFace>>>, order: seq<nat>)
    requires forall k :: 0 <= k < |order| ==> order[k] < |frames|
    requires forall i :: 0 <= i < |frames| ==> i in order
    ensures
      var r := Settle(frames, seq(|frames|, _ => None), order);
      && (r.Failure? <==> AnalyzeVideo(frames).Failure?)
      && (r.Success? ==> forall j :: 0 <= j < |frames| ==> r.value[j] == Some(AnalyzeVideo(frames).value[j]))
  {
    SettleFacts(frames, seq(|frames|, _ => None), order);
    var r := Settle(frames, seq(|frames|, _ => None), order);
    if r.Failure? {
      var k :| 0 <= k < |order| && AnalyzeBuffer(frames[order[k]]).Failure?;
      assert !AnalyzeBuffer(frames[order[k]]).Success?;
    }
  }
}
