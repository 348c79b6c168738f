/** The full analyser's per-face logic: the face normaliser (with the box
    area attached) and the distraction classifier. */
module MassEmotions {
  import opened Wrappers
  import opened Detector
  import opened Attributes
  import opened Seqs

  /** Head yaw (degrees) beyond which a face counts as turned away. */
  const TurnYawThreshold: real := 25.0

  /** A normalised face. Tri-state attributes are `Option<bool>` (`None` for
      the source's `null`). */
  datatype Face = Face(
    emotion: string,
    emotionConfidence: real,
    eyeDirection: Direction,
    eyeDirectionConfidence: real,
    eyesOpen: Option<bool>,
    eyesOpenConfidence: real,
    faceOccluded: Option<bool>,
    faceOccludedConfidence: real,
    mouthOpen: Option<bool>,
    mouthOpenConfidence: real,
    smile: Option<bool>,
    smileConfidence: real,
    poseYaw: real,
    boundingBox: Option<Box>,
    boundingBoxArea: real)

  /** The emotion label and confidence of a face: the first entry of maximal
      confidence, with "Unknown" for an empty label; "Unknown" with
      confidence 0 when the list is missing or empty. */
  function NormalisedEmotion(emotions: Option<seq<Emotion>>): (r: (string, real))
    ensures emotions.None? || emotions.value == [] ==> r == ("Unknown", 0.0)
    ensures emotions.Some? && emotions.value != [] ==>
      var es := emotions.value;
      exists k :: IsFirstMax(es, Confidence, k) && r.1 == es[k].confidence
        && r.0 == (if es[k].kind == "" then "Unknown" else es[k].kind)
    ensures r.0 != ""
  {
    var es := emotions.GetOr([]);
    var top := TopEmotion(es);
    (EmotionLabel(top), EmotionConfidence(top))
  }

  /** Normalises one detected face and attaches its box area: the emotion as
      above, the gaze classified, every attribute with the detector's value
      and confidence (`None` and 0 when missing, see `Detector`), yaw 0 for a
      missing pose, area 0 for a missing box. */
  function FormatFaceData(raw: RawFace): (f: Face)
    ensures (f.emotion, f.emotionConfidence) == NormalisedEmotion(raw.emotions)
    ensures f.eyeDirection == Unknown <==> !GazeTrusted(raw.eyeDirection)
    ensures GazeTrusted(raw.eyeDirection) ==> f.eyeDirection == ClassifyYaw(raw.eyeDirection.value.yaw)
    ensures f.eyeDirectionConfidence == GazeConfidence(raw.eyeDirection)
    ensures f.eyesOpen == FlagValue(raw.eyesOpen) && f.eyesOpenConfidence == FlagConfidence(raw.eyesOpen)
    ensures f.faceOccluded == FlagValue(raw.faceOccluded) && f.faceOccludedConfidence == FlagConfidence(raw.faceOccluded)
    ensures f.mouthOpen == FlagValue(raw.mouthOpen) && f.mouthOpenConfidence == FlagConfidence(raw.mouthOpen)
    ensures f.smile == FlagValue(raw.smile) && f.smileConfidence == FlagConfidence(raw.smile)
    ensures f.poseYaw == PoseYaw(raw.pose)
    ensures f.boundingBox == raw.boundingBox
    ensures f.boundingBoxArea == BoxArea(raw.boundingBox)
  {
    var top := NormalisedEmotion(raw.emotions);
    Face(
      top.0,
      top.1,
      EyeDirection(raw.eyeDirection),
      GazeConfidence(raw.eyeDirection),
      FlagValue(raw.eyesOpen),
      FlagConfidence(raw.eyesOpen),
      FlagValue(raw.faceOccluded),
      FlagConfidence(raw.faceOccluded),
      FlagValue(raw.mouthOpen),
      FlagConfidence(raw.mouthOpen),
      FlagValue(raw.smile),
      FlagConfidence(raw.smile),
      PoseYaw(raw.pose),
      raw.boundingBox,
      BoxArea(raw.boundingBox))
  }

  datatype Reason = Turned | EyesAway | Occluded | Multiple

  datatype Verdict = Verdict(distracted: bool, reason: Option<Reason>)

  function Abs(x: real): real { if x < 0.0 then -x else x }

  /** The three distraction triggers. */
  predicate IsTurned(f: Face) { Abs(f.poseYaw) > TurnYawThreshold }
  predicate LooksAway(f: Face) { f.eyeDirection != Center && f.eyeDirection != Unknown }
  predicate IsOccluded(f: Face) { f.faceOccluded == Some(true) }

  /** Classifies a face: distracted exactly when some trigger fires; the reason
      is absent when none fires, the trigger itself when exactly one fires,
      and `Multiple` when two or three fire. */
  function DetectDistraction(f: Face): (v: Verdict)
    ensures v.distracted <==> IsTurned(f) || LooksAway(f) || IsOccluded(f)
    ensures v.reason.None? <==> !v.distracted
    ensures v.reason == Some(Turned) <==> IsTurned(f) && !LooksAway(f) && !IsOccluded(f)
    ensures v.reason == Some(EyesAway) <==> !IsTurned(f) && LooksAway(f) && !IsOccluded(f)
    ensures v.reason == Some(Occluded) <==> !IsTurned(f) && !LooksAway(f) && IsOccluded(f)
    ensures v.reason == Some(Multiple) <==>
      (IsTurned(f) && LooksAway(f)) || (IsTurned(f) && IsOccluded(f)) || (LooksAway(f) && IsOccluded(f))
  {
    var triggers :=
      (if IsTurned(f) then [Turned] else [])
      + (if LooksAway(f) then [EyesAway] else [])
      + (if IsOccluded(f) then [Occluded] else []);
    if |triggers| == 0 then Verdict(false, None)
    else if |triggers| == 1 then Verdict(true, Some(triggers[0]))
    else Verdict(true, Some(Multiple))
  }
}
