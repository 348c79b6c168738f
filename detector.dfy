/** The records the face detector returns for one face. Every attribute the
    detector may omit is an `Option`; confidences, angles and box coordinates
    are reals. */
module Detector {
  import opened Wrappers

  /** A bounding box in normalised image coordinates. */
  datatype Box = Box(left: real, top: real, width: real, height: real)

  /** One entry of the emotion list: its label (`Type`) and `Confidence`. */
  datatype Emotion = Emotion(kind: string, confidence: real)

  /** The `EyeDirection` attribute. */
  datatype Gaze = Gaze(yaw: Option<real>, confidence: Option<real>)

  /** A boolean attribute with its confidence (`EyesOpen`, `MouthOpen`, `FaceOccluded`, `Smile`). */
  datatype Flag = Flag(value: Option<bool>, confidence: Option<real>)

  /** The `Pose` attribute (only the yaw is used). */
  datatype Pose = Pose(yaw: Option<real>)

  datatype RawFace = RawFace(
    emotions: Option<seq<Emotion>>,
    eyeDirection: Option<Gaze>,
    eyesOpen: Option<Flag>,
    mouthOpen: Option<Flag>,
    faceOccluded: Option<Flag>,
    smile: Option<Flag>,
    pose: Option<Pose>,
    boundingBox: Option<Box>)

  function Confidence(e: Emotion): real { e.confidence }

  /** The attribute's value; absent when the attribute or its value is missing. */
  function FlagValue(f: Option<Flag>): (v: Option<bool>)
    ensures f.None? ==> v.None?
    ensures f.Some? ==> v == f.value.value
  {
    if f.Some? then f.value.value else None
  }

  /** The attribute's confidence; 0 when the attribute or its confidence is missing. */
  function FlagConfidence(f: Option<Flag>): (c: real)
    ensures f.None? ==> c == 0.0
    ensures f.Some? && f.value.confidence.None? ==> c == 0.0
    ensures f.Some? && f.value.confidence.Some? ==> c == f.value.confidence.value
  {
    if f.Some? then f.value.confidence.GetOr(0.0) else 0.0
  }

  /** The head-pose yaw in degrees; 0 when the pose or its yaw is missing. */
  function PoseYaw(p: Option<Pose>): (yaw: real)
    ensures p.None? || p.value.yaw.None? ==> yaw == 0.0
    ensures p.Some? && p.value.yaw.Some? ==> yaw == p.value.yaw.value
  {
    if p.Some? then p.value.yaw.GetOr(0.0) else 0.0
  }

  /** Width times height of the box; 0 when there is no box. */
  function BoxArea(b: Option<Box>): (area: real)
    ensures b.None? ==> area == 0.0
  {
    if b.Some? then b.value.width * b.value.height else 0.0
  }
}
