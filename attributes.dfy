/** The parts of face normalisation that all three analysers share: choosing
    the top emotion and turning the gaze attribute into a direction. */
module Attributes {
  import opened Wrappers
  import opened Detector
  import opened Seqs

  datatype Direction = Left | Right | Center | Unknown

  /** Gaze directions are trusted only above this confidence. */
  const GazeConfidenceFloor: real := 50.0
  /** Gaze yaw (degrees) beyond which the eyes look left or right. */
  const GazeYawLimit: real := 15.0

  /** Left of -15 degrees, right of +15 degrees, centre in between (both limits
      included). A missing yaw compares false both ways and gives centre. */
  function ClassifyYaw(yaw: Option<real>): (d: Direction)
    ensures d != Unknown
    ensures d == Left <==> yaw.Some? && yaw.value < -GazeYawLimit
    ensures d == Right <==> yaw.Some? && yaw.value > GazeYawLimit
    ensures d == Center <==> yaw.None? || -GazeYawLimit <= yaw.value <= GazeYawLimit
  {
    if yaw.Some? && yaw.value < -GazeYawLimit then Left
    else if yaw.Some? && yaw.value > GazeYawLimit then Right
    else Center
  }

  /** The gaze is used only when present with a confidence strictly above 50. */
  predicate GazeTrusted(g: Option<Gaze>)
  {
    g.Some? && g.value.confidence.Some? && g.value.confidence.value > GazeConfidenceFloor
  }

  /** The eye direction of a face: `Unknown` unless the gaze is trusted. */
  function EyeDirection(g: Option<Gaze>): (d: Direction)
    ensures d == Unknown <==> !GazeTrusted(g)
    ensures GazeTrusted(g) ==> d == ClassifyYaw(g.value.yaw)
  {
    if GazeTrusted(g) then ClassifyYaw(g.value.yaw) else Unknown
  }

  /** The gaze confidence, 0 when it is missing. */
  function GazeConfidence(g: Option<Gaze>): (c: real)
    ensures g.None? || g.value.confidence.None? ==> c == 0.0
    ensures g.Some? && g.value.confidence.Some? ==> c == g.value.confidence.value
  {
    if g.Some? then g.value.confidence.GetOr(0.0) else 0.0
  }

  /** The emotion reduction: walking the list from the start, an entry
      replaces the accumulator only when its confidence is strictly greater. */
  function ReduceTop(acc: Emotion, es: seq<Emotion>): Emotion
    decreases |es|
  {
    if es == [] then acc
    else ReduceTop(if es[0].confidence > acc.confidence then es[0] else acc, es[1..])
  }

  /** The reduction keeps the accumulator when nothing beats it, and otherwise
      returns the first entry of maximal confidence, which beats the
      accumulator. */
  lemma {:induction false} ReduceTopIsFirstMax(acc: Emotion, es: seq<Emotion>)
    ensures var r := ReduceTop(acc, es);
      || (r == acc && forall j :: 0 <= j < |es| ==> es[j].confidence <= acc.confidence)
      || (exists k :: IsFirstMax(es, Confidence, k) && r == es[k] && acc.confidence < es[k].confidence)
    decreases |es|
  {
    if es != [] {
      var next := if es[0].confidence > acc.confidence then es[0] else acc;
      var tail := es[1..];
      ReduceTopIsFirstMax(next, tail);
      var r := ReduceTop(next, tail);
      assert es == [es[0]] + tail;
      if r == next && forall j :: 0 <= j < |tail| ==> tail[j].confidence <= next.confidence {
        if es[0].confidence > acc.confidence {
          assert forall j :: 1 <= j < |es| ==> es[j] == tail[j - 1];
          assert IsFirstMax(es, Confidence, 0);
        }
      } else {
        var k :| IsFirstMax(tail, Confidence, k) && r == tail[k] && next.confidence < tail[k].confidence;
        FirstMaxShift(es[0], tail, Confidence, k);
      }
    }
  }

  /** The top emotion of a face: the reduction started from the first entry.
      An empty list has none; otherwise it is the first entry of maximal
      confidence. */
  function TopEmotion(es: seq<Emotion>): (r: Option<Emotion>)
    ensures r.None? <==> es == []
    ensures r.Some? ==> exists k :: IsFirstMax(es, Confidence, k) && r.value == es[k]
  {
    if es == [] then None
    else
      ReduceTopIsFirstMax(es[0], es);
      var r := ReduceTop(es[0], es);
      assert r == es[0] ==> forall j :: 0 <= j < |es| ==> es[j].confidence <= es[0].confidence ==> IsFirstMax(es, Confidence, 0);
      Some(r)
  }

  /** The emotion label: the top entry's label, or "Unknown" when there is no
      top entry or its label is empty. */
  function EmotionLabel(top: Option<Emotion>): string
  {
    if top.Some? && top.value.kind != "" then top.value.kind else "Unknown"
  }

  /** The top entry's confidence, 0 when there is none. */
  function EmotionConfidence(top: Option<Emotion>): real
  {
    if top.Some? then top.value.confidence else 0.0
  }
}
