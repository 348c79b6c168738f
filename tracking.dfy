/** Identity tracking by box-centre geometry. Each tracked identity
    `person_<n>` is represented by `n`; the identities are kept in creation
    order, which is the order in which the source iterates over them. */
module Tracking {
  import opened Wrappers
  import opened Detector

  /** Largest centre distance (normalised units) at which a face keeps an identity. */
  const CenterDistanceThreshold: real := 0.15
  /** Identities last seen more than this many frames ago are not matched. */
  const StaleFrames: int := 300
  /** The first identity number handed out. */
  const FirstPersonId: nat := 1

  /** One tracked identity: its number, the centre of its box when last seen,
      and the frame it was last seen in. */
  datatype Entry = Entry(n: nat, cx: real, cy: real, lastSeen: int)

  datatype TrackerState = TrackerState(entries: seq<Entry>, nextPersonId: nat)

  /** A face to be identified: its bounding box and the frame it was seen in. */
  datatype Sighting = Sighting(box: Option<Box>, frame: nat)

  datatype Point = Point(x: real, y: real)

  /** Centre of the bounding box; the middle of the image when there is no box. */
  function Centre(box: Option<Box>): (c: Point)
    ensures box.None? ==> c == Point(0.5, 0.5)
    ensures box.Some? ==>
      && c.x - box.value.left == (box.value.left + box.value.width) - c.x
      && c.y - box.value.top == (box.value.top + box.value.height) - c.y
  {
    if box.Some? then Point(box.value.left + box.value.width / 2.0, box.value.top + box.value.height / 2.0)
    else Point(0.5, 0.5)
  }

  /** An identity still eligible for matching in `frame`. */
  predicate Live(e: Entry, frame: int)
  {
    frame - e.lastSeen <= StaleFrames
  }

  /** Squared Euclidean distance from the identity's centre to `c`. Comparing
      squared distances orders them as the distances themselves, since both
      are non-negative. */
  function Dist2(e: Entry, c: Point): real
  {
    (e.cx - c.x) * (e.cx - c.x) + (e.cy - c.y) * (e.cy - c.y)
  }

  /** The tracker's invariant: identity numbers in creation order strictly
      increase and are all below the next number to hand out. */
  ghost predicate ValidState(st: TrackerState)
  {
    && st.nextPersonId >= FirstPersonId
    && (forall i :: 0 <= i < |st.entries| ==> st.entries[i].n < st.nextPersonId)
    && (forall i, j :: 0 <= i < j < |st.entries| ==> st.entries[i].n < st.entries[j].n)
  }

  /** The scan over identities in creation order: a live identity replaces the
      best so far only when it is strictly nearer. */
  function Best(es: seq<Entry>, c: Point, frame: int): (r: Option<nat>)
    ensures r.Some? ==> r.value < |es| && Live(es[r.value], frame)
  {
    if es == [] then None
    else
      var b := Best(es[..|es| - 1], c, frame);
      var k := |es| - 1;
      if !Live(es[k], frame) then b
      else if b.None? || Dist2(es[k], c) < Dist2(es[b.value], c) then Some(k)
      else b
  }

  /** The scan finds nothing exactly when no identity is live; otherwise it
      finds a live identity at minimal distance among the live ones, and the
      earliest-created one when several are at that distance. */
  lemma {:induction false} BestIsFirstNearest(es: seq<Entry>, c: Point, frame: int)
    ensures Best(es, c, frame).None? <==> forall j :: 0 <= j < |es| ==> !Live(es[j], frame)
    ensures Best(es, c, frame).Some? ==>
      var k := Best(es, c, frame).value;
      && (forall j :: 0 <= j < |es| && Live(es[j], frame) ==> Dist2(es[k], c) <= Dist2(es[j], c))
      && (forall j :: 0 <= j < k && Live(es[j], frame) ==> Dist2(es[k], c) < Dist2(es[j], c))
    decreases |es|
  {
    if es != [] {
      var init := es[..|es| - 1];
      BestIsFirstNearest(init, c, frame);
      assert forall j :: 0 <= j < |init| ==> init[j] == es[j];
    }
  }

  /** The identity a face at `c` in `frame` is matched to, if any: the scan's
      result when it lies strictly within the distance threshold. */
  function Match(es: seq<Entry>, c: Point, frame: int): Option<nat>
  {
    var b := Best(es, c, frame);
    if b.Some? && Dist2(es[b.value], c) < CenterDistanceThreshold * CenterDistanceThreshold then b
    else None
  }

  /** Some live identity lies strictly within the threshold of `c`. */
  ghost predicate InReach(es: seq<Entry>, c: Point, frame: int)
  {
    exists j :: 0 <= j < |es| && Live(es[j], frame) && Dist2(es[j], c) < CenterDistanceThreshold * CenterDistanceThreshold
  }

  /** A match exists exactly when some live identity is in reach; the match is
      then live, in reach, nearest among the live identities, and the
      earliest-created one on an exact distance tie. */
  lemma MatchIsNearestInReach(es: seq<Entry>, c: Point, frame: int)
    ensures Match(es, c, frame).Some? <==> InReach(es, c, frame)
    ensures Match(es, c, frame).Some? ==>
      var k := Match(es, c, frame).value;
      && k < |es| && Live(es[k], frame)
      && Dist2(es[k], c) < CenterDistanceThreshold * CenterDistanceThreshold
      && (forall j :: 0 <= j < |es| && Live(es[j], frame) ==> Dist2(es[k], c) <= Dist2(es[j], c))
      && (forall j :: 0 <= j < k && Live(es[j], frame) ==> Dist2(es[k], c) < Dist2(es[j], c))
  {
    BestIsFirstNearest(es, c, frame);
  }

  /** One call of the tracker on the pure state: reuse the matched identity,
      moving it to the new centre and frame, or register a new one. */
  function TrackStep(st: TrackerState, s: Sighting): (nat, TrackerState)
  {
    var c := Centre(s.box);
    var m := Match(st.entries, c, s.frame);
    if m.Some? then
      var id := st.entries[m.value].n;
      (id, TrackerState(st.entries[m.value := Entry(id, c.x, c.y, s.frame)], st.nextPersonId))
    else
      var id := st.nextPersonId;
      (id, TrackerState(st.entries + [Entry(id, c.x, c.y, s.frame)], st.nextPersonId + 1))
  }

  /** A tracker call keeps the invariant. */
  lemma TrackStepValid(st: TrackerState, s: Sighting)
    requires ValidState(st)
    ensures ValidState(TrackStep(st, s).1)
  {
  }

  /** When some live identity is in reach, the call returns the nearest one
      (earliest-created on a tie), gives it the face's centre and frame, and
      leaves every other identity and the counter unchanged. */
  lemma TrackStepReuses(st: TrackerState, s: Sighting)
    requires InReach(st.entries, Centre(s.box), s.frame)
    ensures
      var (id, st') := TrackStep(st, s);
      var c := Centre(s.box);
      exists k ::
        && 0 <= k < |st.entries|
        && id == st.entries[k].n
        && Live(st.entries[k], s.frame)
        && (forall j :: 0 <= j < |st.entries| && Live(st.entries[j], s.frame) ==> Dist2(st.entries[k], c) <= Dist2(st.entries[j], c))
        && (forall j :: 0 <= j < k && Live(st.entries[j], s.frame) ==> Dist2(st.entries[k], c) < Dist2(st.entries[j], c))
        && st'.entries == st.entries[k := Entry(id, c.x, c.y, s.frame)]
        && st'.nextPersonId == st.nextPersonId
  {
    MatchIsNearestInReach(st.entries, Centre(s.box), s.frame);
  }

  /** When no live identity is in reach, the call returns the next number,
      which no identity (live or stale) has ever had and which exceeds them
      all, registers it at the face's centre after the existing identities,
      and advances the counter. */
  lemma TrackStepAllocates(st: TrackerState, s: Sighting)
    requires ValidState(st)
    requires !InReach(st.entries, Centre(s.box), s.frame)
    ensures
      var (id, st') := TrackStep(st, s);
      var c := Centre(s.box);
      && id == st.nextPersonId
      && (forall j :: 0 <= j < |st.entries| ==> st.entries[j].n < id)
      && st'.entries == st.entries + [Entry(id, c.x, c.y, s.frame)]
      && st'.nextPersonId == id + 1
  {
    MatchIsNearestInReach(st.entries, Centre(s.box), s.frame);
  }

  /** The tracker applied to a sequence of sightings, in order. */
  function TrackAll(st: TrackerState, ss: seq<Sighting>): (r: (seq<nat>, TrackerState))
    ensures |r.0| == |ss|
  {
    if ss == [] then ([], st)
    else
      var prev := TrackAll(st, ss[..|ss| - 1]);
      var step := TrackStep(prev.1, ss[|ss| - 1]);
      (prev.0 + [step.0], step.1)
  }

  /** Tracking one more sighting extends the run by one tracker call. */
  lemma TrackAllAppend(st: TrackerState, ss: seq<Sighting>, s: Sighting)
    ensures
      var prev := TrackAll(st, ss);
      TrackAll(st, ss + [s]) == (prev.0 + [TrackStep(prev.1, s).0], TrackStep(prev.1, s).1)
  {
    assert (ss + [s])[..|ss|] == ss;
  }

  /** Over any sequence of sightings the invariant holds, the counter never
      goes down, and every returned identity is below the counter and still
      has its entry (entries are never removed). */
  lemma {:induction false} TrackAllFacts(st: TrackerState, ss: seq<Sighting>)
    requires ValidState(st)
    ensures ValidState(TrackAll(st, ss).1)
    ensures TrackAll(st, ss).1.nextPersonId >= st.nextPersonId
    ensures |TrackAll(st, ss).1.entries| >= |st.entries|
    ensures forall k :: 0 <= k < |ss| ==> TrackAll(st, ss).0[k] < TrackAll(st, ss).1.nextPersonId
    ensures forall k :: 0 <= k < |ss| ==>
      exists j :: 0 <= j < |TrackAll(st, ss).1.entries| && TrackAll(st, ss).1.entries[j].n == TrackAll(st, ss).0[k]
    decreases |ss|
  {
    if ss != [] {
      var init := ss[..|ss| - 1];
      TrackAllFacts(st, init);
      var (ids, mid) := TrackAll(st, init);
      var (id, fin) := TrackStep(mid, ss[|ss| - 1]);
      TrackStepValid(mid, ss[|ss| - 1]);
      var c := Centre(ss[|ss| - 1].box);
      var m := Match(mid.entries, c, ss[|ss| - 1].frame);
      // Entries keep their numbers, in place.
      assert |fin.entries| >= |mid.entries|;
      assert forall j :: 0 <= j < |mid.entries| ==> fin.entries[j].n == mid.entries[j].n;
      forall k | 0 <= k < |ss|
        ensures exists j :: 0 <= j < |fin.entries| && fin.entries[j].n == TrackAll(st, ss).0[k]
      {
        if k < |init| {
          var j :| 0 <= j < |mid.entries| && mid.entries[j].n == ids[k];
          assert fin.entries[j].n == ids[k];
        } else if m.Some? {
          assert fin.entries[m.value].n == id;
        } else {
          assert fin.entries[|fin.entries| - 1].n == id;
        }
      }
    }
  }

  /** The mutable tracker: the identities in creation order and the counter
      for new identity numbers. */
  class Tracker {
    var entries: seq<Entry>
    var nextPersonId: nat

    ghost predicate Valid()
      reads this
    {
      ValidState(State())
    }

    function State(): TrackerState
      reads this
    {
      TrackerState(entries, nextPersonId)
    }

    /** A tracker with no identities whose first number is 1. */
    constructor ()
      ensures Valid()
      ensures entries == [] && nextPersonId == FirstPersonId
    {
      entries := [];
      nextPersonId := FirstPersonId;
    }

    /** The scan over the identities in creation order: the live identity
        nearest to `c`, the earliest-created one on a tie, with its squared
        distance. */
    method Nearest(c: Point, frameIndex: nat) returns (best: Option<nat>, bestDist: real)
      ensures best == Best(entries, c, frameIndex)
      ensures best.Some? ==> bestDist == Dist2(entries[best.value], c)
    {
      best, bestDist := None, 0.0;
      var i := 0;
      while i < |entries|
        invariant 0 <= i <= |entries|
        invariant best == Best(entries[..i], c, frameIndex)
        invariant best.Some? ==> bestDist == Dist2(entries[best.value], c)
      {
        var e := entries[i];
        assert entries[..i + 1][..i] == entries[..i];
        assert entries[..i + 1][i] == e;
        assert best.Some? ==> entries[..i + 1][best.value] == entries[best.value];
        assert Best(entries[..i + 1], c, frameIndex) ==
          if !Live(e, frameIndex) then best
          else if best.None? || Dist2(e, c) < Dist2(entries[best.value], c) then Some(i)
          else best;
        if frameIndex - e.lastSeen <= StaleFrames {
          var dist := (e.cx - c.x) * (e.cx - c.x) + (e.cy - c.y) * (e.cy - c.y);
          if best.None? || dist < bestDist {
            best, bestDist := Some(i), dist;
          }
        }
        i := i + 1;
      }
      assert entries[..i] == entries;
    }

    /** Identifies the face with bounding box `box` seen in `frameIndex`. */
    method Assign(box: Option<Box>, frameIndex: nat) returns (id: nat)
      requires Valid()
      modifies this
      ensures Valid()
      ensures (id, State()) == TrackStep(old(State()), Sighting(box, frameIndex))
    {
      TrackStepValid(State(), Sighting(box, frameIndex));
      var c := Centre(box);
      var best, bestDist := Nearest(c, frameIndex);
      if best.Some? && bestDist < CenterDistanceThreshold * CenterDistanceThreshold {
        id := entries[best.value].n;
        entries := entries[best.value := Entry(id, c.x, c.y, frameIndex)];
      } else {
        id := nextPersonId;
        entries := entries + [Entry(id, c.x, c.y, frameIndex)];
        nextPersonId := nextPersonId + 1;
      }
    }
  }
}
