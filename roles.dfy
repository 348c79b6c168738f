/** Role separation: in every frame the face with the largest bounding box is
    the speaker and the others are the audience. The faces are ordered by a
    stable sort on decreasing area, written here as an insertion sort on a
    generic key; a stable sort has exactly one possible result, so the model
    fixes the outcome whatever sorting algorithm runs. The same sort, keyed
    by confidence, picks the top emotion of a face in the reflection
    analyser. Generic over the element type so that every analyser shares
    it. */
module Roles {
  import opened Wrappers
  import opened Seqs

  datatype Role = Speaker | Audience

  datatype Separation<T> = Separation(speaker: Option<T>, audience: seq<T>)

  /** Places `x` in front of the first element of `s` whose key is not larger. */
  function Insert<T>(x: T, s: seq<T>, key: T -> real): seq<T>
    decreases |s|
  {
    if s == [] || key(s[0]) <= key(x) then [x] + s
    else [s[0]] + Insert(x, s[1..], key)
  }

  /** Stable sort by decreasing key. */
  function SortDescending<T>(xs: seq<T>, key: T -> real): seq<T>
    decreases |xs|
  {
    if xs == [] then [] else Insert(xs[0], SortDescending(xs[1..], key), key)
  }

  ghost predicate NonIncreasing<T>(s: seq<T>, key: T -> real)
  {
    forall i, j :: 0 <= i < j < |s| ==> key(s[i]) >= key(s[j])
  }

  /** The elements of `s` whose key is exactly `a`, in their order in `s`.
      A sort is stable when it leaves every such subsequence unchanged. */
  function WithKey<T>(s: seq<T>, key: T -> real, a: real): seq<T>
    decreases |s|
  {
    if s == [] then [] else (if key(s[0]) == a then [s[0]] else []) + WithKey(s[1..], key, a)
  }

  lemma WithKeyCons<T>(x: T, s: seq<T>, key: T -> real, a: real)
    ensures WithKey([x] + s, key, a) == (if key(x) == a then [x] else []) + WithKey(s, key, a)
  {
    assert ([x] + s)[0] == x;
    assert ([x] + s)[1..] == s;
  }

  lemma {:induction false} InsertPermutes<T>(x: T, s: seq<T>, key: T -> real)
    ensures multiset(Insert(x, s, key)) == multiset(s) + multiset{x}
    decreases |s|
  {
    if !(s == [] || key(s[0]) <= key(x)) {
      assert s == [s[0]] + s[1..];
      InsertPermutes(x, s[1..], key);
    }
  }

  lemma {:induction false} InsertStable<T>(x: T, s: seq<T>, key: T -> real, a: real)
    ensures WithKey(Insert(x, s, key), key, a) == WithKey([x] + s, key, a)
    decreases |s|
  {
    if !(s == [] || key(s[0]) <= key(x)) {
      var s0, rest := s[0], s[1..];
      assert s == [s0] + rest;
      InsertStable(x, rest, key, a);
      var ins := Insert(x, rest, key);
      WithKeyCons(s0, ins, key, a);
      WithKeyCons(x, rest, key, a);
      WithKeyCons(x, s, key, a);
      WithKeyCons(s0, rest, key, a);
    }
  }

  /** A sorted sequence stays sorted when an element no smaller than all of
      it is put in front. */
  lemma ConsSorted<T>(h: T, t: seq<T>, key: T -> real)
    requires NonIncreasing(t, key)
    requires forall k :: 0 <= k < |t| ==> key(t[k]) <= key(h)
    ensures NonIncreasing([h] + t, key)
  {
    forall i, j | 0 <= i < j < |[h] + t|
      ensures key(([h] + t)[i]) >= key(([h] + t)[j])
    {
      assert ([h] + t)[j] == t[j - 1];
      if i > 0 {
        assert ([h] + t)[i] == t[i - 1];
      }
    }
  }

  lemma {:induction false} InsertSorted<T>(x: T, s: seq<T>, key: T -> real)
    requires NonIncreasing(s, key)
    ensures NonIncreasing(Insert(x, s, key), key)
    decreases |s|
  {
    if s == [] || key(s[0]) <= key(x) {
      ConsSorted(x, s, key);
    } else {
      var s0, rest := s[0], s[1..];
      assert NonIncreasing(rest, key);
      InsertSorted(x, rest, key);
      InsertPermutes(x, rest, key);
      var ins := Insert(x, rest, key);
      forall k | 0 <= k < |ins|
        ensures key(ins[k]) <= key(s0)
      {
        assert ins[k] in multiset(ins);
        if ins[k] != x {
          assert ins[k] in multiset(rest);
          var j :| 0 <= j < |rest| && rest[j] == ins[k];
          assert s[j + 1] == ins[k];
        }
      }
      ConsSorted(s0, ins, key);
    }
  }

  /** The sort puts the faces in non-increasing key order, loses and adds no
      face, and keeps faces of equal key in their detection order. */
  lemma {:induction false} SortFacts<T>(xs: seq<T>, key: T -> real)
    ensures NonIncreasing(SortDescending(xs, key), key)
    ensures multiset(SortDescending(xs, key)) == multiset(xs)
    ensures forall a :: WithKey(SortDescending(xs, key), key, a) == WithKey(xs, key, a)
    decreases |xs|
  {
    if xs != [] {
      var x, rest := xs[0], xs[1..];
      assert xs == [x] + rest;
      SortFacts(rest, key);
      InsertSorted(x, SortDescending(rest, key), key);
      InsertPermutes(x, SortDescending(rest, key), key);
      forall a
        ensures WithKey(SortDescending(xs, key), key, a) == WithKey(xs, key, a)
      {
        InsertStable(x, SortDescending(rest, key), key, a);
        WithKeyCons(x, SortDescending(rest, key), key, a);
        WithKeyCons(x, rest, key, a);
      }
    }
  }

  lemma {:induction false} InsertLength<T>(x: T, s: seq<T>, key: T -> real)
    ensures |Insert(x, s, key)| == |s| + 1
    decreases |s|
  {
    if s != [] && key(s[0]) > key(x) {
      InsertLength(x, s[1..], key);
    }
  }

  lemma {:induction false} SortLength<T>(xs: seq<T>, key: T -> real)
    ensures |SortDescending(xs, key)| == |xs|
    decreases |xs|
  {
    if xs != [] {
      SortLength(xs[1..], key);
      InsertLength(xs[0], SortDescending(xs[1..], key), key);
    }
  }

  /** The first face of the sorted order is the earliest-detected face of
      maximal key. */
  lemma {:induction false} SortHeadIsFirstMax<T>(xs: seq<T>, key: T -> real)
    requires xs != []
    ensures |SortDescending(xs, key)| == |xs|
    ensures exists k :: IsFirstMax(xs, key, k) && SortDescending(xs, key)[0] == xs[k]
    decreases |xs|
  {
    SortLength(xs, key);
    var x, rest := xs[0], xs[1..];
    assert xs == [x] + rest;
    if rest == [] {
      assert IsFirstMax(xs, key, 0);
    } else {
      SortHeadIsFirstMax(rest, key);
      var sorted := SortDescending(rest, key);
      var k :| IsFirstMax(rest, key, k) && sorted[0] == rest[k];
      if key(sorted[0]) <= key(x) {
        assert forall j :: 1 <= j < |xs| ==> xs[j] == rest[j - 1];
        assert IsFirstMax(xs, key, 0);
      } else {
        FirstMaxShift(x, rest, key, k);
      }
    }
  }

  /** Splits one frame's faces into the speaker and the audience: no speaker
      and no audience for an empty frame; otherwise the speaker is the
      earliest-detected face of largest area, speaker and audience together
      are the frame's faces, and the audience is in non-increasing area
      order. */
  function SeparateSpeaker<T>(faces: seq<T>, area: T -> real): (r: Separation<T>)
    ensures r.speaker.None? <==> faces == []
    ensures r.speaker.None? ==> r.audience == []
    ensures r.speaker.Some? ==> exists k :: IsFirstMax(faces, area, k) && r.speaker.value == faces[k]
    ensures r.speaker.Some? ==> multiset([r.speaker.value] + r.audience) == multiset(faces)
    ensures r.speaker.Some? ==> forall f :: f in r.audience ==> area(f) <= area(r.speaker.value)
    ensures NonIncreasing(r.audience, area)
  {
    if faces == [] then Separation(None, [])
    else
      var sorted := SortDescending(faces, area);
      SortFacts(faces, area);
      SortHeadIsFirstMax(faces, area);
      assert sorted == [sorted[0]] + sorted[1..];
      assert forall f :: f in sorted[1..] ==> area(f) <= area(sorted[0]);
      Separation(Some(sorted[0]), sorted[1..])
  }

  /** The separation is stable: speaker and audience list the faces of each
      area in their detection order. */
  lemma SeparateSpeakerStable<T>(faces: seq<T>, area: T -> real, a: real)
    requires faces != []
    ensures
      var r := SeparateSpeaker(faces, area);
      WithKey([r.speaker.value] + r.audience, area, a) == WithKey(faces, area, a)
  {
    var sorted := SortDescending(faces, area);
    SortFacts(faces, area);
    SortLength(faces, area);
    assert sorted == [sorted[0]] + sorted[1..];
  }
}
