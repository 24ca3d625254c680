/** Landmark coordinates as delivered by the holistic tracker, and the small
    geometric helpers every classifier uses.

    A landmark list is a JavaScript array that may be shorter than the index
    being read, or may have holes; both read as `undefined` in the source and
    are modelled here as `None`. */
module Landmarks {

  datatype Option<+T> = None | Some(value: T)

  /** One tracked point: normalised image coordinates and an optional
      visibility score. The depth coordinate is never read by the core. */
  datatype Landmark = Landmark(x: real, y: real, visibility: Option<real>)

  /** A possibly sparse, index-addressed landmark array. */
  type LandmarkList = seq<Option<Landmark>>

  /** `landmarks[i]` in the source: absent past the end or at a hole. */
  function At(l: LandmarkList, i: nat): (r: Option<Landmark>)
    ensures r.Some? ==> i < |l| && l[i] == r
    ensures i < |l| ==> r == l[i]
  {
    if i < |l| then l[i] else None
  }

  /** True when every index in `idx` holds a landmark. */
  predicate AllPresent(l: LandmarkList, idx: seq<nat>)
  {
    forall k :: 0 <= k < |idx| ==> At(l, idx[k]).Some?
  }

  /** The point at index `i`, for an index known to be present. */
  function Pt(l: LandmarkList, i: nat): Landmark
    requires At(l, i).Some?
  {
    At(l, i).value
  }

  function Abs(x: real): (r: real)
    ensures r >= 0.0
    ensures r == x || r == -x
  {
    if x < 0.0 then -x else x
  }

  function Min(a: real, b: real): (r: real)
    ensures r <= a && r <= b
    ensures r == a || r == b
  {
    if a < b then a else b
  }

  function Max(a: real, b: real): (r: real)
    ensures r >= a && r >= b
    ensures r == a || r == b
  {
    if a > b then a else b
  }

  /** `landmark.visibility || 0`: a missing visibility reads as zero. */
  function VisibilityOrZero(p: Landmark): real
  {
    match p.visibility
    case Some(v) => v
    case None => 0.0
  }
}

/** One frame of tracker output: the pose (screen-space and world landmark
    lists), a legacy flat pose list, the face mesh and the two hands. Any
    part may be missing. */
module Holistic {
  import opened Landmarks

  datatype PoseResult = PoseResult(landmarks: Option<LandmarkList>, worldLandmarks: Option<LandmarkList>)

  datatype HolisticResults = HolisticResults(
    pose: Option<PoseResult>,
    poseLandmarks: Option<LandmarkList>,
    faceLandmarks: Option<LandmarkList>,
    leftHandLandmarks: Option<LandmarkList>,
    rightHandLandmarks: Option<LandmarkList>)

  /** `results.pose?.landmarks`. */
  function ScreenPose(r: HolisticResults): Option<LandmarkList>
  {
    if r.pose.Some? then r.pose.value.landmarks else None
  }

  /** `results.pose?.worldLandmarks`. */
  function WorldPose(r: HolisticResults): Option<LandmarkList>
  {
    if r.pose.Some? then r.pose.value.worldLandmarks else None
  }

  /** `pose?.landmarks || poseLandmarks || pose?.worldLandmarks`: the first
      list that exists. An empty array is truthy in JavaScript, so an empty
      first list is chosen even when a later one has points. */
  function PoseSource(r: HolisticResults): (l: Option<LandmarkList>)
    ensures ScreenPose(r).Some? ==> l == ScreenPose(r)
    ensures ScreenPose(r).None? && r.poseLandmarks.Some? ==> l == r.poseLandmarks
    ensures ScreenPose(r).None? && r.poseLandmarks.None? ==> l == WorldPose(r)
  {
    if ScreenPose(r).Some? then ScreenPose(r)
    else if r.poseLandmarks.Some? then r.poseLandmarks
    else WorldPose(r)
  }

  /** A list that exists and has at least one entry (`l && l.length > 0`). */
  predicate NonEmpty(l: Option<LandmarkList>)
  {
    l.Some? && |l.value| > 0
  }
}
