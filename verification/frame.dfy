/** The per-frame record: pose confidence from the world landmarks' mean
    visibility, face presence, hand count and dominant hand, and the three
    classifier outputs. */
module Frame {
  import opened Landmarks
  import opened Holistic
  import Expression
  import Posture
  import EyeContact
  import Stats

  datatype Hand = Left | Right | NoHand

  /** The string the source stores for a hand. */
  function HandName(h: Hand): string
  {
    match h
    case Left => "left"
    case Right => "right"
    case NoHand => "none"
  }

  datatype FrameRecord = FrameRecord(
    timestamp: int,
    poseConfidence: real,
    faceDetected: bool,
    handsDetected: nat,
    dominantHand: Hand,
    expression: string,
    expressionConfidence: real,
    emotions: Expression.Emotions,
    posture: string,
    postureConfidence: real,
    eyeContact: string,
    eyeContactConfidence: real)

  // ---------------------------------------------------------------------
  // Visibility

  /** `l.reduce((acc, p) => acc + (p.visibility || 0), 0)`. JavaScript's
      `reduce` skips the holes of a sparse array, so only present entries
      contribute. */
  function VisibilitySum(l: LandmarkList): real
  {
    if |l| == 0 then 0.0
    else VisibilitySum(l[..|l| - 1]) + (if l[|l| - 1].Some? then VisibilityOrZero(l[|l| - 1].value) else 0.0)
  }

  /** `m` times the array length (holes included) is the visibility sum. */
  predicate IsMeanVisibility(m: real, l: LandmarkList)
  {
    |l| > 0 && m * (|l| as real) == VisibilitySum(l)
  }

  /** The visibility sum divided by the array length (holes included). */
  function MeanVisibility(l: LandmarkList): (m: real)
    requires |l| > 0
    ensures IsMeanVisibility(m, l)
  {
    VisibilitySum(l) / (|l| as real)
  }

  /** Every present landmark has a visibility in [0,1] or none at all. */
  predicate VisibilitiesInUnit(l: LandmarkList)
  {
    forall i :: 0 <= i < |l| && l[i].Some? ==> 0.0 <= VisibilityOrZero(l[i].value) <= 1.0
  }

  lemma {:induction false} VisibilitySumBounds(l: LandmarkList)
    requires VisibilitiesInUnit(l)
    ensures 0.0 <= VisibilitySum(l) <= |l| as real
  {
    if |l| > 0 {
      VisibilitySumBounds(l[..|l| - 1]);
    }
  }

  /** The mean visibility of a list whose visibilities lie in [0,1] lies in
      [0,1]. */
  lemma MeanVisibilityInUnit(l: LandmarkList)
    requires |l| > 0
    ensures VisibilitiesInUnit(l) ==> 0.0 <= MeanVisibility(l) <= 1.0
  {
    if VisibilitiesInUnit(l) {
      VisibilitySumBounds(l);
      var n := |l| as real;
      var m := MeanVisibility(l);
      assert m * n == VisibilitySum(l);
      assert (1.0 - m) * n == n - VisibilitySum(l);
      Stats.NonNegativeFactor(m, n);
      Stats.NonNegativeFactor(1.0 - m, n);
    }
  }

  // ---------------------------------------------------------------------
  // Frame fields

  /** Defined unless the world landmark list exists but is empty (the
      source then divides zero by zero). */
  predicate PoseConfidenceDefined(r: HolisticResults)
  {
    WorldPose(r).None? || |WorldPose(r).value| > 0
  }

  /** Mean visibility of the world landmarks, or 0 without them. */
  function PoseConfidence(r: HolisticResults): (c: real)
    requires PoseConfidenceDefined(r)
    ensures WorldPose(r).None? ==> c == 0.0
    ensures WorldPose(r).Some? ==> IsMeanVisibility(c, WorldPose(r).value)
    ensures WorldPose(r).Some? && VisibilitiesInUnit(WorldPose(r).value) ==> 0.0 <= c <= 1.0
  {
    if WorldPose(r).Some? then
      var l := WorldPose(r).value;
      MeanVisibilityInUnit(l);
      MeanVisibility(l)
    else 0.0
  }

  /** The number of non-empty hand lists. */
  function HandsDetected(r: HolisticResults): (n: nat)
    ensures n <= 2
    ensures n == 0 <==> !NonEmpty(r.leftHandLandmarks) && !NonEmpty(r.rightHandLandmarks)
    ensures n == 2 <==> NonEmpty(r.leftHandLandmarks) && NonEmpty(r.rightHandLandmarks)
  {
    (if NonEmpty(r.leftHandLandmarks) then 1 else 0) + (if NonEmpty(r.rightHandLandmarks) then 1 else 0)
  }

  /** The sole detected hand; with both, the left one only when its mean
      visibility is strictly higher, so a tie goes to the right. */
  function DominantHand(r: HolisticResults): (h: Hand)
    ensures h == NoHand <==> HandsDetected(r) == 0
    ensures NonEmpty(r.leftHandLandmarks) && !NonEmpty(r.rightHandLandmarks) ==> h == Left
    ensures !NonEmpty(r.leftHandLandmarks) && NonEmpty(r.rightHandLandmarks) ==> h == Right
    ensures NonEmpty(r.leftHandLandmarks) && NonEmpty(r.rightHandLandmarks) ==>
      (h == Left <==> MeanVisibility(r.leftHandLandmarks.value) > MeanVisibility(r.rightHandLandmarks.value))
      && h != NoHand
  {
    var left := NonEmpty(r.leftHandLandmarks);
    var right := NonEmpty(r.rightHandLandmarks);
    if left && right then
      if MeanVisibility(r.leftHandLandmarks.value) > MeanVisibility(r.rightHandLandmarks.value) then Left else Right
    else if left then Left
    else if right then Right
    else NoHand
  }

  /** The source computes a record without throwing. */
  predicate FrameDefined(r: HolisticResults)
  {
    && PoseConfidenceDefined(r)
    && Expression.ExpressionDefined(r.faceLandmarks)
    && EyeContact.EyeContactDefined(r.faceLandmarks)
  }

  /** The record one frame contributes, stamped with the clock reading
      `stamp`. */
  function Record(r: HolisticResults, stamp: int): (rec: FrameRecord)
    requires FrameDefined(r)
    ensures rec.timestamp == stamp
    ensures rec.faceDetected <==> NonEmpty(r.faceLandmarks)
    ensures rec.handsDetected <= 2
    ensures rec.dominantHand == NoHand <==> rec.handsDetected == 0
    ensures Expression.IsDistribution(rec.emotions)
    ensures 0.0 <= rec.expressionConfidence <= 1.0
    ensures 0.0 <= rec.postureConfidence <= 0.9
    ensures 0.0 <= rec.eyeContactConfidence <= 0.95
    ensures rec.poseConfidence == PoseConfidence(r)
    ensures rec.handsDetected == HandsDetected(r) && rec.dominantHand == DominantHand(r)
    ensures var ex := Expression.DetectExpression(r.faceLandmarks);
            rec.expression == ex.expression && rec.expressionConfidence == ex.confidence
            && rec.emotions == ex.emotions
    ensures var po := Posture.DetectPosture(r);
            rec.posture == po.posture && rec.postureConfidence == po.confidence
    ensures var ey := EyeContact.DetectEyeContact(r.faceLandmarks);
            rec.eyeContact == ey.eyeContact && rec.eyeContactConfidence == ey.confidence
  {
    var ex := Expression.DetectExpression(r.faceLandmarks);
    var po := Posture.DetectPosture(r);
    var ey := EyeContact.DetectEyeContact(r.faceLandmarks);
    FrameRecord(stamp, PoseConfidence(r), NonEmpty(r.faceLandmarks), HandsDetected(r), DominantHand(r),
                ex.expression, ex.confidence, ex.emotions, po.posture, po.confidence,
                ey.eyeContact, ey.confidence)
  }

  /** The fields a well-formed record keeps within range. */
  predicate ValidRecord(rec: FrameRecord)
  {
    && 0.0 <= rec.poseConfidence <= 1.0
    && rec.handsDetected <= 2
    && 0.0 <= rec.expressionConfidence <= 1.0
    && Expression.IsDistribution(rec.emotions)
    && 0.0 <= rec.postureConfidence <= 1.0
    && 0.0 <= rec.eyeContactConfidence <= 1.0
  }

  /** With visibilities in [0,1], every record the classifiers produce is in
      range. */
  lemma RecordValid(r: HolisticResults, stamp: int)
    requires FrameDefined(r)
    requires WorldPose(r).Some? ==> VisibilitiesInUnit(WorldPose(r).value)
    ensures ValidRecord(Record(r, stamp))
  {
  }

  /** The face flag and the face-based fields agree: with no face both
      classifiers report "not detected" with zero confidence and no
      weights; with a face the expression is one of the seven keys and its
      weights sum to one. */
  lemma RecordFaceConsistent(r: HolisticResults, stamp: int)
    requires FrameDefined(r)
    ensures var rec := Record(r, stamp);
            && (rec.faceDetected <==> rec.expression != Expression.NotDetectedLabel)
            && (!rec.faceDetected ==>
                  && rec.expressionConfidence == 0.0 && rec.emotions == Expression.ZeroEmotions
                  && rec.eyeContact == EyeContact.NotDetectedLabel && rec.eyeContactConfidence == 0.0)
            && (rec.faceDetected ==> rec.emotions.Total() == 1.0)
  {
    if NonEmpty(r.faceLandmarks) {
      Expression.FaceAlwaysLabelled(r.faceLandmarks);
    }
  }
}
