/** The single-file application's own frame processing: a simpler inline
    eye-contact check with its own threshold, and inline copies of the
    expression, posture, window and summary logic, related here to the
    shared classifiers and session. */
module App {
  import opened Landmarks
  import opened Holistic
  import Expression
  import Posture
  import EyeContact
  import opened Frame
  import Session

  // ---------------------------------------------------------------------
  // Inline eye contact

  const MaintainedConfidence: real := 0.9
  const NotMaintainedConfidence: real := 0.7

  /** The eight eye corners and lids the inline check requires. Unlike the
      shared classifier it does not ask for the nose tip here. */
  predicate EyeCornersPresent(l: LandmarkList)
  {
    && At(l, EyeContact.LeftEyeOuter).Some? && At(l, EyeContact.LeftEyeInner).Some?
    && At(l, EyeContact.RightEyeInner).Some? && At(l, EyeContact.RightEyeOuter).Some?
    && At(l, EyeContact.LeftEyeTop).Some? && At(l, EyeContact.LeftEyeBottom).Some?
    && At(l, EyeContact.RightEyeTop).Some? && At(l, EyeContact.RightEyeBottom).Some?
  }

  /** The mean eye aspect ratio, with the same +0.001 width guard. */
  function InlineAvgEar(l: LandmarkList): (r: real)
    requires EyeCornersPresent(l)
    ensures r >= 0.0
  {
    var left := EyeContact.Ear(Pt(l, EyeContact.LeftEyeTop), Pt(l, EyeContact.LeftEyeBottom),
                               Pt(l, EyeContact.LeftEyeInner), Pt(l, EyeContact.LeftEyeOuter));
    var right := EyeContact.Ear(Pt(l, EyeContact.RightEyeTop), Pt(l, EyeContact.RightEyeBottom),
                                Pt(l, EyeContact.RightEyeOuter), Pt(l, EyeContact.RightEyeInner));
    (left + right) / 2.0
  }

  /** The midpoint of the two eyes: horizontally the mean of the corner
      midpoints, vertically the mean of the lid midpoints. */
  function EyeCenter(l: LandmarkList): (real, real)
    requires EyeCornersPresent(l)
  {
    var x := ((Pt(l, EyeContact.LeftEyeOuter).x + Pt(l, EyeContact.LeftEyeInner).x) / 2.0
              + (Pt(l, EyeContact.RightEyeInner).x + Pt(l, EyeContact.RightEyeOuter).x) / 2.0) / 2.0;
    var y := ((Pt(l, EyeContact.LeftEyeTop).y + Pt(l, EyeContact.LeftEyeBottom).y) / 2.0
              + (Pt(l, EyeContact.RightEyeTop).y + Pt(l, EyeContact.RightEyeBottom).y) / 2.0) / 2.0;
    (x, y)
  }

  /** The nose tip sits under the eye midpoint: less than 0.08 across and
      0.12 down. */
  predicate NoseUnderEyes(l: LandmarkList)
    requires EyeCornersPresent(l) && At(l, EyeContact.NoseTip).Some?
  {
    var (cx, cy) := EyeCenter(l);
    var nose := Pt(l, EyeContact.NoseTip);
    Abs(cx - nose.x) < 0.08 && Abs(cy - nose.y) < 0.12
  }

  /** The inline check: open eyes need a mean aspect ratio strictly above
      0.25; with open eyes the nose decides, and a missing nose leaves the
      result undetected. */
  function InlineEyeContact(face: Option<LandmarkList>): (r: EyeContact.EyeContactResult)
    ensures !EyeContact.FacePresent(face) ==> r == EyeContact.NotDetected
    ensures r.confidence in {0.0, 0.7, 0.9, 0.95}
    ensures r.confidence == 0.0 <==> r == EyeContact.NotDetected
  {
    if !EyeContact.FacePresent(face) then EyeContact.NotDetected
    else
      var l := face.value;
      if !EyeCornersPresent(l) then EyeContact.NotDetected
      else if InlineAvgEar(l) > 0.25 then
        if At(l, EyeContact.NoseTip).Some? then
          if NoseUnderEyes(l) then EyeContact.EyeContactResult(EyeContact.MaintainedLabel, MaintainedConfidence)
          else EyeContact.EyeContactResult(EyeContact.NotMaintainedLabel, NotMaintainedConfidence)
        else EyeContact.NotDetected
      else EyeContact.EyesClosed
  }

  /** The inline check, case by case. */
  lemma InlineEyeContactCases(face: Option<LandmarkList>)
    requires EyeContact.FacePresent(face) && EyeCornersPresent(face.value)
    ensures var l := face.value;
            var r := InlineEyeContact(face);
            && (r == EyeContact.EyesClosed <==> InlineAvgEar(l) <= 0.25)
            && (r == EyeContact.NotDetected <==> InlineAvgEar(l) > 0.25 && At(l, EyeContact.NoseTip).None?)
            && (r.eyeContact == EyeContact.MaintainedLabel <==>
                InlineAvgEar(l) > 0.25 && At(l, EyeContact.NoseTip).Some? && NoseUnderEyes(l))
            && (r.eyeContact == EyeContact.NotMaintainedLabel <==>
                InlineAvgEar(l) > 0.25 && At(l, EyeContact.NoseTip).Some? && !NoseUnderEyes(l))
  {
  }

  /** Any missing eye corner or lid leaves the inline result undetected. */
  lemma InlineMissingCornerNotDetected(face: Option<LandmarkList>)
    requires EyeContact.FacePresent(face) && !EyeCornersPresent(face.value)
    ensures InlineEyeContact(face) == EyeContact.NotDetected
  {
  }

  /** Both checks compute the same mean aspect ratio. */
  lemma SameAspectRatio(l: LandmarkList)
    requires EyeContact.EyePointsPresent(l)
    ensures EyeCornersPresent(l) && InlineAvgEar(l) == EyeContact.AvgEar(l)
  {
  }

  /** The inline threshold is the looser one: eyes the shared classifier
      calls closed are closed for the inline check too. */
  lemma ClosedForBoth(face: Option<LandmarkList>)
    requires EyeContact.EyeContactDefined(face)
    requires EyeContact.FacePresent(face) && EyeContact.EyePointsPresent(face.value)
    requires EyeContact.DetectEyeContact(face) == EyeContact.EyesClosed
    ensures InlineEyeContact(face) == EyeContact.EyesClosed
  {
    SameAspectRatio(face.value);
    EyeContact.ClosedEyesWinOverEverything(face, face);
  }

  /** Mean aspect ratios in [0.2, 0.25] separate the two: the shared
      classifier sees open eyes, the inline check closed ones. */
  lemma ThresholdsDisagreeBetween(face: Option<LandmarkList>)
    requires EyeContact.FacePresent(face) && EyeContact.EyePointsPresent(face.value)
    requires 0.2 <= EyeContact.AvgEar(face.value) <= 0.25
    ensures EyeContact.EyesOpen(face.value)
    ensures InlineEyeContact(face) == EyeContact.EyesClosed
  {
    SameAspectRatio(face.value);
  }

  // ---------------------------------------------------------------------
  // Inline expression and posture

  /** `faceDetected && results.faceLandmarks`: a non-empty face list. */
  predicate FaceDetected(r: HolisticResults)
  {
    r.faceLandmarks.Some? && |r.faceLandmarks.value| > 0
  }

  /** The inline expression block. It reads the same landmarks with the same
      coefficients and tie rule as the shared classifier, so it is built from
      the same feature, score, normalisation and argmax steps. */
  function InlineExpression(r: HolisticResults): (res: Expression.ExpressionResult)
    requires Expression.ExpressionDefined(r.faceLandmarks)
    ensures !FaceDetected(r) ==> res == Expression.ExpressionResult(Expression.NotDetectedLabel, 0.0, Expression.ZeroEmotions)
  {
    if FaceDetected(r) then
      var emotions := Expression.Normalize(Expression.Scores(Expression.Features(r.faceLandmarks.value)));
      var best := Expression.Dominant(emotions);
      Expression.ExpressionResult(Expression.Key(best), emotions.Get(best), emotions)
    else
      Expression.ExpressionResult(Expression.NotDetectedLabel, 0.0, Expression.ZeroEmotions)
  }

  lemma InlineExpressionMatches(r: HolisticResults)
    requires Expression.ExpressionDefined(r.faceLandmarks)
    ensures InlineExpression(r) == Expression.DetectExpression(r.faceLandmarks)
  {
  }

  /** The inline posture block: the base label and its confidence from the
      table, then the stance prefix glued in front. */
  function InlinePosture(r: HolisticResults): (res: Posture.PostureResult)
    ensures !Posture.Detectable(r) ==> res == Posture.NotDetected
  {
    var landmarks := PoseSource(r);
    if landmarks.Some? && |landmarks.value| > 0 then
      var l := landmarks.value;
      if At(l, 11).Some? && At(l, 12).Some? && At(l, 23).Some? && At(l, 24).Some? then
        var shoulderY := (Pt(l, 11).y + Pt(l, 12).y) / 2.0;
        var hipY := (Pt(l, 23).y + Pt(l, 24).y) / 2.0;
        var vertical := Abs(shoulderY - hipY);
        var alignment := Abs(Pt(l, 11).y - Pt(l, 12).y);
        var (base, confidence) :=
          if vertical > 0.3 && alignment < 0.1 then ("STRAIGHT", 0.9)
          else if vertical > 0.2 then ("LEAN_FORWARD", 0.8)
          else if vertical > 0.1 then ("SLOUCHED", 0.85)
          else ("LEAN_BACK", 0.8);
        var prefix :=
          if At(l, 25).Some? && At(l, 26).Some? then
            var kneeY := (Pt(l, 25).y + Pt(l, 26).y) / 2.0;
            if Abs(hipY - kneeY) < Abs(shoulderY - hipY) * 0.8 then "SITTING_" else "STANDING_"
          else "SITTING_";
        Posture.PostureResult(prefix + base, confidence)
      else Posture.NotDetected
    else Posture.NotDetected
  }

  /** The inline posture block decides exactly as the shared classifier. */
  lemma InlinePostureMatches(r: HolisticResults)
    ensures InlinePosture(r) == Posture.DetectPosture(r)
  {
    if Posture.Detectable(r) {
      Posture.DetectedPosture(r);
    }
  }

  // ---------------------------------------------------------------------
  // Inline frame record and session

  /** The application computes a record without throwing: the inline eye
      check divides only by widths guarded with +0.001, so it adds nothing
      to the pose and expression conditions. */
  predicate InlineFrameDefined(r: HolisticResults)
  {
    PoseConfidenceDefined(r) && Expression.ExpressionDefined(r.faceLandmarks)
  }

  /** The application's frame record, stamped with the clock reading
      `stamp`. */
  function InlineRecord(r: HolisticResults, stamp: int): (rec: FrameRecord)
    requires InlineFrameDefined(r)
    ensures rec.timestamp == stamp
    ensures rec.faceDetected <==> NonEmpty(r.faceLandmarks)
    ensures rec.eyeContact == InlineEyeContact(r.faceLandmarks).eyeContact
    ensures rec.eyeContactConfidence == InlineEyeContact(r.faceLandmarks).confidence
  {
    var ex := InlineExpression(r);
    var po := InlinePosture(r);
    var ey := InlineEyeContact(r.faceLandmarks);
    FrameRecord(stamp, PoseConfidence(r), NonEmpty(r.faceLandmarks), HandsDetected(r), DominantHand(r),
                ex.expression, ex.confidence, ex.emotions, po.posture, po.confidence,
                ey.eyeContact, ey.confidence)
  }

  /** The application's record is the hook's record with the eye-contact
      pair replaced by the inline check's. */
  lemma InlineRecordDiffersOnlyInEyes(r: HolisticResults, stamp: int)
    requires FrameDefined(r)
    ensures var hook := Record(r, stamp);
            var ey := InlineEyeContact(r.faceLandmarks);
            InlineRecord(r, stamp) == hook.(eyeContact := ey.eyeContact, eyeContactConfidence := ey.confidence)
  {
    InlineExpressionMatches(r);
    InlinePostureMatches(r);
  }

  /** The application's frame step: the same push-and-trim as the hook,
      with the inline record. */
  function ProcessFrame(s: Session.State, r: HolisticResults, stamp: int, now: int): (s': Session.State)
    requires InlineFrameDefined(r)
    ensures s'.buffer == Session.Trim(s.buffer, now) + (if Session.InWindow(InlineRecord(r, stamp), now) then [InlineRecord(r, stamp)] else [])
    ensures s'.frameCount == s.frameCount + 1 && s'.summaries == s.summaries
  {
    s.(buffer := Session.Push(s.buffer, InlineRecord(r, stamp), now), frameCount := s.frameCount + 1)
  }

  /** The application's stop: no timer to clear, otherwise the hook's. */
  function Stop(s: Session.State): (s': Session.State)
    ensures s'.buffer == [] && s'.frameCount == 0 && !s'.streaming
    ensures s'.summaries == s.summaries
  {
    s.(buffer := [], frameCount := 0, streaming := false)
  }

  /** Both front ends keep the same window and history through a frame and
      a stop; only the eye-contact fields of the records differ. */
  lemma SameWindowDiscipline(s: Session.State, r: HolisticResults, stamp: int, now: int)
    requires FrameDefined(r)
    ensures |ProcessFrame(s, r, stamp, now).buffer| == |Session.ProcessFrame(s, r, stamp, now).buffer|
    ensures Stop(s).summaries == Session.Stop(s).summaries && Stop(s).buffer == Session.Stop(s).buffer
  {
    Session.TrimConcat(s.buffer, [InlineRecord(r, stamp)], now);
  }
}
