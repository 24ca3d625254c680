/** The eye-contact classifier: an eye-aspect-ratio gate for closed eyes, a
    head-pose gate for a turned head, then an additive gaze score mapped to
    four statuses. */
module EyeContact {
  import opened Landmarks

  // Face-mesh indices, as the classifier names them.
  const LeftEyeInner: nat := 133
  const LeftEyeOuter: nat := 33
  const LeftEyeTop: nat := 159
  const LeftEyeBottom: nat := 145
  const LeftIris: nat := 468
  const RightEyeInner: nat := 362
  const RightEyeOuter: nat := 263
  const RightEyeTop: nat := 386
  const RightEyeBottom: nat := 374
  const RightIris: nat := 473
  const NoseTip: nat := 1
  const NoseBridge: nat := 6
  const Chin: nat := 152
  const LeftCheek: nat := 234
  const RightCheek: nat := 454

  const NotDetectedLabel: string := "not detected"
  const EyesClosedLabel: string := "eyes closed"
  const LookingAwayLabel: string := "looking away"
  const StrongLabel: string := "strong eye contact"
  const MaintainedLabel: string := "maintained"
  const ModerateLabel: string := "moderate"
  const NotMaintainedLabel: string := "not maintained"

  datatype EyeContactResult = EyeContactResult(eyeContact: string, confidence: real)

  const NotDetected: EyeContactResult := EyeContactResult(NotDetectedLabel, 0.0)
  const EyesClosed: EyeContactResult := EyeContactResult(EyesClosedLabel, 0.95)
  const LookingAway: EyeContactResult := EyeContactResult(LookingAwayLabel, 0.85)

  predicate FacePresent(face: Option<LandmarkList>)
  {
    face.Some? && |face.value| > 0
  }

  /** The eight eye corners and lids plus the nose tip: the points whose
      absence the classifier checks for. */
  predicate EyePointsPresent(l: LandmarkList)
  {
    && At(l, LeftEyeInner).Some? && At(l, LeftEyeOuter).Some?
    && At(l, RightEyeInner).Some? && At(l, RightEyeOuter).Some?
    && At(l, LeftEyeTop).Some? && At(l, LeftEyeBottom).Some?
    && At(l, RightEyeTop).Some? && At(l, RightEyeBottom).Some?
    && At(l, NoseTip).Some?
  }

  /** The cheeks, nose bridge and chin: read by the head-pose gate without
      any presence check. */
  predicate HeadPosePointsPresent(l: LandmarkList)
  {
    At(l, NoseBridge).Some? && At(l, Chin).Some? && At(l, LeftCheek).Some? && At(l, RightCheek).Some?
  }

  /** Eye aspect ratio of one eye: lid gap over corner width, the width
      guarded by +0.001 so it is never zero. */
  function Ear(top: Landmark, bottom: Landmark, outer: Landmark, inner: Landmark): (r: real)
    ensures r >= 0.0
  {
    Abs(top.y - bottom.y) / (Abs(outer.x - inner.x) + 0.001)
  }

  function AvgEar(l: LandmarkList): (r: real)
    requires EyePointsPresent(l)
    ensures r >= 0.0
  {
    var left := Ear(Pt(l, LeftEyeTop), Pt(l, LeftEyeBottom), Pt(l, LeftEyeOuter), Pt(l, LeftEyeInner));
    var right := Ear(Pt(l, RightEyeTop), Pt(l, RightEyeBottom), Pt(l, RightEyeOuter), Pt(l, RightEyeInner));
    (left + right) / 2.0
  }

  predicate EyesOpen(l: LandmarkList)
    requires EyePointsPresent(l)
  {
    !(AvgEar(l) < 0.2)
  }

  /** The classifier does not throw: whenever it gets past the closed-eye
      gate, the head-pose points exist. */
  predicate EyeContactDefined(face: Option<LandmarkList>)
  {
    (FacePresent(face) && EyePointsPresent(face.value) && EyesOpen(face.value))
    ==> HeadPosePointsPresent(face.value)
  }

  // ---------------------------------------------------------------------
  // Head pose

  /** `|nose.x - centre.x| / faceWidth > 0.15` under IEEE-754: a zero face
      width makes the quotient +Infinity (true) when the nose is off-centre
      and NaN (false) when it is exactly centred. */
  function NoseOffCentre(offset: real, faceWidth: real): bool
    requires offset >= 0.0 && faceWidth >= 0.0
  {
    if faceWidth == 0.0 then offset > 0.0 else offset / faceWidth > 0.15
  }

  /** The head-pose gate: the nose tip strays horizontally from the cheeks'
      midpoint or vertically from the bridge-chin midpoint. */
  predicate HeadTurned(l: LandmarkList): (turned: bool)
    requires EyePointsPresent(l) && HeadPosePointsPresent(l)
    ensures var nose := Pt(l, NoseTip);
            var faceWidth := Abs(Pt(l, RightCheek).x - Pt(l, LeftCheek).x);
            turned <==>
              || Abs(nose.x - (Pt(l, LeftCheek).x + Pt(l, RightCheek).x) / 2.0) > 0.15 * faceWidth
              || Abs(nose.y - (Pt(l, NoseBridge).y + Pt(l, Chin).y) / 2.0) > 0.15
  {
    var nose := Pt(l, NoseTip);
    var centerX := (Pt(l, LeftCheek).x + Pt(l, RightCheek).x) / 2.0;
    var centerY := (Pt(l, NoseBridge).y + Pt(l, Chin).y) / 2.0;
    var faceWidth := Abs(Pt(l, RightCheek).x - Pt(l, LeftCheek).x);
    NoseOffCentreIsScaledTest(Abs(nose.x - centerX), faceWidth);
    NoseOffCentre(Abs(nose.x - centerX), faceWidth) || Abs(nose.y - centerY) > 0.15
  }

  // ---------------------------------------------------------------------
  // Gaze score

  /** Deviation of one iris from its eye's midpoint, as a fraction of the
      eye's width. */
  function IrisDeviation(iris: Landmark, inner: Landmark, outer: Landmark): real
    requires Abs(outer.x - inner.x) > 0.0
  {
    var w := Abs(outer.x - inner.x);
    Abs((iris.x - inner.x) - w / 2.0) / w
  }

  /** Both irises are tracked and both eyes have a non-zero width, so the
      mean iris deviation is a finite number. A zero-width eye makes its
      deviation +Infinity or NaN, and neither passes a `<` test. */
  predicate IrisesMeasurable(l: LandmarkList)
    requires EyePointsPresent(l)
  {
    && At(l, LeftIris).Some? && At(l, RightIris).Some?
    && Abs(Pt(l, LeftEyeOuter).x - Pt(l, LeftEyeInner).x) > 0.0
    && Abs(Pt(l, RightEyeOuter).x - Pt(l, RightEyeInner).x) > 0.0
  }

  /** The average of the two irises' deviations from their eye midpoints. */
  function MeanIrisDeviation(l: LandmarkList): real
    requires EyePointsPresent(l) && IrisesMeasurable(l)
  {
    (IrisDeviation(Pt(l, LeftIris), Pt(l, LeftEyeInner), Pt(l, LeftEyeOuter))
     + IrisDeviation(Pt(l, RightIris), Pt(l, RightEyeInner), Pt(l, RightEyeOuter))) / 2.0
  }

  /** 0.5 for a well-centred iris pair, 0.3 for a roughly centred one, 0
      otherwise or when either iris is missing. */
  function IrisTerm(l: LandmarkList): (r: real)
    requires EyePointsPresent(l)
    ensures r in {0.0, 0.3, 0.5}
    ensures At(l, LeftIris).None? || At(l, RightIris).None? ==> r == 0.0
    ensures r == 0.5 <==> IrisesMeasurable(l) && MeanIrisDeviation(l) < 0.15
    ensures r == 0.3 <==> IrisesMeasurable(l) && 0.15 <= MeanIrisDeviation(l) < 0.25
  {
    if IrisesMeasurable(l) then
      var avg := MeanIrisDeviation(l);
      if avg < 0.15 then 0.5 else if avg < 0.25 then 0.3 else 0.0
    else 0.0
  }

  /** 0.2 when the two eye centres are level within 0.02. */
  function LevelTerm(l: LandmarkList): (r: real)
    requires EyePointsPresent(l)
    ensures r in {0.0, 0.2}
    ensures r == 0.2 <==>
      Abs((Pt(l, LeftEyeTop).y + Pt(l, LeftEyeBottom).y) / 2.0
          - (Pt(l, RightEyeTop).y + Pt(l, RightEyeBottom).y) / 2.0) < 0.02
  {
    var leftY := (Pt(l, LeftEyeTop).y + Pt(l, LeftEyeBottom).y) / 2.0;
    var rightY := (Pt(l, RightEyeTop).y + Pt(l, RightEyeBottom).y) / 2.0;
    if Abs(leftY - rightY) < 0.02 then 0.2 else 0.0
  }

  /** 0.3 when the midpoint of the two eye centres lies within 0.03 of the
      nose tip horizontally. */
  function AlignmentTerm(l: LandmarkList): (r: real)
    requires EyePointsPresent(l)
    ensures r in {0.0, 0.3}
    ensures r == 0.3 <==>
      Abs(((Pt(l, LeftEyeInner).x + Pt(l, LeftEyeOuter).x) / 2.0
           + (Pt(l, RightEyeInner).x + Pt(l, RightEyeOuter).x) / 2.0) / 2.0
          - Pt(l, NoseTip).x) < 0.03
  {
    var leftX := (Pt(l, LeftEyeInner).x + Pt(l, LeftEyeOuter).x) / 2.0;
    var rightX := (Pt(l, RightEyeInner).x + Pt(l, RightEyeOuter).x) / 2.0;
    if Abs((leftX + rightX) / 2.0 - Pt(l, NoseTip).x) < 0.03 then 0.3 else 0.0
  }

  function GazeScore(l: LandmarkList): (g: real)
    requires EyePointsPresent(l)
    ensures 0.0 <= g <= 1.0
    ensures g in {0.0, 0.2, 0.3, 0.5, 0.6, 0.7, 0.8, 1.0}
  {
    IrisTerm(l) + LevelTerm(l) + AlignmentTerm(l)
  }

  /** Status and confidence for an accumulated gaze score. */
  function MapGaze(g: real): (r: EyeContactResult)
    requires 0.0 <= g <= 1.0
    ensures 0.5 <= r.confidence <= 0.95
  {
    if g >= 0.7 then EyeContactResult(StrongLabel, Min(0.95, 0.75 + g * 0.2))
    else if g >= 0.5 then EyeContactResult(MaintainedLabel, Min(0.9, 0.7 + g * 0.15))
    else if g >= 0.3 then EyeContactResult(ModerateLabel, 0.65 + g * 0.1)
    else EyeContactResult(NotMaintainedLabel, 0.5 + g * 0.2)
  }

  // ---------------------------------------------------------------------
  // The classifier

  function DetectEyeContact(face: Option<LandmarkList>): (r: EyeContactResult)
    requires EyeContactDefined(face)
    ensures !FacePresent(face) ==> r == NotDetected
    ensures FacePresent(face) && !EyePointsPresent(face.value) ==> r == NotDetected
    ensures FacePresent(face) && EyePointsPresent(face.value) && AvgEar(face.value) < 0.2 ==> r == EyesClosed
    ensures 0.0 <= r.confidence <= 0.95
    ensures r.confidence == 0.0 <==> r == NotDetected
  {
    if !FacePresent(face) then NotDetected
    else
      var l := face.value;
      if !EyePointsPresent(l) then NotDetected
      else if AvgEar(l) < 0.2 then EyesClosed
      else if HeadTurned(l) then LookingAway
      else MapGaze(GazeScore(l))
  }

  // ---------------------------------------------------------------------
  // Properties

  /** Rank of a gaze status, from no contact to strong contact; -1 for the
      labels that do not come from the gaze score. */
  function GazeRank(status: string): int
  {
    if status == NotMaintainedLabel then 0
    else if status == ModerateLabel then 1
    else if status == MaintainedLabel then 2
    else if status == StrongLabel then 3
    else -1
  }

  /** The status thresholds, row by row. */
  lemma MapGazeThresholds(g: real)
    requires 0.0 <= g <= 1.0
    ensures MapGaze(g).eyeContact == StrongLabel <==> g >= 0.7
    ensures MapGaze(g).eyeContact == MaintainedLabel <==> 0.5 <= g < 0.7
    ensures MapGaze(g).eyeContact == ModerateLabel <==> 0.3 <= g < 0.5
    ensures MapGaze(g).eyeContact == NotMaintainedLabel <==> g < 0.3
  {
  }

  /** A higher gaze score never yields a weaker status. */
  lemma MapGazeMonotone(g1: real, g2: real)
    requires 0.0 <= g1 <= g2 <= 1.0
    ensures 0 <= GazeRank(MapGaze(g1).eyeContact) <= GazeRank(MapGaze(g2).eyeContact)
  {
  }

  /** The confidence bands: strong is capped at 0.95 and maintained at 0.9;
      moderate lies in [0.68, 0.7) and not-maintained in [0.5, 0.56). */
  lemma MapGazeConfidence(g: real)
    requires 0.0 <= g <= 1.0
    ensures MapGaze(g).eyeContact == StrongLabel ==> 0.89 <= MapGaze(g).confidence <= 0.95
    ensures MapGaze(g).eyeContact == MaintainedLabel ==> 0.775 <= MapGaze(g).confidence <= 0.9
    ensures MapGaze(g).eyeContact == ModerateLabel ==> 0.68 <= MapGaze(g).confidence < 0.7
    ensures MapGaze(g).eyeContact == NotMaintainedLabel ==> 0.5 <= MapGaze(g).confidence < 0.56
  {
  }

  /** The IEEE reading of the horizontal head-pose test is the
      multiplication-form condition `offset > 0.15 * faceWidth`. */
  lemma NoseOffCentreIsScaledTest(offset: real, faceWidth: real)
    requires offset >= 0.0 && faceWidth >= 0.0
    ensures NoseOffCentre(offset, faceWidth) <==> offset > 0.15 * faceWidth
  {
    if faceWidth > 0.0 {
      var q := offset / faceWidth;
      assert offset == q * faceWidth;
      if q > 0.15 {
        ScaleStrict(q, faceWidth, 0.15);
      } else {
        ScaleWeak(q, faceWidth, 0.15);
      }
    }
  }

  lemma ScaleStrict(a: real, b: real, c: real)
    requires b > 0.0 && a > c
    ensures a * b > c * b
  {
    assert a * b - c * b == (a - c) * b;
  }

  lemma ScaleWeak(a: real, b: real, c: real)
    requires b > 0.0 && a <= c
    ensures a * b <= c * b
  {
    assert c * b - a * b == (c - a) * b;
  }

  /** The closed-eye gate comes first: below the EAR threshold nothing about
      head pose or gaze matters. */
  lemma ClosedEyesWinOverEverything(face: Option<LandmarkList>, other: Option<LandmarkList>)
    requires EyeContactDefined(face) && EyeContactDefined(other)
    requires FacePresent(face) && EyePointsPresent(face.value) && AvgEar(face.value) < 0.2
    requires FacePresent(other) && EyePointsPresent(other.value) && AvgEar(other.value) < 0.2
    ensures DetectEyeContact(face) == DetectEyeContact(other) == EyesClosed
  {
  }

  /** With the eyes open, a turned head is reported as looking away, and
      otherwise the status comes from the gaze score. */
  lemma OpenEyesStages(face: Option<LandmarkList>)
    requires EyeContactDefined(face)
    requires FacePresent(face) && EyePointsPresent(face.value) && EyesOpen(face.value)
    ensures HeadTurned(face.value) ==> DetectEyeContact(face) == LookingAway
    ensures !HeadTurned(face.value) ==>
      && DetectEyeContact(face) == MapGaze(GazeScore(face.value))
      && GazeRank(DetectEyeContact(face).eyeContact) >= 0
  {
    if !HeadTurned(face.value) {
      MapGazeMonotone(GazeScore(face.value), 1.0);
    }
  }

  /** Without both irises the gaze score is at most 0.5, so strong eye
      contact needs the iris landmarks. */
  lemma StrongNeedsIrises(face: Option<LandmarkList>)
    requires EyeContactDefined(face) && FacePresent(face) && EyePointsPresent(face.value)
    requires At(face.value, LeftIris).None? || At(face.value, RightIris).None?
    ensures DetectEyeContact(face).eyeContact != StrongLabel
  {
    var l := face.value;
    if EyesOpen(l) && !HeadTurned(l) {
      assert GazeScore(l) <= 0.5;
      MapGazeThresholds(GazeScore(l));
    }
  }

  /** Strong eye contact needs a measurable iris pair whose mean deviation
      is below 0.25: otherwise the iris term is 0 and the gaze score is at
      most 0.5. */
  lemma StrongNeedsCentredIrises(face: Option<LandmarkList>)
    requires EyeContactDefined(face)
    requires DetectEyeContact(face).eyeContact == StrongLabel
    ensures FacePresent(face) && EyePointsPresent(face.value)
    ensures IrisesMeasurable(face.value) && MeanIrisDeviation(face.value) < 0.25
  {
    var l := face.value;
    if !(IrisesMeasurable(l) && MeanIrisDeviation(l) < 0.25) {
      assert IrisTerm(l) == 0.0;
      assert GazeScore(l) <= 0.5;
      MapGazeThresholds(GazeScore(l));
      assert false;
    }
  }
}
