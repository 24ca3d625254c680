/** The posture classifier: a priority table over the torso's vertical
    extent and shoulder levelness, then a sitting/standing qualifier from
    the knees. */
module Posture {
  import opened Landmarks
  import opened Holistic

  const LeftShoulder: nat := 11
  const RightShoulder: nat := 12
  const LeftHip: nat := 23
  const RightHip: nat := 24
  const LeftKnee: nat := 25
  const RightKnee: nat := 26

  const NotDetectedLabel: string := "not detected"

  datatype Base = Straight | LeanForward | Slouched | LeanBack

  datatype Stance = Sitting | Standing

  datatype PostureResult = PostureResult(posture: string, confidence: real)

  const NotDetected: PostureResult := PostureResult(NotDetectedLabel, 0.0)

  function BaseName(b: Base): string
  {
    match b
    case Straight => "STRAIGHT"
    case LeanForward => "LEAN_FORWARD"
    case Slouched => "SLOUCHED"
    case LeanBack => "LEAN_BACK"
  }

  function Prefix(s: Stance): string
  {
    match s
    case Sitting => "SITTING_"
    case Standing => "STANDING_"
  }

  function BaseConfidence(b: Base): real
  {
    match b
    case Straight => 0.9
    case LeanForward => 0.8
    case Slouched => 0.85
    case LeanBack => 0.8
  }

  /** The reported label: the stance prefix glued to the base class. */
  function Label(s: Stance, b: Base): string
  {
    Prefix(s) + BaseName(b)
  }

  /** The torso measurements: `vertical` is the shoulder-centre to
      hip-centre height gap and `alignment` the height gap between the two
      shoulders. */
  datatype Torso = Torso(shoulderCenterY: real, hipCenterY: real, vertical: real, alignment: real)

  predicate TorsoPresent(l: LandmarkList)
  {
    At(l, LeftShoulder).Some? && At(l, RightShoulder).Some? && At(l, LeftHip).Some? && At(l, RightHip).Some?
  }

  function Measure(l: LandmarkList): (t: Torso)
    requires TorsoPresent(l)
    ensures t.vertical == Abs(t.shoulderCenterY - t.hipCenterY)
    ensures t.vertical >= 0.0 && t.alignment >= 0.0
  {
    var ls := Pt(l, LeftShoulder);
    var rs := Pt(l, RightShoulder);
    var sy := (ls.y + rs.y) / 2.0;
    var hy := (Pt(l, LeftHip).y + Pt(l, RightHip).y) / 2.0;
    Torso(sy, hy, Abs(sy - hy), Abs(ls.y - rs.y))
  }

  /** The four-row priority table: each class holds exactly when its row's
      condition holds and no earlier row's does. */
  function Classify(v: real, a: real): (b: Base)
    ensures b == Straight <==> v > 0.3 && a < 0.1
    ensures b == LeanForward <==> !(v > 0.3 && a < 0.1) && v > 0.2
    ensures b == Slouched <==> v <= 0.2 && v > 0.1
    ensures b == LeanBack <==> v <= 0.1
  {
    if v > 0.3 && a < 0.1 then Straight
    else if v > 0.2 then LeanForward
    else if v > 0.1 then Slouched
    else LeanBack
  }

  /** Sitting when the hip-to-knee height gap is under 0.8 of the torso
      height; sitting too when either knee is missing. */
  function StanceOf(l: LandmarkList, t: Torso): (s: Stance)
    ensures s == Standing ==> At(l, LeftKnee).Some? && At(l, RightKnee).Some?
  {
    if At(l, LeftKnee).Some? && At(l, RightKnee).Some? then
      var kneeY := (Pt(l, LeftKnee).y + Pt(l, RightKnee).y) / 2.0;
      if Abs(t.hipCenterY - kneeY) < Abs(t.shoulderCenterY - t.hipCenterY) * 0.8 then Sitting else Standing
    else
      Sitting
  }

  /** True when the classifier has the four torso points to work with. */
  predicate Detectable(r: HolisticResults)
  {
    NonEmpty(PoseSource(r)) && TorsoPresent(PoseSource(r).value)
  }

  function DetectPosture(r: HolisticResults): (res: PostureResult)
    ensures !Detectable(r) <==> res == NotDetected
    ensures Detectable(r) ==> res.confidence in {0.8, 0.85, 0.9}
    ensures Detectable(r) ==> exists s: Stance, b: Base :: res.posture == Label(s, b)
  {
    var l := PoseSource(r);
    if !NonEmpty(l) then NotDetected
    else if !TorsoPresent(l.value) then NotDetected
    else
      var t := Measure(l.value);
      var b := Classify(t.vertical, t.alignment);
      var s := StanceOf(l.value, t);
      LabelNeverNotDetected(s, b);
      PostureResult(Label(s, b), BaseConfidence(b))
  }

  // ---------------------------------------------------------------------
  // Reading a label back

  /** Splits a posture label into its stance and base class; `None` for
      anything that is not one of the eight composed labels. */
  function ParseLabel(text: string): (r: Option<(Stance, Base)>)
  {
    var stance :=
      if |text| >= 8 && text[..8] == "SITTING_" then Some((Sitting, text[8..]))
      else if |text| >= 9 && text[..9] == "STANDING_" then Some((Standing, text[9..]))
      else None;
    if stance.None? then None
    else
      var (s, rest) := stance.value;
      if rest == "STRAIGHT" then Some((s, Straight))
      else if rest == "LEAN_FORWARD" then Some((s, LeanForward))
      else if rest == "SLOUCHED" then Some((s, Slouched))
      else if rest == "LEAN_BACK" then Some((s, LeanBack))
      else None
  }

  /** Every composed label reads back as the stance and base it was built
      from, so the eight labels are distinct and each decomposes uniquely. */
  lemma ParseLabelRoundTrip(s: Stance, b: Base)
    ensures ParseLabel(Label(s, b)) == Some((s, b))
  {
    var text := Label(s, b);
    match s
    case Sitting =>
      assert text[..8] == "SITTING_";
      assert text[8..] == BaseName(b);
    case Standing =>
      assert text[..8] != "SITTING_" by { assert text[1] == 'T' && "SITTING_"[1] == 'I'; }
      assert text[..9] == "STANDING_";
      assert text[9..] == BaseName(b);
  }

  lemma LabelNeverNotDetected(s: Stance, b: Base)
    ensures Label(s, b) != NotDetectedLabel
  {
    assert Label(s, b)[0] == 'S';
  }

  lemma LabelInjective(s1: Stance, b1: Base, s2: Stance, b2: Base)
    ensures Label(s1, b1) == Label(s2, b2) <==> s1 == s2 && b1 == b2
  {
    ParseLabelRoundTrip(s1, b1);
    ParseLabelRoundTrip(s2, b2);
  }

  // ---------------------------------------------------------------------
  // Properties

  /** A long torso with uneven shoulders falls through to the second row. */
  lemma UnevenShouldersLeanForward(v: real, a: real)
    requires v > 0.3 && a >= 0.1
    ensures Classify(v, a) == LeanForward
  {
  }

  /** A detected result, row by row of the table: the stance prefix glued
      to that row's class name, with that row's confidence. */
  lemma DetectedPosture(r: HolisticResults)
    requires Detectable(r)
    ensures var l := PoseSource(r).value;
            var t := Measure(l);
            var p := Prefix(StanceOf(l, t));
            var res := DetectPosture(r);
            && (t.vertical > 0.3 && t.alignment < 0.1 ==> res == PostureResult(p + "STRAIGHT", 0.9))
            && (!(t.vertical > 0.3 && t.alignment < 0.1) && t.vertical > 0.2 ==>
                res == PostureResult(p + "LEAN_FORWARD", 0.8))
            && (0.1 < t.vertical <= 0.2 ==> res == PostureResult(p + "SLOUCHED", 0.85))
            && (t.vertical <= 0.1 ==> res == PostureResult(p + "LEAN_BACK", 0.8))
  {
    var l := PoseSource(r).value;
    var t := Measure(l);
    var b := Classify(t.vertical, t.alignment);
    assert DetectPosture(r) == PostureResult(Label(StanceOf(l, t), b), BaseConfidence(b));
  }

  /** The stance rule: with both knees, sitting exactly when the hip-knee gap
      is below 0.8 of the torso height; with either knee missing, sitting. */
  lemma StanceRule(l: LandmarkList, t: Torso)
    requires TorsoPresent(l) && t == Measure(l)
    ensures At(l, LeftKnee).None? || At(l, RightKnee).None? ==> StanceOf(l, t) == Sitting
    ensures At(l, LeftKnee).Some? && At(l, RightKnee).Some? ==>
      (StanceOf(l, t) == Sitting <==>
       Abs(t.hipCenterY - (Pt(l, LeftKnee).y + Pt(l, RightKnee).y) / 2.0) < t.vertical * 0.8)
  {
  }

  /** The qualifier never changes the confidence: any two landmark sets with
      the same torso class get the same confidence whatever their knees. */
  lemma ConfidenceIgnoresKnees(r1: HolisticResults, r2: HolisticResults)
    requires Detectable(r1) && Detectable(r2)
    requires var t1 := Measure(PoseSource(r1).value);
             var t2 := Measure(PoseSource(r2).value);
             Classify(t1.vertical, t1.alignment) == Classify(t2.vertical, t2.alignment)
    ensures DetectPosture(r1).confidence == DetectPosture(r2).confidence
  {
  }
}
