/** The facial expression classifier: six geometric features of the face
    mesh, seven clamped linear emotion scores, normalisation into a
    distribution, and the choice of a dominant emotion. */
module Expression {
  import opened Landmarks

  /** The seven emotion keys, in the order the source's object literal
      lists them (which is also the order its argmax scans them). */
  datatype Emotion = Happy | Sad | Angry | Surprised | Fearful | Disgusted | Neutral

  /** Position of a key in the scan order. */
  function Rank(e: Emotion): (r: nat)
    ensures r < 7
    ensures Order[r] == e
  {
    match e
    case Happy => 0
    case Sad => 1
    case Angry => 2
    case Surprised => 3
    case Fearful => 4
    case Disgusted => 5
    case Neutral => 6
  }

  const Order: seq<Emotion> := [Happy, Sad, Angry, Surprised, Fearful, Disgusted, Neutral]

  /** The property name the source uses for each emotion. */
  function Key(e: Emotion): string
  {
    match e
    case Happy => "happy"
    case Sad => "sad"
    case Angry => "angry"
    case Surprised => "surprised"
    case Fearful => "fearful"
    case Disgusted => "disgusted"
    case Neutral => "neutral"
  }

  const NotDetectedLabel: string := "not detected"

  /** One weight per emotion key. */
  datatype Emotions = Emotions(happy: real, sad: real, angry: real, surprised: real,
                               fearful: real, disgusted: real, neutral: real)
  {
    function Get(e: Emotion): real
    {
      match e
      case Happy => happy
      case Sad => sad
      case Angry => angry
      case Surprised => surprised
      case Fearful => fearful
      case Disgusted => disgusted
      case Neutral => neutral
    }

    function Total(): real
    {
      happy + sad + angry + surprised + fearful + disgusted + neutral
    }
  }

  const ZeroEmotions: Emotions := Emotions(0.0, 0.0, 0.0, 0.0, 0.0, 0.0, 0.0)

  datatype ExpressionResult = ExpressionResult(expression: string, confidence: real, emotions: Emotions)

  /** Every weight in [0,1], and either they sum to one or they are all zero. */
  predicate IsDistribution(em: Emotions)
  {
    && (forall e: Emotion :: 0.0 <= em.Get(e) <= 1.0)
    && (em.Total() == 1.0 || em == ZeroEmotions)
  }

  /** `e` has the greatest weight and no key scanned after it ties with it. */
  predicate IsLatestMax(em: Emotions, e: Emotion)
  {
    && (forall e': Emotion :: em.Get(e') <= em.Get(e))
    && (forall e': Emotion :: Rank(e') > Rank(e) ==> em.Get(e') < em.Get(e))
  }

  // ---------------------------------------------------------------------
  // Features

  /** Every landmark the feature computation dereferences. The source reads
      more indices (eye corners, the outer right eyebrow) but never touches
      their coordinates, so their absence is harmless. */
  predicate FeaturePointsPresent(l: LandmarkList)
  {
    && At(l, 0).Some? && At(l, 1).Some? && At(l, 13).Some? && At(l, 14).Some?
    && At(l, 31).Some? && At(l, 35).Some? && At(l, 61).Some? && At(l, 63).Some?
    && At(l, 70).Some? && At(l, 145).Some? && At(l, 159).Some? && At(l, 291).Some?
    && At(l, 300).Some? && At(l, 374).Some? && At(l, 386).Some?
  }

  /** The measurements the emotion scores are linear in. `browSlant` is the
      left inner-to-outer eyebrow height gap and `noseLipGap` the nose tip to
      upper lip height gap, both used by a single score. */
  datatype FaceFeatures = FaceFeatures(
    mouthOpening: real, mouthWidth: real, mouthCurvature: real,
    avgEyeOpening: real, avgEyebrowHeight: real, noseWidth: real,
    browSlant: real, noseLipGap: real)

  function Features(l: LandmarkList): (f: FaceFeatures)
    requires FeaturePointsPresent(l)
    ensures f.mouthOpening >= 0.0 && f.mouthWidth >= 0.0 && f.avgEyeOpening >= 0.0
    ensures f.noseWidth >= 0.0 && f.browSlant >= 0.0 && f.noseLipGap >= 0.0
  {
    var upperLip := Pt(l, 13);
    var lowerLip := Pt(l, 14);
    var leftCorner := Pt(l, 61);
    var rightCorner := Pt(l, 291);
    var mouthCenter := Pt(l, 0);
    var leftTop := Pt(l, 159);
    var leftBottom := Pt(l, 145);
    var rightTop := Pt(l, 386);
    var rightBottom := Pt(l, 374);
    var leftBrowInner := Pt(l, 70);
    var leftBrowOuter := Pt(l, 63);
    var rightBrowInner := Pt(l, 300);
    var tip := Pt(l, 1);
    var leftNostril := Pt(l, 31);
    var rightNostril := Pt(l, 35);
    FaceFeatures(
      Abs(upperLip.y - lowerLip.y),
      Abs(rightCorner.x - leftCorner.x),
      (leftCorner.y + rightCorner.y) / 2.0 - mouthCenter.y,
      (Abs(leftTop.y - leftBottom.y) + Abs(rightTop.y - rightBottom.y)) / 2.0,
      ((leftBrowInner.y - leftTop.y) + (rightBrowInner.y - rightTop.y)) / 2.0,
      Abs(rightNostril.x - leftNostril.x),
      Abs(leftBrowInner.y - leftBrowOuter.y),
      Abs(tip.y - upperLip.y))
  }

  // ---------------------------------------------------------------------
  // Scores

  /** `Math.max(0, Math.min(1, x))`. */
  function Clamp(x: real): (r: real)
    ensures 0.0 <= r <= 1.0
    ensures 0.0 <= x <= 1.0 ==> r == x
    ensures x < 0.0 ==> r == 0.0
    ensures x > 1.0 ==> r == 1.0
  {
    Max(0.0, Min(1.0, x))
  }

  /** The seven unbounded linear combinations, before clamping. With the
      openings non-negative, as measured, the happy, sad and surprised scores
      cannot all be non-positive unless curvature, openings and eyebrow
      height are all zero, and then the neutral score is 1 - 0.02 * 20. */
  function RawScores(f: FaceFeatures): (r: Emotions)
    ensures f.mouthOpening >= 0.0 && f.avgEyeOpening >= 0.0 ==>
      r.happy > 0.0 || r.sad > 0.0 || r.surprised > 0.0 || r.neutral == 0.6
  {
    Emotions(
      f.mouthCurvature * 20.0 + f.mouthOpening * 10.0 + f.avgEyebrowHeight * 5.0 - f.avgEyeOpening * 3.0,
      -f.mouthCurvature * 15.0 + -f.avgEyebrowHeight * 8.0 + f.avgEyeOpening * 2.0,
      -f.avgEyeOpening * 8.0 + -f.avgEyebrowHeight * 6.0 + -f.mouthOpening * 5.0 + f.browSlant * 10.0,
      f.avgEyeOpening * 8.0 + f.avgEyebrowHeight * 10.0 + f.mouthOpening * 6.0,
      f.avgEyeOpening * 6.0 + f.avgEyebrowHeight * 8.0 + f.mouthOpening * 3.0 + f.noseWidth * 5.0,
      f.noseWidth * 8.0 + -f.avgEyeOpening * 4.0 + -f.mouthCurvature * 10.0 + f.noseLipGap * 5.0,
      1.0 - Abs(f.mouthCurvature * 10.0) - Abs(f.avgEyebrowHeight * 5.0) - Abs(f.avgEyeOpening - 0.02) * 20.0)
  }

  /** Each weight clamped into [0,1]. */
  function ClampAll(raw: Emotions): (s: Emotions)
    ensures forall e: Emotion :: s.Get(e) == Clamp(raw.Get(e))
  {
    Emotions(Clamp(raw.happy), Clamp(raw.sad), Clamp(raw.angry), Clamp(raw.surprised),
             Clamp(raw.fearful), Clamp(raw.disgusted), Clamp(raw.neutral))
  }

  /** The clamped emotion scores of a face. */
  function Scores(f: FaceFeatures): (s: Emotions)
    ensures forall e: Emotion :: 0.0 <= s.Get(e) <= 1.0
  {
    ClampAll(RawScores(f))
  }

  /** Every weight divided by `t`. */
  function Divide(s: Emotions, t: real): (n: Emotions)
    requires t > 0.0
    ensures forall e: Emotion :: n.Get(e) == s.Get(e) / t
  {
    Emotions(s.happy / t, s.sad / t, s.angry / t, s.surprised / t,
             s.fearful / t, s.disgusted / t, s.neutral / t)
  }

  /** Every weight of `n` is the matching weight of `s` divided by `t`. */
  predicate ScaledDown(n: Emotions, s: Emotions, t: real)
  {
    forall e: Emotion :: n.Get(e) * t == s.Get(e)
  }

  /** Divides every score by the total when the total is positive, and
      yields all zeros otherwise. */
  function Normalize(s: Emotions): (n: Emotions)
    requires forall e: Emotion :: s.Get(e) >= 0.0
    ensures s.Total() > 0.0 ==> ScaledDown(n, s, s.Total())
    ensures s.Total() <= 0.0 ==> n == ZeroEmotions
    ensures s.Total() > 0.0 ==> n.Total() == 1.0
    ensures IsDistribution(n)
  {
    var t := s.Total();
    if t > 0.0 then
      DivideIsDistribution(s, t);
      Divide(s, t)
    else
      ZeroEmotions
  }

  lemma DivideIsDistribution(s: Emotions, t: real)
    requires forall e: Emotion :: s.Get(e) >= 0.0
    requires t == s.Total() && t > 0.0
    ensures IsDistribution(Divide(s, t)) && Divide(s, t).Total() == 1.0
    ensures ScaledDown(Divide(s, t), s, t)
  {
    NormalizedSumsToOne(s, t);
    NormalizedInUnit(s, t);
  }

  lemma NormalizedSumsToOne(s: Emotions, t: real)
    requires t == s.Total() && t > 0.0
    ensures Divide(s, t).Total() == 1.0
  {
    var n := Divide(s, t);
    assert n == Emotions(s.happy / t, s.sad / t, s.angry / t, s.surprised / t,
                         s.fearful / t, s.disgusted / t, s.neutral / t);
    calc {
      n.Total();
      (s.happy + s.sad + s.angry + s.surprised + s.fearful + s.disgusted + s.neutral) / t;
      t / t;
    }
  }

  lemma NormalizedInUnit(s: Emotions, t: real)
    requires forall e: Emotion :: s.Get(e) >= 0.0
    requires t == s.Total() && t > 0.0
    ensures forall e: Emotion :: 0.0 <= Divide(s, t).Get(e) <= 1.0
    ensures forall e: Emotion :: Divide(s, t).Get(e) * t == s.Get(e)
  {
    forall e: Emotion
      ensures 0.0 <= Divide(s, t).Get(e) <= 1.0 && Divide(s, t).Get(e) * t == s.Get(e)
    {
      WeightBelowTotal(s, e);
      DivInUnit(s.Get(e), t);
    }
  }

  lemma WeightBelowTotal(s: Emotions, e: Emotion)
    requires forall e': Emotion :: s.Get(e') >= 0.0
    ensures s.Get(e) <= s.Total()
  {
    assert s.Get(Happy) >= 0.0 && s.Get(Sad) >= 0.0 && s.Get(Angry) >= 0.0;
    assert s.Get(Surprised) >= 0.0 && s.Get(Fearful) >= 0.0;
    assert s.Get(Disgusted) >= 0.0 && s.Get(Neutral) >= 0.0;
  }

  lemma DivInUnit(a: real, t: real)
    requires 0.0 <= a <= t && t > 0.0
    ensures 0.0 <= a / t <= 1.0
    ensures (a / t) * t == a
  {
  }

  // ---------------------------------------------------------------------
  // Dominant emotion

  /** The key at position `i` of the scan order. */
  function KeyAt(i: nat): (e: Emotion)
    requires i < 7
    ensures Rank(e) == i
  {
    Order[i]
  }

  /** `best` is the latest maximum among the keys scanned so far, the
      first `i` of the scan order. */
  predicate LatestMaxBefore(em: Emotions, best: Emotion, i: nat)
  {
    && Rank(best) < i
    && (forall e: Emotion :: Rank(e) < i ==> em.Get(e) <= em.Get(best))
    && (forall e: Emotion :: Rank(e) < i && Rank(e) > Rank(best) ==> em.Get(e) < em.Get(best))
  }

  /** The source's `entries.reduce((a, b) => v(a) > v(b) ? a : b)` from key
      `i` on: the running best is replaced unless it is strictly greater, so
      on a tie the key scanned later wins. */
  function Reduce(em: Emotions, best: Emotion, i: nat): (r: Emotion)
    requires 1 <= i <= 7 && LatestMaxBefore(em, best, i)
    ensures IsLatestMax(em, r)
    decreases 7 - i
  {
    if i == 7 then best
    else
      var key := KeyAt(i);
      var next := if em.Get(best) > em.Get(key) then best else key;
      assert LatestMaxBefore(em, next, i + 1) by {
        forall e: Emotion | Rank(e) == i ensures e == key {
          assert Order[Rank(e)] == e;
        }
      }
      Reduce(em, next, i + 1)
  }

  /** The key the source reports: the greatest weight, ties to the later key. */
  function Dominant(em: Emotions): (r: Emotion)
    ensures IsLatestMax(em, r)
  {
    Reduce(em, Happy, 1)
  }

  /** The latest-maximum property pins down a single key. */
  lemma LatestMaxUnique(em: Emotions, a: Emotion, b: Emotion)
    requires IsLatestMax(em, a) && IsLatestMax(em, b)
    ensures a == b
  {
    // each bounds the other's weight, so neither can be scanned later
    assert em.Get(b) <= em.Get(a) && em.Get(a) <= em.Get(b);
    assert Rank(a) == Rank(b);
    assert Order[Rank(a)] == a && Order[Rank(b)] == b;
  }

  /** The dominant key is exactly the latest maximum. */
  lemma DominantIsLatestMax(em: Emotions, e: Emotion)
    ensures Dominant(em) == e <==> IsLatestMax(em, e)
  {
    if IsLatestMax(em, e) {
      LatestMaxUnique(em, Dominant(em), e);
    }
  }

  // ---------------------------------------------------------------------
  // The classifier

  predicate FacePresent(face: Option<LandmarkList>)
  {
    face.Some? && |face.value| > 0
  }

  /** Defined whenever the source does not throw: a present face must carry
      every landmark whose coordinates the features read. */
  predicate ExpressionDefined(face: Option<LandmarkList>)
  {
    FacePresent(face) ==> FeaturePointsPresent(face.value)
  }

  /** The result for a present face, given its normalised weights. */
  function Classify(emotions: Emotions): (r: ExpressionResult)
    ensures r.emotions == emotions
    ensures exists e: Emotion :: r.expression == Key(e) && r.confidence == emotions.Get(e) && IsLatestMax(emotions, e)
  {
    var best := Dominant(emotions);
    ExpressionResult(Key(best), emotions.Get(best), emotions)
  }

  function DetectExpression(face: Option<LandmarkList>): (r: ExpressionResult)
    requires ExpressionDefined(face)
    ensures !FacePresent(face) ==> r == ExpressionResult(NotDetectedLabel, 0.0, ZeroEmotions)
    ensures FacePresent(face) ==> IsDistribution(r.emotions) && r.emotions.Total() == 1.0
    ensures FacePresent(face) ==>
      exists e: Emotion :: r.expression == Key(e) && r.confidence == r.emotions.Get(e) && IsLatestMax(r.emotions, e)
  {
    if !FacePresent(face) then
      ExpressionResult(NotDetectedLabel, 0.0, ZeroEmotions)
    else
      var f := Features(face.value);
      FaceScoresPositive(f);
      Classify(Normalize(Scores(f)))
  }

  /** The clamped scores of a measured face never all vanish, so the
      `totalScore > 0` test always passes for a face and its fallback to
      zero weights is never taken. */
  lemma FaceScoresPositive(f: FaceFeatures)
    requires f.mouthOpening >= 0.0 && f.avgEyeOpening >= 0.0
    ensures Scores(f).Total() > 0.0
  {
    var raw := RawScores(f);
    var s := Scores(f);
    var e :=
      if raw.happy > 0.0 then Happy
      else if raw.sad > 0.0 then Sad
      else if raw.surprised > 0.0 then Surprised
      else Neutral;
    assert raw.Get(e) > 0.0;
    assert s.Get(e) == Clamp(raw.Get(e));
    PositiveWeightPositiveTotal(s, e);
  }

  lemma PositiveWeightPositiveTotal(s: Emotions, e: Emotion)
    requires forall e': Emotion :: s.Get(e') >= 0.0
    requires s.Get(e) > 0.0
    ensures s.Total() > 0.0
  {
    WeightBelowTotal(s, e);
  }

  // ---------------------------------------------------------------------
  // Properties

  lemma KeyInjective(a: Emotion, b: Emotion)
    ensures Key(a) == Key(b) <==> a == b
    ensures Key(a) != NotDetectedLabel
  {
  }

  /** With a face, each reported weight times the positive total of the
      clamped scores is that emotion's raw linear score cut to [0,1]: the
      weights are the clamped scores in proportion. */
  lemma EmotionsAreNormalizedClampedScores(face: Option<LandmarkList>)
    requires ExpressionDefined(face) && FacePresent(face)
    ensures var f := Features(face.value);
            var t := Scores(f).Total();
            && t > 0.0
            && ScaledDown(DetectExpression(face).emotions, ClampAll(RawScores(f)), t)
  {
    var f := Features(face.value);
    FaceScoresPositive(f);
    assert DetectExpression(face).emotions == Normalize(Scores(f));
  }

  /** With a face, the label is always one of the seven keys, the confidence
      is that key's weight and no weight exceeds it. */
  lemma FaceAlwaysLabelled(face: Option<LandmarkList>)
    requires ExpressionDefined(face) && FacePresent(face)
    ensures var r := DetectExpression(face);
            && r.expression != NotDetectedLabel
            && (exists e: Emotion :: r.expression == Key(e) && r.confidence == r.emotions.Get(e))
            && (forall e: Emotion :: r.emotions.Get(e) <= r.confidence)
            && 0.0 <= r.confidence <= 1.0
  {
    var r := DetectExpression(face);
    var e: Emotion :| r.expression == Key(e) && r.confidence == r.emotions.Get(e) && IsLatestMax(r.emotions, e);
    KeyInjective(e, e);
  }

  /** On all-zero weights every comparison is a tie, so the last key wins. */
  lemma AllZeroIsNeutral()
    ensures Dominant(ZeroEmotions) == Neutral
  {
    assert IsLatestMax(ZeroEmotions, Neutral);
    DominantIsLatestMax(ZeroEmotions, Neutral);
  }

  /** A worked tie: happy and sad share the top weight, sad is reported. */
  lemma TieGoesToLaterKey()
    ensures Dominant(Emotions(0.4, 0.4, 0.2, 0.0, 0.0, 0.0, 0.0)) == Sad
  {
    var em := Emotions(0.4, 0.4, 0.2, 0.0, 0.0, 0.0, 0.0);
    assert IsLatestMax(em, Sad);
    DominantIsLatestMax(em, Sad);
  }
}
