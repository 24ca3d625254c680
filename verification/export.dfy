/** The exported session document: the history of cycle summaries numbered
    from one, every confidence and emotion share turned into a whole
    percentage. */
module Export {
  import opened Landmarks
  import opened Stats
  import opened Frame
  import opened Session
  import Expression

  /** `Math.round(x * 100)`. */
  function Percent(x: real): (p: int)
    ensures RoundsTo(x * 100.0, p)
    ensures InUnit(x) ==> 0 <= p <= 100
  {
    var p := RoundHalfUp(x * 100.0);
    if InUnit(x) then RoundHalfUpBounds(x * 100.0, 0, 100); p else p
  }

  datatype EmotionPercents = EmotionPercents(
    happy: int, sad: int, angry: int, surprised: int, fearful: int, disgusted: int, neutral: int)

  function PercentOf(p: EmotionPercents, e: Expression.Emotion): int
  {
    match e
    case Happy => p.happy
    case Sad => p.sad
    case Angry => p.angry
    case Surprised => p.surprised
    case Fearful => p.fearful
    case Disgusted => p.disgusted
    case Neutral => p.neutral
  }

  /** One exported cycle. The ISO-8601 rendering of the timestamp is not
      modelled; the millisecond clock reading is kept as it is. */
  datatype ExportedCycle = ExportedCycle(
    cycle: nat,
    timestamp: int,
    expression: string,
    expressionConfidence: int,
    posture: string,
    postureConfidence: int,
    eyeContact: string,
    eyeContactConfidence: int,
    emotions: EmotionPercents,
    faceDetected: bool,
    handsDetected: int,
    dominantHand: string,
    poseConfidence: int)

  /** The exported document, without its export date. */
  datatype ExportDocument = ExportDocument(sessionDuration: int, totalCycles: nat, summaries: seq<ExportedCycle>)

  function ExportEmotions(em: Expression.Emotions): (p: EmotionPercents)
    ensures forall e: Expression.Emotion :: PercentOf(p, e) == Percent(em.Get(e))
  {
    EmotionPercents(
      Percent(em.happy), Percent(em.sad), Percent(em.angry), Percent(em.surprised),
      Percent(em.fearful), Percent(em.disgusted), Percent(em.neutral))
  }

  /** The summary at position `index` (from zero) as the document lists it. */
  function ExportCycle(s: CycleSummary, index: nat): (c: ExportedCycle)
    ensures c.cycle == index + 1
    ensures c.timestamp == s.timestamp && c.faceDetected == s.faceDetected && c.handsDetected == s.handsDetected
    ensures c.expression == s.expression && c.posture == s.posture && c.eyeContact == s.eyeContact
    ensures c.dominantHand == HandName(s.dominantHand)
    ensures RoundsTo(s.expressionConfidence * 100.0, c.expressionConfidence)
    ensures RoundsTo(s.postureConfidence * 100.0, c.postureConfidence)
    ensures RoundsTo(s.eyeContactConfidence * 100.0, c.eyeContactConfidence)
    ensures RoundsTo(s.poseConfidence * 100.0, c.poseConfidence)
    ensures forall e: Expression.Emotion :: RoundsTo(s.emotions.Get(e) * 100.0, PercentOf(c.emotions, e))
  {
    ExportedCycle(
      index + 1, s.timestamp,
      s.expression, Percent(s.expressionConfidence),
      s.posture, Percent(s.postureConfidence),
      s.eyeContact, Percent(s.eyeContactConfidence),
      ExportEmotions(s.emotions),
      s.faceDetected, s.handsDetected, HandName(s.dominantHand),
      Percent(s.poseConfidence))
  }

  /** `exportData`'s document for a session state. */
  function ExportSession(st: State): (d: ExportDocument)
    ensures d.sessionDuration == st.elapsed
    ensures d.totalCycles == |d.summaries| == |st.summaries|
    ensures forall i :: 0 <= i < |st.summaries| ==> d.summaries[i] == ExportCycle(st.summaries[i], i)
  {
    ExportDocument(
      st.elapsed, |st.summaries|,
      seq(|st.summaries|, i requires 0 <= i < |st.summaries| => ExportCycle(st.summaries[i], i)))
  }

  // ---------------------------------------------------------------------
  // Properties

  lemma HandNameInjective(a: Hand, b: Hand)
    ensures HandName(a) == HandName(b) <==> a == b
  {
  }

  /** Reading a hand name back. */
  function ParseHand(text: string): (h: Option<Hand>)
    ensures h.Some? ==> HandName(h.value) == text
  {
    if text == "left" then Some(Left)
    else if text == "right" then Some(Right)
    else if text == "none" then Some(NoHand)
    else None
  }

  lemma ParseHandRoundTrip(h: Hand)
    ensures ParseHand(HandName(h)) == Some(h)
  {
  }

  /** A percentage is determined by the band it rounds from: within half a
      percentage point of the confidence, and no other integer is. */
  lemma PercentIsNearest(x: real, k: int)
    ensures Percent(x) == k <==> RoundsTo(x * 100.0, k)
  {
    if RoundsTo(x * 100.0, k) {
      RoundHalfUpUnique(x * 100.0, k);
    }
  }

  /** Rounding to percentages keeps order. */
  lemma PercentMonotone(x: real, y: real)
    requires x <= y
    ensures Percent(x) <= Percent(y)
  {
    assert x * 100.0 <= y * 100.0;
  }

  /** The document lists the cycles in history order, numbered 1, 2, …,
      with the same labels, detection flags and timestamps as the history,
      so the labels of the session can be read back from it exactly. */
  lemma ExportPreservesHistory(st: State, i: nat)
    requires i < |st.summaries|
    ensures var c := ExportSession(st).summaries[i];
            var s := st.summaries[i];
            && c.cycle == i + 1
            && c.expression == s.expression && c.posture == s.posture && c.eyeContact == s.eyeContact
            && c.timestamp == s.timestamp && c.faceDetected == s.faceDetected && c.handsDetected == s.handsDetected
            && ParseHand(c.dominantHand) == Some(s.dominantHand)
  {
    ParseHandRoundTrip(st.summaries[i].dominantHand);
  }

  /** Confidences of a history kept in range export as percentages 0–100. */
  lemma ExportInRange(st: State, i: nat, e: Expression.Emotion)
    requires i < |st.summaries|
    requires forall m: Metric :: InUnit(SummaryValue(st.summaries[i], m))
    ensures var c := ExportSession(st).summaries[i];
            && 0 <= c.expressionConfidence <= 100
            && 0 <= c.postureConfidence <= 100
            && 0 <= c.eyeContactConfidence <= 100
            && 0 <= c.poseConfidence <= 100
            && 0 <= PercentOf(c.emotions, e) <= 100
  {
    var s := st.summaries[i];
    assert InUnit(SummaryValue(s, PoseConf));
    assert InUnit(SummaryValue(s, ExpressionConf));
    assert InUnit(SummaryValue(s, PostureConf));
    assert InUnit(SummaryValue(s, EyeContactConf));
    assert InUnit(SummaryValue(s, EmotionShare(e)));
  }

  /** Exporting a stopped session lists the same cycles as before the stop. */
  lemma ExportSurvivesStop(st: State)
    ensures ExportSession(Stop(st)) == ExportSession(st)
  {
  }

  /** Confidences exactly one half of a percentage point round up. */
  lemma PercentRoundsHalfUp()
    ensures Percent(0.125) == 13 && Percent(0.124) == 12 && Percent(1.0) == 100
  {
    RoundHalfUpUnique(12.5, 13);
    RoundHalfUpUnique(12.4, 12);
    RoundHalfUpUnique(100.0, 100);
  }
}
