/** The analysis session: the ten-second window of frame records, the
    periodic reduction of that window into a cycle summary, the summary
    history, and the start/stop effects on them. */
module Session {
  import opened Landmarks
  import opened Holistic
  import opened Stats
  import opened Frame
  import Expression

  /** The window length in milliseconds. */
  const WindowMs: int := 10000

  // ---------------------------------------------------------------------
  // Window

  /** Whether a record survives a trim at clock reading `now`. */
  predicate InWindow(rec: FrameRecord, now: int)
  {
    rec.timestamp > now - WindowMs
  }

  /** `buf.filter(d => d.timestamp > now - 10000)`. */
  function Trim(buf: seq<FrameRecord>, now: int): (r: seq<FrameRecord>)
    ensures |r| <= |buf|
    ensures forall i :: 0 <= i < |r| ==> InWindow(r[i], now)
    ensures forall x :: x in r <==> x in buf && InWindow(x, now)
  {
    if |buf| == 0 then []
    else (if InWindow(buf[0], now) then [buf[0]] else []) + Trim(buf[1..], now)
  }

  /** Trimming distributes over concatenation, so it keeps the survivors in
      their original order. */
  lemma {:induction false} TrimConcat(a: seq<FrameRecord>, b: seq<FrameRecord>, now: int)
    ensures Trim(a + b, now) == Trim(a, now) + Trim(b, now)
  {
    if |a| > 0 {
      assert (a + b)[0] == a[0];
      assert (a + b)[1..] == a[1..] + b;
      TrimConcat(a[1..], b, now);
    } else {
      assert a + b == b;
    }
  }

  /** A buffer already inside the window is left alone. */
  lemma {:induction false} TrimKeepsWindow(buf: seq<FrameRecord>, now: int)
    requires forall i :: 0 <= i < |buf| ==> InWindow(buf[i], now)
    ensures Trim(buf, now) == buf
  {
    if |buf| > 0 {
      TrimKeepsWindow(buf[1..], now);
      assert [buf[0]] + buf[1..] == buf;
    }
  }

  lemma TrimIdempotent(buf: seq<FrameRecord>, now: int)
    ensures Trim(Trim(buf, now), now) == Trim(buf, now)
  {
    TrimKeepsWindow(Trim(buf, now), now);
  }

  /** `push(rec)` followed by the trim. */
  function Push(buf: seq<FrameRecord>, rec: FrameRecord, now: int): (r: seq<FrameRecord>)
    ensures r == Trim(buf, now) + (if InWindow(rec, now) then [rec] else [])
  {
    TrimConcat(buf, [rec], now);
    Trim(buf + [rec], now)
  }

  // ---------------------------------------------------------------------
  // Summary

  datatype CycleSummary = CycleSummary(
    timestamp: int,
    poseConfidence: real,
    faceDetected: bool,
    handsDetected: int,
    dominantHand: Hand,
    expression: string,
    expressionConfidence: real,
    emotions: Expression.Emotions,
    posture: string,
    postureConfidence: real,
    eyeContact: string,
    eyeContactConfidence: real)

  /** A numeric field of a record that the summary averages. */
  datatype Metric = PoseConf | ExpressionConf | PostureConf | EyeContactConf | EmotionShare(e: Expression.Emotion)

  function Value(rec: FrameRecord, m: Metric): real
  {
    match m
    case PoseConf => rec.poseConfidence
    case ExpressionConf => rec.expressionConfidence
    case PostureConf => rec.postureConfidence
    case EyeContactConf => rec.eyeContactConfidence
    case EmotionShare(e) => rec.emotions.Get(e)
  }

  /** The summary field that averages a metric. */
  function SummaryValue(s: CycleSummary, m: Metric): real
  {
    match m
    case PoseConf => s.poseConfidence
    case ExpressionConf => s.expressionConfidence
    case PostureConf => s.postureConfidence
    case EyeContactConf => s.eyeContactConfidence
    case EmotionShare(e) => s.emotions.Get(e)
  }

  /** The column of one metric across the window, in order. */
  function Column(buf: seq<FrameRecord>, m: Metric): (c: seq<real>)
    ensures |c| == |buf|
    ensures forall i :: 0 <= i < |buf| ==> c[i] == Value(buf[i], m)
  {
    seq(|buf|, i requires 0 <= i < |buf| => Value(buf[i], m))
  }

  function MeanOf(buf: seq<FrameRecord>, m: Metric): real
    requires |buf| > 0
  {
    Mean(Column(buf, m))
  }

  function HandColumn(buf: seq<FrameRecord>): (c: seq<real>)
    ensures |c| == |buf|
    ensures forall i :: 0 <= i < |buf| ==> c[i] == buf[i].handsDetected as real
  {
    seq(|buf|, i requires 0 <= i < |buf| => buf[i].handsDetected as real)
  }

  function Expressions(buf: seq<FrameRecord>): (c: seq<string>)
    ensures |c| == |buf| && forall i :: 0 <= i < |buf| ==> c[i] == buf[i].expression
  {
    seq(|buf|, i requires 0 <= i < |buf| => buf[i].expression)
  }

  function Postures(buf: seq<FrameRecord>): (c: seq<string>)
    ensures |c| == |buf| && forall i :: 0 <= i < |buf| ==> c[i] == buf[i].posture
  {
    seq(|buf|, i requires 0 <= i < |buf| => buf[i].posture)
  }

  function EyeContacts(buf: seq<FrameRecord>): (c: seq<string>)
    ensures |c| == |buf| && forall i :: 0 <= i < |buf| ==> c[i] == buf[i].eyeContact
  {
    seq(|buf|, i requires 0 <= i < |buf| => buf[i].eyeContact)
  }

  function Hands(buf: seq<FrameRecord>): (c: seq<Hand>)
    ensures |c| == |buf| && forall i :: 0 <= i < |buf| ==> c[i] == buf[i].dominantHand
  {
    seq(|buf|, i requires 0 <= i < |buf| => buf[i].dominantHand)
  }

  /** `buf.filter(d => d.faceDetected).length`. */
  function FaceCount(buf: seq<FrameRecord>): (n: nat)
    ensures n <= |buf|
  {
    if |buf| == 0 then 0
    else FaceCount(buf[..|buf| - 1]) + (if buf[|buf| - 1].faceDetected then 1 else 0)
  }

  /** Left if more records name the left hand, right if more name the
      right, none on a tie; records naming no hand do not vote. */
  function HandVote(buf: seq<FrameRecord>): (h: Hand)
    ensures h == Left <==> Count(Hands(buf), Left) > Count(Hands(buf), Right)
    ensures h == Right <==> Count(Hands(buf), Right) > Count(Hands(buf), Left)
    ensures h == NoHand <==> Count(Hands(buf), Left) == Count(Hands(buf), Right)
  {
    var left := Count(Hands(buf), Left);
    var right := Count(Hands(buf), Right);
    if left > right then Left else if right > left then Right else NoHand
  }

  function AverageEmotions(buf: seq<FrameRecord>): Expression.Emotions
    requires |buf| > 0
  {
    Expression.Emotions(
      MeanOf(buf, EmotionShare(Expression.Happy)), MeanOf(buf, EmotionShare(Expression.Sad)),
      MeanOf(buf, EmotionShare(Expression.Angry)), MeanOf(buf, EmotionShare(Expression.Surprised)),
      MeanOf(buf, EmotionShare(Expression.Fearful)), MeanOf(buf, EmotionShare(Expression.Disgusted)),
      MeanOf(buf, EmotionShare(Expression.Neutral)))
  }

  /** The share of records with a face. */
  function FaceRate(buf: seq<FrameRecord>): real
    requires |buf| > 0
  {
    (FaceCount(buf) as real) / (|buf| as real)
  }

  /** The mean number of detected hands. */
  function MeanHands(buf: seq<FrameRecord>): real
    requires |buf| > 0
  {
    Mean(HandColumn(buf))
  }

  /** The reduction of a non-empty window into one cycle summary, stamped
      with the clock reading `now`. */
  function Summarize(buf: seq<FrameRecord>, now: int): (s: CycleSummary)
    requires |buf| > 0
    ensures s.timestamp == now
    ensures s.faceDetected <==> 2 * FaceCount(buf) > |buf|
    ensures RoundsTo(MeanHands(buf), s.handsDetected)
    ensures s.dominantHand == HandVote(buf)
    ensures IsEarliestPlurality(Expressions(buf), s.expression)
    ensures IsEarliestPlurality(Postures(buf), s.posture)
    ensures IsEarliestPlurality(EyeContacts(buf), s.eyeContact)
  {
    FaceRateMajority(buf);
    CycleSummary(
      now,
      MeanOf(buf, PoseConf),
      FaceRate(buf) > 0.5,
      RoundHalfUp(MeanHands(buf)),
      HandVote(buf),
      MostCommon(Expressions(buf)),
      MeanOf(buf, ExpressionConf),
      AverageEmotions(buf),
      MostCommon(Postures(buf)),
      MeanOf(buf, PostureConf),
      MostCommon(EyeContacts(buf)),
      MeanOf(buf, EyeContactConf))
  }

  // ---------------------------------------------------------------------
  // Session

  /** The hook's mutable state: the window, the summary history, the frame
      counter, whether the camera is streaming, the clock reading the
      session started at (none once stopped) and the elapsed whole seconds
      on display. */
  datatype State = State(
    buffer: seq<FrameRecord>,
    summaries: seq<CycleSummary>,
    frameCount: nat,
    streaming: bool,
    startMs: Option<int>,
    elapsed: int)

  const Initial: State := State([], [], 0, false, None, 0)

  /** One processed frame: count it, push its record, trim the window. The
      record is stamped `stamp` and the trim reads the clock again as `now`. */
  function ProcessFrame(s: State, r: HolisticResults, stamp: int, now: int): (s': State)
    requires FrameDefined(r)
    ensures s'.frameCount == s.frameCount + 1
    ensures s'.summaries == s.summaries && s'.streaming == s.streaming
    ensures s'.startMs == s.startMs && s'.elapsed == s.elapsed
    ensures forall i :: 0 <= i < |s'.buffer| ==> s'.buffer[i].timestamp > now - WindowMs
    ensures s'.buffer == Trim(s.buffer, now) + (if InWindow(Record(r, stamp), now) then [Record(r, stamp)] else [])
  {
    s.(buffer := Push(s.buffer, Record(r, stamp), now), frameCount := s.frameCount + 1)
  }

  /** The ten-second tick: nothing on an empty window, otherwise one new
      summary appended to the history. */
  function Aggregate(s: State, now: int): (s': State)
    ensures |s.buffer| == 0 ==> s' == s
    ensures |s.buffer| > 0 ==> |s'.summaries| == |s.summaries| + 1
    ensures |s.buffer| > 0 ==> s'.summaries[|s.summaries|] == Summarize(s.buffer, now)
    ensures s'.summaries[..|s.summaries|] == s.summaries
    ensures s'.buffer == s.buffer && s'.frameCount == s.frameCount && s'.streaming == s.streaming
    ensures s'.startMs == s.startMs && s'.elapsed == s.elapsed
  {
    if |s.buffer| == 0 then s
    else s.(summaries := s.summaries + [Summarize(s.buffer, now)])
  }

  /** `Math.floor((now - start) / 1000)`: whole seconds, rounded down, also
      when the clock reads earlier than the start. */
  function ElapsedSeconds(startMs: int, now: int): (secs: int)
    ensures secs * 1000 <= now - startMs < secs * 1000 + 1000
  {
    (now - startMs) / 1000
  }

  /** The one-second tick: recompute the elapsed time while a start time is
      recorded, otherwise nothing. */
  function Tick(s: State, now: int): (s': State)
    ensures s.startMs.None? ==> s' == s
    ensures s.startMs.Some? ==> s'.elapsed == ElapsedSeconds(s.startMs.value, now)
    ensures s'.buffer == s.buffer && s'.summaries == s.summaries && s'.frameCount == s.frameCount
    ensures s'.streaming == s.streaming && s'.startMs == s.startMs
  {
    if s.startMs.Some? then s.(elapsed := ElapsedSeconds(s.startMs.value, now)) else s
  }

  /** Starting the camera turns streaming on and restarts the clock at
      `now`; the window and the history carry over. */
  function Start(s: State, now: int): (s': State)
    ensures s'.streaming && s'.startMs == Some(now) && s'.elapsed == 0
    ensures s'.buffer == s.buffer && s'.summaries == s.summaries && s'.frameCount == s.frameCount
  {
    s.(streaming := true, startMs := Some(now), elapsed := 0)
  }

  /** Stopping empties the window and the frame counter and forgets the
      start time, but keeps the history and the last elapsed time shown. */
  function Stop(s: State): (s': State)
    ensures s'.buffer == [] && s'.frameCount == 0 && !s'.streaming && s'.startMs.None?
    ensures s'.summaries == s.summaries && s'.elapsed == s.elapsed
  {
    State([], s.summaries, 0, false, None, s.elapsed)
  }

  // ---------------------------------------------------------------------
  // Properties

  /** After a push the window is exactly the in-window records of the old
      window followed by the new one, in their original order. */
  lemma PushIsFilteredAppend(buf: seq<FrameRecord>, rec: FrameRecord, now: int)
    ensures Push(buf, rec, now) == Trim(buf, now) + (if InWindow(rec, now) then [rec] else [])
    ensures forall x :: x in Push(buf, rec, now) <==> (x in buf || x == rec) && InWindow(x, now)
  {
  }

  /** A window that was inside the previous trim, pushed with a record
      stamped no earlier than that trim, grows by exactly that record while
      the clock has not moved. */
  lemma PushSameInstant(buf: seq<FrameRecord>, rec: FrameRecord, now: int)
    requires forall i :: 0 <= i < |buf| ==> InWindow(buf[i], now)
    requires rec.timestamp == now
    ensures Push(buf, rec, now) == buf + [rec]
  {
    TrimKeepsWindow(buf, now);
  }

  /** Summary confidences and emotion shares are the arithmetic means of the
      window's columns. */
  lemma SummaryMeans(buf: seq<FrameRecord>, now: int, m: Metric)
    requires |buf| > 0
    ensures IsMean(SummaryValue(Summarize(buf, now), m), Column(buf, m))
  {
    SummaryValueIsMeanOf(buf, now, m);
    MeanTimesCount(Column(buf, m));
  }

  lemma SummaryValueIsMeanOf(buf: seq<FrameRecord>, now: int, m: Metric)
    requires |buf| > 0
    ensures SummaryValue(Summarize(buf, now), m) == MeanOf(buf, m)
  {
    var s := Summarize(buf, now);
    match m
    case PoseConf => assert s.poseConfidence == MeanOf(buf, PoseConf);
    case ExpressionConf => assert s.expressionConfidence == MeanOf(buf, ExpressionConf);
    case PostureConf => assert s.postureConfidence == MeanOf(buf, PostureConf);
    case EyeContactConf => assert s.eyeContactConfidence == MeanOf(buf, EyeContactConf);
    case EmotionShare(e) =>
      assert s.emotions == AverageEmotions(buf);
      AverageEmotionsGet(buf, e);
  }

  lemma AverageEmotionsGet(buf: seq<FrameRecord>, e: Expression.Emotion)
    requires |buf| > 0
    ensures AverageEmotions(buf).Get(e) == MeanOf(buf, EmotionShare(e))
  {
  }

  /** The mean of a column of in-range records is in [0, 1]. */
  lemma MeanOfInUnit(buf: seq<FrameRecord>, m: Metric)
    requires |buf| > 0
    requires forall i :: 0 <= i < |buf| ==> ValidRecord(buf[i])
    ensures InUnit(MeanOf(buf, m))
  {
    forall i | 0 <= i < |buf| ensures 0.0 <= Column(buf, m)[i] <= 1.0 {
      assert ValidRecord(buf[i]);
    }
    MeanBounds(Column(buf, m), 0.0, 1.0);
  }

  /** The rounded mean of in-range hand counts is 0, 1 or 2. */
  lemma RoundedHandsInRange(buf: seq<FrameRecord>)
    requires |buf| > 0
    requires forall i :: 0 <= i < |buf| ==> ValidRecord(buf[i])
    ensures 0 <= RoundHalfUp(MeanHands(buf)) <= 2
  {
    forall i | 0 <= i < |buf| ensures 0.0 <= HandColumn(buf)[i] <= 2.0 {
      assert ValidRecord(buf[i]);
    }
    MeanBounds(HandColumn(buf), 0.0, 2.0);
    RoundHalfUpBounds(MeanHands(buf), 0, 2);
  }

  /** Averages of in-range records stay in range. */
  lemma SummaryInRange(buf: seq<FrameRecord>, now: int)
    requires |buf| > 0
    requires forall i :: 0 <= i < |buf| ==> ValidRecord(buf[i])
    ensures forall m: Metric :: InUnit(SummaryValue(Summarize(buf, now), m))
    ensures 0 <= Summarize(buf, now).handsDetected <= 2
  {
    forall m: Metric ensures InUnit(SummaryValue(Summarize(buf, now), m)) {
      MeanOfInUnit(buf, m);
      SummaryValueIsMeanOf(buf, now, m);
    }
    RoundedHandsInRange(buf);
  }

  /** More than half the records had a face exactly when the face count
      doubled exceeds the window length. */
  lemma FaceRateMajority(buf: seq<FrameRecord>)
    requires |buf| > 0
    ensures FaceRate(buf) > 0.5 <==> 2 * FaceCount(buf) > |buf|
  {
    RatioAboveHalf(FaceCount(buf) as real, |buf| as real);
  }

  lemma RatioAboveHalf(c: real, n: real)
    requires n > 0.0
    ensures c / n > 0.5 <==> 2.0 * c > n
  {
    var rate := c / n;
    assert rate * n == c;
    if rate > 0.5 {
      assert (rate - 0.5) * n > 0.0;
    } else {
      assert (0.5 - rate) * n >= 0.0;
    }
  }

  /** The hand count is the window's mean hand count rounded half up. */
  lemma SummaryHandsRounded(buf: seq<FrameRecord>, now: int)
    requires |buf| > 0
    ensures IsMean(MeanHands(buf), HandColumn(buf))
    ensures RoundsTo(MeanHands(buf), Summarize(buf, now).handsDetected)
  {
    MeanTimesCount(HandColumn(buf));
  }

  /** History timestamps never go down when the clock does not. */
  predicate Chronological(h: seq<CycleSummary>)
  {
    forall i, j :: 0 <= i < j < |h| ==> h[i].timestamp <= h[j].timestamp
  }

  lemma ChronologicalAppend(h: seq<CycleSummary>, c: CycleSummary)
    requires Chronological(h)
    requires forall i :: 0 <= i < |h| ==> h[i].timestamp <= c.timestamp
    ensures Chronological(h + [c])
  {
  }

  /** A tick whose clock reading is no earlier than every summary so far
      keeps the history in time order. */
  lemma AggregateKeepsChronology(s: State, now: int)
    requires Chronological(s.summaries)
    requires forall i :: 0 <= i < |s.summaries| ==> s.summaries[i].timestamp <= now
    ensures Chronological(Aggregate(s, now).summaries)
  {
    if |s.buffer| > 0 {
      ChronologicalAppend(s.summaries, Summarize(s.buffer, now));
    }
  }

  /** A stop keeps every summary produced so far, and a tick after a stop
      produces none: the stopped session's window is empty. */
  lemma StopKeepsHistory(s: State, now: int)
    ensures Stop(Aggregate(s, now)).summaries == Aggregate(s, now).summaries
    ensures Aggregate(Stop(s), now) == Stop(s)
    ensures Tick(Stop(s), now) == Stop(s)
  {
  }

  /** The elapsed time a tick shows is the unique whole number of seconds
      that have fully passed since the start. */
  lemma ElapsedSecondsUnique(startMs: int, now: int, k: int)
    requires k * 1000 <= now - startMs < k * 1000 + 1000
    ensures ElapsedSeconds(startMs, now) == k
  {
  }

  /** Right after a start a tick within the first second still shows zero,
      and the shown time never goes down while the clock moves forward. */
  lemma TickAfterStart(s: State, t0: int, t1: int, t2: int)
    requires t0 <= t1 <= t2
    ensures t1 < t0 + 1000 ==> Tick(Start(s, t0), t1).elapsed == 0
    ensures Tick(Start(s, t0), t1).elapsed <= Tick(Start(s, t0), t2).elapsed
  {
    if t1 < t0 + 1000 {
      ElapsedSecondsUnique(t0, t1, 0);
    }
  }
}
