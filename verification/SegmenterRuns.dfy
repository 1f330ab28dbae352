/**
 * What the segmenter emits over a whole stream of labelled frames, however long, with
 * source interruptions at any point between frames.
 *
 * The stream `fs` is fixed; positions in it name frames. A segment is described by the
 * positions it uses: a pre-roll of non-speech positions followed by a contiguous block.
 */
module SegmenterRuns {
  import opened Common
  import opened Rtp
  import opened Segmenter

  // ----- positions of a stream

  function Range(a: nat, b: nat): (positions: seq<nat>)
    requires a <= b
    ensures |positions| == b - a
    ensures forall i :: 0 <= i < b - a ==> positions[i] == a + i
  {
    seq(b - a, i => a + i)
  }

  function PcmAt(fs: seq<Frame>, position: nat): seq<Byte> {
    if position < |fs| then fs[position].pcm else []
  }

  function Chunks(fs: seq<Frame>, positions: seq<nat>): (chunks: seq<seq<Byte>>)
    ensures |chunks| == |positions|
  {
    seq(|positions|, i requires 0 <= i < |positions| => PcmAt(fs, positions[i]))
  }

  function RangePcm(fs: seq<Frame>, a: nat, b: nat): seq<Byte>
    requires a <= b <= |fs|
  {
    if a == b then [] else RangePcm(fs, a, b - 1) + fs[b - 1].pcm
  }

  function RangeMs(c: Config, fs: seq<Frame>, a: nat, b: nat): real
    requires a <= b <= |fs|
  {
    if a == b then 0.0 else RangeMs(c, fs, a, b - 1) + FrameMs(c, |fs[b - 1].pcm|)
  }

  /** Where the run of frames labelled `speech` that ends at n began, looking back no further than lo. */
  function RunStart(fs: seq<Frame>, lo: nat, n: nat, speech: bool): (start: nat)
    requires lo <= n <= |fs|
    ensures lo <= start <= n
  {
    if n > lo && fs[n - 1].speech == speech then RunStart(fs, lo, n - 1, speech) else n
  }

  lemma {:induction false} RunStartIsMaximal(fs: seq<Frame>, lo: nat, n: nat, speech: bool)
    requires lo <= n <= |fs|
    ensures var start := RunStart(fs, lo, n, speech);
            && (forall i :: start <= i < n ==> fs[i].speech == speech)
            && (start > lo ==> fs[start - 1].speech != speech)
    decreases n
  {
    if n > lo && fs[n - 1].speech == speech {
      RunStartIsMaximal(fs, lo, n - 1, speech);
    }
  }

  /** The non-speech positions in [lo, n), in order. */
  function Quiet(fs: seq<Frame>, lo: nat, n: nat): (positions: seq<nat>)
    requires lo <= n <= |fs|
  {
    if lo == n then []
    else if fs[n - 1].speech then Quiet(fs, lo, n - 1)
    else Quiet(fs, lo, n - 1) + [n - 1]
  }

  lemma {:induction false} QuietIsOrdered(fs: seq<Frame>, lo: nat, n: nat)
    requires lo <= n <= |fs|
    ensures StrictlyIncreasing(Quiet(fs, lo, n))
    ensures forall i :: 0 <= i < |Quiet(fs, lo, n)| ==> lo <= Quiet(fs, lo, n)[i] < n && !fs[Quiet(fs, lo, n)[i]].speech
    ensures forall k :: lo <= k < n && !fs[k].speech ==> k in Quiet(fs, lo, n)
    decreases n
  {
    if lo < n {
      QuietIsOrdered(fs, lo, n - 1);
      var before := Quiet(fs, lo, n - 1);
      assert fs[n - 1].speech || Quiet(fs, lo, n) == before + [n - 1];
      forall k | lo <= k < n && !fs[k].speech ensures k in Quiet(fs, lo, n) {
        assert k == n - 1 || k in before;
      }
    }
  }

  function Last<T>(s: seq<T>, count: nat): seq<T>
    requires count <= |s|
  {
    s[|s| - count..]
  }

  // ----- what a segment should be

  /**
   * The longest suffix of the quiet positions that fits the pre-roll budget, or just the
   * last one when not even that fits.
   */
  ghost predicate IsPreRoll(budget: int, fs: seq<Frame>, quiet: seq<nat>, pre: seq<nat>) {
    && |pre| <= |quiet|
    && pre == Last(quiet, |pre|)
    && (quiet != [] ==> pre != [])
    && (|pre| > 1 ==> TotalBytes(Chunks(fs, pre)) <= budget)
    && forall k :: |pre| < k <= |quiet| ==> TotalBytes(Chunks(fs, Last(quiet, k))) > budget
  }

  /** The speech run that ends at n, counted from lo, has just reached the minimum. */
  ghost predicate Confirms(c: Config, fs: seq<Frame>, lo: nat, n: nat)
    requires lo < n <= |fs|
  {
    fs[n - 1].speech && RangeMs(c, fs, RunStart(fs, lo, n, true), n) >= c.minSpeechMs as real
  }

  /** No speech run counted from lo has reached the minimum after n frames or fewer. */
  ghost predicate Unconfirmed(c: Config, fs: seq<Frame>, lo: nat, n: nat)
    requires n <= |fs|
  {
    forall m :: lo < m <= n ==> !Confirms(c, fs, lo, m)
  }

  /** A transmission under way: where its search began, its pre-roll, and where it was confirmed. */
  datatype Take = Take(lo: nat, pre: seq<nat>, confirmed: nat) {
    ghost predicate Begun(c: Config, fs: seq<Frame>) {
      && lo < confirmed <= |fs|
      && Unconfirmed(c, fs, lo, confirmed - 1)
      && Confirms(c, fs, lo, confirmed)
      && IsPreRoll(c.PrebufferBytes(), fs, Quiet(fs, lo, confirmed), pre)
    }

    /** The block starts where the confirming speech run starts. */
    ghost function Start(fs: seq<Frame>): nat
      requires lo < confirmed <= |fs|
    {
      RunStart(fs, lo, confirmed, true)
    }

    ghost function Duration(c: Config, fs: seq<Frame>, n: nat): real
      requires lo < confirmed <= n <= |fs|
    {
      SumMs(c, Chunks(fs, pre)) + RangeMs(c, fs, Start(fs), n)
    }

    ghost function Pcm(fs: seq<Frame>, n: nat): seq<Byte>
      requires lo < confirmed <= n <= |fs|
    {
      Join(Chunks(fs, pre)) + RangePcm(fs, Start(fs), n)
    }

    ghost function TrailMs(c: Config, fs: seq<Frame>, n: nat): real
      requires confirmed <= n <= |fs|
    {
      RangeMs(c, fs, RunStart(fs, confirmed, n, false), n)
    }

    /** Silence of the full length, seen on a frame that does not open the silence. */
    ghost predicate SilenceEnds(c: Config, fs: seq<Frame>, n: nat)
      requires confirmed <= n <= |fs|
    {
      n - RunStart(fs, confirmed, n, false) >= 2 && TrailMs(c, fs, n) >= c.FinalizeSilenceMs()
    }

    ghost predicate Ends(c: Config, fs: seq<Frame>, n: nat)
      requires lo < confirmed <= n <= |fs|
    {
      SilenceEnds(c, fs, n) || Duration(c, fs, n) >= c.maxSegmentMs as real
    }

    /** Nothing has ended the transmission before n frames were fed. */
    ghost predicate OpenBefore(c: Config, fs: seq<Frame>, n: nat)
      requires lo < confirmed && n <= |fs|
    {
      forall m :: confirmed < m < n ==> !Ends(c, fs, m)
    }

    /** The segment that stops at n. */
    ghost function SegmentAt(c: Config, fs: seq<Frame>, n: nat, reason: Reason, at: real): Segment
      requires lo < confirmed <= n <= |fs|
    {
      Segment(Pcm(fs, n), fs[confirmed - 1].at - Duration(c, fs, confirmed), at, Duration(c, fs, n), reason,
                      c.preRollMs as real, Duration(c, fs, n) - TrailMs(c, fs, n))
    }

    /** The positions used by a segment that stops at n. */
    ghost function Used(fs: seq<Frame>, n: nat): seq<nat>
      requires lo < confirmed <= n <= |fs|
    {
      pre + Range(Start(fs), n)
    }
  }

  /** A segment as emitted after `hi` frames, by the last of them or by an interruption. */
  datatype Emission = Emission(segment: Segment, take: Take, hi: nat, interrupted: bool) {
    /** Everything about an emitted segment, in terms of the labelled stream alone. */
    ghost predicate Correct(c: Config, fs: seq<Frame>) {
      && take.Begun(c, fs)
      && take.confirmed <= hi <= |fs|
      && take.OpenBefore(c, fs, hi)
      && segment == take.SegmentAt(c, fs, hi, segment.reason, segment.endedAt)
      && if interrupted then hi == take.confirmed || !take.Ends(c, fs, hi)
         else
           && take.confirmed < hi
           && take.Ends(c, fs, hi)
           && segment.reason == (if take.SilenceEnds(c, fs, hi) then SilenceTimeout else MaxSegment)
           && segment.endedAt == fs[hi - 1].at
    }
  }

  // ----- runs

  datatype Choice = Feed | Interrupt(reason: Reason, at: real)

  datatype Trace = Trace(seg: State, fed: nat, take: Take, emitted: seq<Emission>)

  const START := Trace(INITIAL, 0, Take(0, [], 0), [])

  /** One input; the positions in `take` are bookkeeping that the segmenter does not have. */
  ghost function Step(c: Config, fs: seq<Frame>, t: Trace, choice: Choice): Trace {
    if choice.Feed? && t.fed >= |fs| then t
    else
      var (seg, result) := if choice.Interrupt? then Interrupted(c, t.seg, choice.reason, choice.at)
                           else Processed(c, t.seg, fs[t.fed]);
      var fed := if choice.Feed? then t.fed + 1 else t.fed;
      if result.Some? then
        Trace(seg, fed, Take(fed, [], fed), t.emitted + [Emission(result.value, t.take, fed, choice.Interrupt?)])
      else if choice.Feed? && t.seg.mode == Idle then
        var pre := t.take.pre + [t.fed];
        Trace(seg, fed,
              t.take.(confirmed := fed,
                      pre := if !fs[t.fed].speech && |seg.prebuffer| <= |pre| then Last(pre, |seg.prebuffer|)
                             else t.take.pre),
              t.emitted)
      else
        t.(seg := seg, fed := fed)
  }

  ghost function Run(c: Config, fs: seq<Frame>, choices: seq<Choice>): Trace {
    if choices == [] then START
    else Step(c, fs, Run(c, fs, choices[..|choices| - 1]), choices[|choices| - 1])
  }

  ghost predicate Searching(c: Config, fs: seq<Frame>, t: Trace)
    requires t.take.lo <= t.fed <= |fs|
  {
    var start := RunStart(fs, t.take.lo, t.fed, true);
    && Unconfirmed(c, fs, t.take.lo, t.fed)
    && IsPreRoll(c.PrebufferBytes(), fs, Quiet(fs, t.take.lo, t.fed), t.take.pre)
    && t.seg.prebuffer == Chunks(fs, t.take.pre)
    && t.seg.prebufferMs == SumMs(c, t.seg.prebuffer)
    && t.seg.pending == RangePcm(fs, start, t.fed)
    && t.seg.pendingMs == RangeMs(c, fs, start, t.fed)
  }

  ghost predicate Taking(c: Config, fs: seq<Frame>, t: Trace)
    requires t.fed <= |fs|
  {
    t.take.Begun(c, fs) && UnderWay(c, fs, t)
  }

  /** What a transmission has recorded since its confirmation. */
  ghost predicate UnderWay(c: Config, fs: seq<Frame>, t: Trace)
    requires t.fed <= |fs|
  {
    && t.take.lo < t.take.confirmed <= t.fed
    && t.take.OpenBefore(c, fs, t.fed)
    && (t.take.confirmed < t.fed ==> !t.take.Ends(c, fs, t.fed))
    && t.seg.mode == (if RunStart(fs, t.take.confirmed, t.fed, false) < t.fed then Tail else Recording)
    && t.seg.recording == t.take.Pcm(fs, t.fed)
    && t.seg.recordingMs == t.take.Duration(c, fs, t.fed)
    && t.seg.silenceMs == t.take.TrailMs(c, fs, t.fed)
    && t.seg.startedAt == Some(fs[t.take.confirmed - 1].at - t.take.Duration(c, fs, t.take.confirmed))
  }

  ghost predicate Tracks(c: Config, fs: seq<Frame>, t: Trace) {
    && t.take.lo <= t.fed <= |fs|
    && if t.seg.mode == Idle then Searching(c, fs, t) else Taking(c, fs, t)
  }

  // ----- preservation, one kind of step at a time

  lemma {:induction false} TrimKeepsLongestFit(budget: int, chunks: seq<seq<Byte>>)
    requires chunks != []
    ensures var kept := Trimmed(budget, chunks);
            && 1 <= |kept| <= |chunks|
            && kept == Last(chunks, |kept|)
            && (|kept| > 1 ==> TotalBytes(kept) <= budget)
            && (forall k :: |kept| < k <= |chunks| ==> TotalBytes(Last(chunks, k)) > budget)
    decreases |chunks|
  {
    if TotalBytes(chunks) > budget && |chunks| > 1 {
      var rest := chunks[1..];
      TrimKeepsLongestFit(budget, rest);
      LastOfLast(chunks, |rest|, |Trimmed(budget, rest)|);
      forall k | |Trimmed(budget, rest)| < k <= |chunks|
        ensures TotalBytes(Last(chunks, k)) > budget
      {
        if k < |chunks| {
          LastOfLast(chunks, |rest|, k);
        } else {
          assert Last(chunks, k) == chunks;
        }
      }
    }
  }

  lemma {:induction false} TrimDropsMs(c: Config, budget: int, chunks: seq<seq<Byte>>)
    ensures SumMs(c, Trimmed(budget, chunks)) == SumMs(c, chunks) - DroppedMs(c, budget, chunks)
    decreases |chunks|
  {
    if TotalBytes(chunks) > budget && |chunks| > 1 {
      TrimDropsMs(c, budget, chunks[1..]);
      SumMsFront(c, chunks);
    }
  }

  lemma LastOfAppend<T>(s: seq<T>, x: T, k: nat)
    requires k <= |s|
    ensures Last(s + [x], k + 1) == Last(s, k) + [x]
  {
  }

  lemma ChunksAppend(fs: seq<Frame>, positions: seq<nat>, n: nat)
    ensures Chunks(fs, positions + [n]) == Chunks(fs, positions) + [PcmAt(fs, n)]
  {
  }

  lemma ChunksLast(fs: seq<Frame>, positions: seq<nat>, k: nat)
    requires k <= |positions|
    ensures Chunks(fs, Last(positions, k)) == Last(Chunks(fs, positions), k)
  {
  }

  lemma LastOfLast<T>(s: seq<T>, j: nat, k: nat)
    requires k <= j <= |s|
    ensures Last(Last(s, j), k) == Last(s, k)
  {
  }

  /** What the trimmed buffer holds after the frame at n was pushed. */
  function PushedPositions(budget: int, fs: seq<Frame>, pre: seq<nat>, n: nat): seq<nat> {
    var kept := |Trimmed(budget, Chunks(fs, pre) + [PcmAt(fs, n)])|;
    if kept <= |pre| + 1 then Last(pre + [n], kept) else pre
  }

  lemma PushedChunks(budget: int, fs: seq<Frame>, pre: seq<nat>, n: nat)
    ensures |PushedPositions(budget, fs, pre, n)| == |Trimmed(budget, Chunks(fs, pre) + [PcmAt(fs, n)])| >= 1
    ensures Chunks(fs, PushedPositions(budget, fs, pre, n)) == Trimmed(budget, Chunks(fs, pre) + [PcmAt(fs, n)])
  {
    TrimKeepsLongestFit(budget, Chunks(fs, pre) + [PcmAt(fs, n)]);
    ChunksAppend(fs, pre, n);
    ChunksLast(fs, pre + [n], |Trimmed(budget, Chunks(fs, pre) + [PcmAt(fs, n)])|);
  }

  lemma PushKeepsPreRoll(budget: int, fs: seq<Frame>, quiet: seq<nat>, pre: seq<nat>, n: nat)
    requires IsPreRoll(budget, fs, quiet, pre)
    ensures IsPreRoll(budget, fs, quiet + [n], PushedPositions(budget, fs, pre, n))
  {
    var pre' := PushedPositions(budget, fs, pre, n);
    PushedChunks(budget, fs, pre, n);
    assert pre' == Last(quiet + [n], |pre'|) by {
      LastOfAppend(quiet, n, |pre|);
      LastOfLast(quiet + [n], |pre| + 1, |pre'|);
    }
    assert |pre'| > 1 ==> TotalBytes(Chunks(fs, pre')) <= budget by {
      TrimKeepsLongestFit(budget, Chunks(fs, pre) + [PcmAt(fs, n)]);
    }
    forall k | |pre'| < k <= |quiet + [n]|
      ensures TotalBytes(Chunks(fs, Last(quiet + [n], k))) > budget
    {
      LongerSuffixOverflows(budget, fs, quiet, pre, n, k);
    }
  }

  lemma LongerSuffixOverflows(budget: int, fs: seq<Frame>, quiet: seq<nat>, pre: seq<nat>, n: nat, k: nat)
    requires IsPreRoll(budget, fs, quiet, pre)
    requires |Trimmed(budget, Chunks(fs, pre) + [PcmAt(fs, n)])| < k <= |quiet| + 1
    ensures TotalBytes(Chunks(fs, Last(quiet + [n], k))) > budget
  {
    LastOfAppend(quiet, n, k - 1);
    ChunksAppend(fs, Last(quiet, k - 1), n);
    if k <= |pre| + 1 {
      TrimKeepsLongestFit(budget, Chunks(fs, pre) + [PcmAt(fs, n)]);
      LastOfLast(quiet, |pre|, k - 1);
      ChunksLast(fs, pre, k - 1);
      LastOfAppend(Chunks(fs, pre), PcmAt(fs, n), k - 1);
    } else {
      AppendingGrows(Chunks(fs, Last(quiet, k - 1)), PcmAt(fs, n));
    }
  }

  lemma AppendingGrows(chunks: seq<seq<Byte>>, x: seq<Byte>)
    ensures TotalBytes(chunks + [x]) == TotalBytes(chunks) + |x|
  {
    assert (chunks + [x])[..|chunks|] == chunks;
  }

  /** The duration kept beside the buffer stays the buffer's duration. */
  lemma PushKeepsMs(c: Config, s: State, pcm: seq<Byte>)
    requires s.prebufferMs == SumMs(c, s.prebuffer)
    ensures Pushed(c, s, pcm).prebufferMs == SumMs(c, Pushed(c, s, pcm).prebuffer)
  {
    var chunks := s.prebuffer + [pcm];
    TrimDropsMs(c, c.PrebufferBytes(), chunks);
    assert chunks[..|chunks| - 1] == s.prebuffer;
  }

  lemma IdleQuietStep(c: Config, fs: seq<Frame>, t: Trace)
    requires Tracks(c, fs, t) && t.seg.mode == Idle && t.fed < |fs| && !fs[t.fed].speech
    ensures Tracks(c, fs, Step(c, fs, t, Feed))
  {
    var t', budget := Step(c, fs, t, Feed), c.PrebufferBytes();
    QuietStepOfSearch(c, fs, t, budget);
    QuietStepSearches(c, fs, t, t', budget);
  }

  lemma QuietStepOfSearch(c: Config, fs: seq<Frame>, t: Trace, budget: int)
    requires t.fed < |fs| && !fs[t.fed].speech && t.seg.mode == Idle && budget == c.PrebufferBytes()
    requires t.seg.prebuffer == Chunks(fs, t.take.pre)
    ensures Step(c, fs, t, Feed)
            == Trace(Pushed(c, t.seg, fs[t.fed].pcm).(pending := [], pendingMs := 0.0), t.fed + 1,
                     t.take.(confirmed := t.fed + 1, pre := PushedPositions(budget, fs, t.take.pre, t.fed)), t.emitted)
  {
    PushedChunks(budget, fs, t.take.pre, t.fed);
  }

  /** What one more non-speech frame does to the quantities of a search. */
  lemma QuietAdvances(c: Config, fs: seq<Frame>, lo: nat, n: nat)
    requires lo <= n < |fs| && !fs[n].speech
    ensures Quiet(fs, lo, n + 1) == Quiet(fs, lo, n) + [n]
    ensures RunStart(fs, lo, n + 1, true) == n + 1 && !Confirms(c, fs, lo, n + 1)
    ensures RangePcm(fs, n + 1, n + 1) == [] && RangeMs(c, fs, n + 1, n + 1) == 0.0
  {
  }

  lemma QuietStepSearches(c: Config, fs: seq<Frame>, t: Trace, t': Trace, budget: int)
    requires t.take.lo <= t.fed < |fs| && Searching(c, fs, t) && !fs[t.fed].speech && budget == c.PrebufferBytes()
    requires t' == Trace(Pushed(c, t.seg, fs[t.fed].pcm).(pending := [], pendingMs := 0.0), t.fed + 1,
                         t.take.(confirmed := t.fed + 1, pre := PushedPositions(budget, fs, t.take.pre, t.fed)),
                         t.emitted)
    ensures Searching(c, fs, t')
  {
    QuietAdvances(c, fs, t.take.lo, t.fed);
    PushKeepsMs(c, t.seg, fs[t.fed].pcm);
    PushKeepsPreRoll(budget, fs, Quiet(fs, t.take.lo, t.fed), t.take.pre, t.fed);
    PushedChunks(budget, fs, t.take.pre, t.fed);
  }

  lemma IdleSpeechStep(c: Config, fs: seq<Frame>, t: Trace)
    requires Tracks(c, fs, t) && t.seg.mode == Idle && t.fed < |fs| && fs[t.fed].speech
    ensures Tracks(c, fs, Step(c, fs, t, Feed))
  {
    SpeechAdvances(c, fs, t.take.lo, t.fed);
    if Confirms(c, fs, t.take.lo, t.fed + 1) {
      TakeBegins(c, fs, t);
    } else {
      SearchGoesOn(c, fs, t);
    }
  }

  /** What one more speech frame does to the quantities of a search. */
  lemma SpeechAdvances(c: Config, fs: seq<Frame>, lo: nat, n: nat)
    requires lo <= n < |fs| && fs[n].speech
    ensures Quiet(fs, lo, n + 1) == Quiet(fs, lo, n)
    ensures var start := RunStart(fs, lo, n, true);
            && RunStart(fs, lo, n + 1, true) == start
            && RangePcm(fs, start, n + 1) == RangePcm(fs, start, n) + fs[n].pcm
            && RangeMs(c, fs, start, n + 1) == RangeMs(c, fs, start, n) + FrameMs(c, |fs[n].pcm|)
            && (Confirms(c, fs, lo, n + 1) <==> RangeMs(c, fs, start, n + 1) >= c.minSpeechMs as real)
  {
  }

  lemma SearchGoesOn(c: Config, fs: seq<Frame>, t: Trace)
    requires t.take.lo <= t.fed < |fs| && Searching(c, fs, t) && t.seg.mode == Idle && fs[t.fed].speech
    requires !Confirms(c, fs, t.take.lo, t.fed + 1)
    ensures var t' := Step(c, fs, t, Feed); t'.fed == t.fed + 1 && t'.take.lo == t.take.lo && t'.seg.mode == Idle
    ensures Searching(c, fs, Step(c, fs, t, Feed))
  {
    SpeechAdvances(c, fs, t.take.lo, t.fed);
  }

  lemma TakeBegins(c: Config, fs: seq<Frame>, t: Trace)
    requires t.take.lo <= t.fed < |fs| && Searching(c, fs, t) && t.seg.mode == Idle && fs[t.fed].speech
    requires Confirms(c, fs, t.take.lo, t.fed + 1)
    ensures var t' := Step(c, fs, t, Feed); t'.fed == t.fed + 1 && t'.take.lo == t.take.lo && t'.seg.mode != Idle
    ensures Taking(c, fs, Step(c, fs, t, Feed))
  {
    SpeechAdvances(c, fs, t.take.lo, t.fed);
  }

  lemma SilenceWithinBlock(c: Config, fs: seq<Frame>, take: Take, n: nat)
    requires take.lo < take.confirmed <= n <= |fs|
    ensures 0.0 <= take.TrailMs(c, fs, n) <= take.Duration(c, fs, n)
  {
    var trail := RunStart(fs, take.confirmed, n, false);
    RangeMsSplit(c, fs, take.Start(fs), trail, n);
    RangeMsNonNegative(c, fs, take.Start(fs), trail);
    RangeMsNonNegative(c, fs, trail, n);
    SumMsNonNegative(c, Chunks(fs, take.pre));
  }

  lemma {:induction false} RangeMsSplit(c: Config, fs: seq<Frame>, a: nat, m: nat, b: nat)
    requires a <= m <= b <= |fs|
    ensures RangeMs(c, fs, a, b) == RangeMs(c, fs, a, m) + RangeMs(c, fs, m, b)
    decreases b
  {
    if m < b {
      RangeMsSplit(c, fs, a, m, b - 1);
    }
  }

  lemma {:induction false} RangeMsNonNegative(c: Config, fs: seq<Frame>, a: nat, b: nat)
    requires a <= b <= |fs|
    ensures RangeMs(c, fs, a, b) >= 0.0
    decreases b
  {
    if a < b {
      RangeMsNonNegative(c, fs, a, b - 1);
      FrameMsNonNegative(c, |fs[b - 1].pcm|);
    }
  }

  /** What one more frame does to the quantities of a transmission. */
  lemma TakeAdvances(c: Config, fs: seq<Frame>, take: Take, n: nat)
    requires take.lo < take.confirmed <= n < |fs|
    ensures take.Pcm(fs, n + 1) == take.Pcm(fs, n) + fs[n].pcm
    ensures take.Duration(c, fs, n + 1) == take.Duration(c, fs, n) + FrameMs(c, |fs[n].pcm|)
    ensures RunStart(fs, take.confirmed, n + 1, false)
            == if fs[n].speech then n + 1 else RunStart(fs, take.confirmed, n, false)
    ensures take.TrailMs(c, fs, n + 1)
            == if fs[n].speech then 0.0 else take.TrailMs(c, fs, n) + FrameMs(c, |fs[n].pcm|)
    ensures RunStart(fs, take.confirmed, n, false) == n ==> take.TrailMs(c, fs, n) == 0.0
  {
    var start := take.Start(fs);
    assert RangePcm(fs, start, n + 1) == RangePcm(fs, start, n) + fs[n].pcm;
  }

  /** The step added one correct segment of the take that was under way, ending at hi, or none. */
  ghost predicate EmitsAtMostOne(c: Config, fs: seq<Frame>, t: Trace, t': Trace) {
    if t'.emitted == t.emitted then
      t'.take.lo == t.take.lo
    else
      && |t'.emitted| == |t.emitted| + 1
      && t'.emitted == t.emitted + [t'.emitted[|t.emitted|]]
      && t'.emitted[|t.emitted|].Correct(c, fs)
      && t'.emitted[|t.emitted|].take == t.take
      && t'.emitted[|t.emitted|].hi == t'.fed == t'.take.lo
  }

  /** Right after a finalisation the search starts over on an empty window. */
  lemma SearchStartsOver(c: Config, fs: seq<Frame>, n: nat, emitted: seq<Emission>)
    requires n <= |fs|
    ensures Tracks(c, fs, Trace(INITIAL, n, Take(n, [], n), emitted))
  {
  }

  /** The trace with one more frame in the transmission under way. */
  ghost function Extended(c: Config, fs: seq<Frame>, t: Trace): Trace
    requires t.take.lo < t.take.confirmed <= t.fed < |fs|
  {
    var n := t.fed + 1;
    t.(fed := n, seg := t.seg.(mode := if fs[t.fed].speech then Recording else Tail,
                               recording := t.take.Pcm(fs, n),
                               recordingMs := t.take.Duration(c, fs, n),
                               silenceMs := t.take.TrailMs(c, fs, n)))
  }

  lemma TakeContinuesStep(c: Config, fs: seq<Frame>, t: Trace)
    requires t.fed < |fs| && UnderWay(c, fs, t)
    requires !t.take.Ends(c, fs, t.fed + 1)
    ensures Step(c, fs, t, Feed) == Extended(c, fs, t)
  {
    TakeAdvances(c, fs, t.take, t.fed);
    assert Step(c, fs, t, Feed).take == t.take;
    assert Step(c, fs, t, Feed).seg == Extended(c, fs, t).seg;
  }

  lemma ExtendedIsUnderWay(c: Config, fs: seq<Frame>, t: Trace)
    requires t.fed < |fs| && UnderWay(c, fs, t)
    requires !t.take.Ends(c, fs, t.fed + 1)
    ensures UnderWay(c, fs, Extended(c, fs, t))
  {
    TakeAdvances(c, fs, t.take, t.fed);
    OpenAdvances(c, fs, t.take, t.fed);
  }

  lemma TakeContinues(c: Config, fs: seq<Frame>, t: Trace)
    requires Tracks(c, fs, t) && t.seg.mode != Idle && t.fed < |fs|
    requires !t.take.Ends(c, fs, t.fed + 1)
    ensures Tracks(c, fs, Step(c, fs, t, Feed))
    ensures EmitsAtMostOne(c, fs, t, Step(c, fs, t, Feed))
  {
    TakeContinuesStep(c, fs, t);
    ExtendedIsUnderWay(c, fs, t);
  }

  lemma OpenAdvances(c: Config, fs: seq<Frame>, take: Take, n: nat)
    requires take.lo < take.confirmed <= n < |fs|
    requires take.OpenBefore(c, fs, n) && (take.confirmed < n ==> !take.Ends(c, fs, n))
    ensures take.OpenBefore(c, fs, n + 1)
  {
  }

  lemma TakeEnds(c: Config, fs: seq<Frame>, t: Trace)
    requires t.fed < |fs| && UnderWay(c, fs, t)
    requires t.take.Ends(c, fs, t.fed + 1)
    ensures var reason := if t.take.SilenceEnds(c, fs, t.fed + 1) then SilenceTimeout else MaxSegment;
            Processed(c, t.seg, fs[t.fed])
            == (INITIAL, Some(Finalized(c, Extended(c, fs, t).seg, reason, fs[t.fed].at)))
  {
    TakeAdvances(c, fs, t.take, t.fed);
    var next := Extended(c, fs, t).seg;
    assert t.take.SilenceEnds(c, fs, t.fed + 1) <==>
           t.seg.mode == Tail && !fs[t.fed].speech && next.silenceMs >= c.FinalizeSilenceMs();
  }

  lemma FinalizedIsSegment(c: Config, fs: seq<Frame>, t: Trace, reason: Reason, at: real)
    requires t.take.lo < t.take.confirmed <= t.fed <= |fs|
    requires t.seg.recording == t.take.Pcm(fs, t.fed)
    requires t.seg.recordingMs == t.take.Duration(c, fs, t.fed)
    requires t.seg.silenceMs == t.take.TrailMs(c, fs, t.fed)
    requires t.seg.startedAt == Some(fs[t.take.confirmed - 1].at - t.take.Duration(c, fs, t.take.confirmed))
    ensures Finalized(c, t.seg, reason, at) == t.take.SegmentAt(c, fs, t.fed, reason, at)
  {
    SilenceWithinBlock(c, fs, t.take, t.fed);
  }

  ghost function Ending(c: Config, fs: seq<Frame>, t: Trace): Emission
    requires Tracks(c, fs, t) && t.seg.mode != Idle && t.fed < |fs|
  {
    var reason := if t.take.SilenceEnds(c, fs, t.fed + 1) then SilenceTimeout else MaxSegment;
    Emission(t.take.SegmentAt(c, fs, t.fed + 1, reason, fs[t.fed].at), t.take, t.fed + 1, false)
  }

  lemma EndingIsCorrect(c: Config, fs: seq<Frame>, t: Trace)
    requires Tracks(c, fs, t) && t.seg.mode != Idle && t.fed < |fs|
    requires t.take.Ends(c, fs, t.fed + 1)
    ensures Ending(c, fs, t).Correct(c, fs)
  {
  }

  lemma TakeEndsStep(c: Config, fs: seq<Frame>, t: Trace)
    requires Tracks(c, fs, t) && t.seg.mode != Idle && t.fed < |fs|
    requires t.take.Ends(c, fs, t.fed + 1)
    ensures Step(c, fs, t, Feed)
            == Trace(INITIAL, t.fed + 1, Take(t.fed + 1, [], t.fed + 1), t.emitted + [Ending(c, fs, t)])
    ensures Tracks(c, fs, Step(c, fs, t, Feed))
    ensures EmitsAtMostOne(c, fs, t, Step(c, fs, t, Feed))
  {
    TakeEnds(c, fs, t);
    FinalizedIsSegment(c, fs, Extended(c, fs, t), Ending(c, fs, t).segment.reason, fs[t.fed].at);
    EndingIsCorrect(c, fs, t);
    SearchStartsOver(c, fs, t.fed + 1, t.emitted + [Ending(c, fs, t)]);
  }

  lemma InterruptStep(c: Config, fs: seq<Frame>, t: Trace, reason: Reason, at: real)
    requires Tracks(c, fs, t)
    ensures Tracks(c, fs, Step(c, fs, t, Interrupt(reason, at)))
    ensures EmitsAtMostOne(c, fs, t, Step(c, fs, t, Interrupt(reason, at)))
  {
    if t.seg.mode != Idle {
      FinalizedIsSegment(c, fs, t, reason, at);
      var e := Emission(t.take.SegmentAt(c, fs, t.fed, reason, at), t.take, t.fed, true);
      assert Step(c, fs, t, Interrupt(reason, at)) == Trace(INITIAL, t.fed, Take(t.fed, [], t.fed), t.emitted + [e]);
      SearchStartsOver(c, fs, t.fed, t.emitted + [e]);
      assert e.Correct(c, fs);
    }
  }

  // ----- main theorems

  /** All positions used by the segments emitted so far, segment after segment. */
  ghost function UsedAll(fs: seq<Frame>, emitted: seq<Emission>): seq<nat>
  {
    if emitted == [] then []
    else
      var last := emitted[|emitted| - 1];
      UsedAll(fs, emitted[..|emitted| - 1])
      + if last.take.lo < last.take.confirmed <= last.hi <= |fs| then last.take.Used(fs, last.hi) else []
  }

  /** The pre-roll lies before the block and after the previous segment. */
  lemma PreRollPrecedesBlock(c: Config, fs: seq<Frame>, take: Take)
    requires take.Begun(c, fs)
    ensures StrictlyIncreasing(take.pre)
    ensures forall i :: 0 <= i < |take.pre| ==> take.lo <= take.pre[i] < take.Start(fs)
  {
    var quiet := Quiet(fs, take.lo, take.confirmed);
    QuietIsOrdered(fs, take.lo, take.confirmed);
    RunStartIsMaximal(fs, take.lo, take.confirmed, true);
    assert forall i :: 0 <= i < |take.pre| ==> take.pre[i] == quiet[|quiet| - |take.pre| + i];
  }

  lemma UsedIncreases(c: Config, fs: seq<Frame>, take: Take, n: nat)
    requires take.Begun(c, fs) && take.confirmed <= n <= |fs|
    ensures StrictlyIncreasing(take.Used(fs, n))
    ensures forall i :: 0 <= i < |take.Used(fs, n)| ==> take.lo <= take.Used(fs, n)[i] < n
  {
    PreRollPrecedesBlock(c, fs, take);
  }

  lemma ConcatIncreases(a: seq<nat>, b: seq<nat>, middle: nat)
    requires StrictlyIncreasing(a) && StrictlyIncreasing(b)
    requires forall i :: 0 <= i < |a| ==> a[i] < middle
    requires forall i :: 0 <= i < |b| ==> middle <= b[i]
    ensures StrictlyIncreasing(a + b)
  {
  }

  /** The segments emitted so far are correct and together use each frame at most once, in order. */
  ghost predicate AllCorrect(c: Config, fs: seq<Frame>, emitted: seq<Emission>, end: nat) {
    EachCorrect(c, fs, emitted) && UsedInOrder(fs, emitted, end)
  }

  ghost predicate EachCorrect(c: Config, fs: seq<Frame>, emitted: seq<Emission>) {
    forall e :: e in emitted ==> e.Correct(c, fs)
  }

  /** The positions used so far: each once, in order, before `end`. */
  ghost predicate UsedInOrder(fs: seq<Frame>, emitted: seq<Emission>, end: nat) {
    && StrictlyIncreasing(UsedAll(fs, emitted))
    && (forall i :: 0 <= i < |UsedAll(fs, emitted)| ==> UsedAll(fs, emitted)[i] < end)
  }

  function EndOf(emitted: seq<Emission>): nat {
    if emitted == [] then 0 else emitted[|emitted| - 1].hi
  }

  /** Each search began where the previous segment ended. */
  ghost predicate Chained(emitted: seq<Emission>) {
    emitted != [] ==>
      var n := |emitted| - 1;
      emitted[n].take.lo == EndOf(emitted[..n]) && Chained(emitted[..n])
  }

  lemma AllCorrectGrows(c: Config, fs: seq<Frame>, emitted: seq<Emission>, e: Emission)
    requires AllCorrect(c, fs, emitted, e.take.lo) && e.Correct(c, fs)
    ensures AllCorrect(c, fs, emitted + [e], e.hi)
  {
    EmissionUses(c, fs, e);
    UsedGrows(fs, emitted, e);
    EachCorrectGrows(c, fs, emitted, e);
  }

  lemma EachCorrectGrows(c: Config, fs: seq<Frame>, emitted: seq<Emission>, e: Emission)
    requires EachCorrect(c, fs, emitted) && e.Correct(c, fs)
    ensures EachCorrect(c, fs, emitted + [e])
  {
  }

  lemma EmissionUses(c: Config, fs: seq<Frame>, e: Emission)
    requires e.Correct(c, fs)
    ensures e.take.lo < e.take.confirmed <= e.hi <= |fs| && StrictlyIncreasing(e.take.Used(fs, e.hi))
    ensures forall i :: 0 <= i < |e.take.Used(fs, e.hi)| ==> e.take.lo <= e.take.Used(fs, e.hi)[i] < e.hi
  {
    UsedIncreases(c, fs, e.take, e.hi);
  }

  lemma UsedGrows(fs: seq<Frame>, emitted: seq<Emission>, e: Emission)
    requires e.take.lo < e.take.confirmed <= e.hi <= |fs| && UsedInOrder(fs, emitted, e.take.lo)
    requires StrictlyIncreasing(e.take.Used(fs, e.hi))
    requires forall i :: 0 <= i < |e.take.Used(fs, e.hi)| ==> e.take.lo <= e.take.Used(fs, e.hi)[i] < e.hi
    ensures UsedInOrder(fs, emitted + [e], e.hi)
  {
    assert (emitted + [e])[..|emitted|] == emitted;
    ConcatIncreases(UsedAll(fs, emitted), e.take.Used(fs, e.hi), e.take.lo);
  }

  lemma StepKeepsAllCorrect(c: Config, fs: seq<Frame>, t: Trace, t': Trace)
    requires AllCorrect(c, fs, t.emitted, t.take.lo) && EmitsAtMostOne(c, fs, t, t')
    ensures AllCorrect(c, fs, t'.emitted, t'.take.lo)
  {
    if t'.emitted != t.emitted {
      AllCorrectGrows(c, fs, t.emitted, t'.emitted[|t.emitted|]);
    }
  }

  lemma StepTracks(c: Config, fs: seq<Frame>, t: Trace, choice: Choice)
    requires Tracks(c, fs, t)
    ensures Tracks(c, fs, Step(c, fs, t, choice))
    ensures EmitsAtMostOne(c, fs, t, Step(c, fs, t, choice))
  {
    if choice.Interrupt? {
      InterruptStep(c, fs, t, choice.reason, choice.at);
    } else if t.fed < |fs| {
      if t.seg.mode == Idle {
        if fs[t.fed].speech {
          IdleSpeechStep(c, fs, t);
        } else {
          IdleQuietStep(c, fs, t);
        }
      } else if t.take.Ends(c, fs, t.fed + 1) {
        TakeEndsStep(c, fs, t);
      } else {
        TakeContinues(c, fs, t);
      }
    }
  }

  lemma StepKeepsChained(c: Config, fs: seq<Frame>, t: Trace, t': Trace)
    requires Chained(t.emitted) && EndOf(t.emitted) == t.take.lo
    requires EmitsAtMostOne(c, fs, t, t')
    ensures Chained(t'.emitted) && EndOf(t'.emitted) == t'.take.lo
  {
    assert t'.emitted != t.emitted ==> t'.emitted[..|t.emitted|] == t.emitted;
  }

  /**
   * Over every stream and every schedule of interruptions: each emitted segment is the
   * pre-roll and block its labels call for, and the segments together use each frame at
   * most once and in order.
   */
  lemma {:induction false} EmissionsAreCorrect(c: Config, fs: seq<Frame>, choices: seq<Choice>)
    ensures Tracks(c, fs, Run(c, fs, choices))
    ensures AllCorrect(c, fs, Run(c, fs, choices).emitted, Run(c, fs, choices).take.lo)
    ensures Chained(Run(c, fs, choices).emitted) && EndOf(Run(c, fs, choices).emitted) == Run(c, fs, choices).take.lo
  {
    if choices == [] {
      SearchStartsOver(c, fs, 0, []);
    } else {
      var t := Run(c, fs, choices[..|choices| - 1]);
      EmissionsAreCorrect(c, fs, choices[..|choices| - 1]);
      StepTracks(c, fs, t, choices[|choices| - 1]);
      StepKeepsAllCorrect(c, fs, t, Run(c, fs, choices));
      StepKeepsChained(c, fs, t, Run(c, fs, choices));
    }
  }

  /** The bytes of a segment are those of its positions, in order. */
  lemma SegmentBytesAreUsedFrames(c: Config, fs: seq<Frame>, e: Emission)
    requires e.Correct(c, fs)
    ensures e.segment.pcm == Join(Chunks(fs, e.take.Used(fs, e.hi)))
    ensures e.segment.durationMs == SumMs(c, Chunks(fs, e.take.Used(fs, e.hi)))
  {
    var start := e.take.Start(fs);
    var block := Range(start, e.hi);
    assert Chunks(fs, e.take.pre + block) == Chunks(fs, e.take.pre) + Chunks(fs, block);
    JoinAppend(Chunks(fs, e.take.pre), Chunks(fs, block));
    SumMsAppend(c, Chunks(fs, e.take.pre), Chunks(fs, block));
    RangeChunks(c, fs, start, e.hi);
  }

  lemma {:induction false} RangeChunks(c: Config, fs: seq<Frame>, a: nat, b: nat)
    requires a <= b <= |fs|
    ensures RangePcm(fs, a, b) == Join(Chunks(fs, Range(a, b)))
    ensures RangeMs(c, fs, a, b) == SumMs(c, Chunks(fs, Range(a, b)))
    decreases b
  {
    if a < b {
      RangeChunks(c, fs, a, b - 1);
      RangeGrows(fs, a, b);
    }
  }

  lemma RangeGrows(fs: seq<Frame>, a: nat, b: nat)
    requires a < b <= |fs|
    ensures var chunks := Chunks(fs, Range(a, b));
            chunks[..|chunks| - 1] == Chunks(fs, Range(a, b - 1)) && chunks[|chunks| - 1] == fs[b - 1].pcm
  {
  }

  // ----- bounds

  /** Byte rate: no frame lasts longer than its bytes at this rate. */
  function ByteRate(c: Config): real {
    c.sampleRate as real * c.bytesPerSample as real
  }

  lemma FrameMsBytes(c: Config, size: nat)
    ensures FrameMs(c, size) * ByteRate(c) <= size as real * 1000.0
  {
    var rate, width := c.sampleRate as real, c.bytesPerSample as real;
    var samples := size / c.bytesPerSample;
    assert samples * c.bytesPerSample <= size;
    assert samples as real * width == (samples * c.bytesPerSample) as real;
    assert samples as real / rate * rate == samples as real;
    assert FrameMs(c, size) * (rate * width) == samples as real / rate * rate * width * 1000.0;
  }

  lemma {:induction false} SumMsBytes(c: Config, chunks: seq<seq<Byte>>, rate: real)
    requires rate == ByteRate(c)
    ensures SumMs(c, chunks) * rate <= TotalBytes(chunks) as real * 1000.0
  {
    if chunks != [] {
      var n := |chunks| - 1;
      SumMsBytes(c, chunks[..n], rate);
      FrameMsBytes(c, |chunks[n]|);
      assert SumMs(c, chunks) * rate == SumMs(c, chunks[..n]) * rate + FrameMs(c, |chunks[n]|) * rate;
    }
  }

  lemma BudgetSamples(c: Config)
    requires c.preRollMs >= 0
    ensures c.PrebufferSamples() as real * 1000.0 <= c.preRollMs as real * c.sampleRate as real
  {
    ProductSign(c.preRollMs as real / 1000.0, c.sampleRate as real);
    assert c.preRollMs as real / 1000.0 * c.sampleRate as real * 1000.0 == c.preRollMs as real * c.sampleRate as real;
  }

  /** Chunks inside the byte budget last no longer than the configured pre-roll. */
  lemma BudgetIsPreRoll(c: Config, chunks: seq<seq<Byte>>)
    requires c.preRollMs >= 0 && TotalBytes(chunks) <= c.PrebufferBytes()
    ensures SumMs(c, chunks) <= c.preRollMs as real
  {
    var rate := ByteRate(c);
    SumMsBytes(c, chunks, rate);
    BudgetBound(c, SumMs(c, chunks), TotalBytes(chunks), rate);
  }

  lemma BudgetBound(c: Config, ms: real, bytes: nat, rate: real)
    requires c.preRollMs >= 0 && bytes <= c.PrebufferBytes() && rate == ByteRate(c)
    requires ms * rate <= bytes as real * 1000.0
    ensures ms <= c.preRollMs as real
  {
    BudgetSamples(c);
    BudgetArithmetic(ms, bytes, c.PrebufferSamples(), c.bytesPerSample, c.preRollMs as real, c.sampleRate as real);
  }

  lemma RealProduct(x: int, y: int)
    ensures (x * y) as real == x as real * y as real
  {
  }

  lemma BudgetArithmetic(ms: real, bytes: nat, samples: int, bytesPerSample: int, preRoll: real, rate: real)
    requires rate > 0.0 && bytesPerSample > 0
    requires ms * (rate * bytesPerSample as real) <= bytes as real * 1000.0
    requires bytes <= samples * bytesPerSample
    requires samples as real * 1000.0 <= preRoll * rate
    ensures ms <= preRoll
  {
    RealProduct(samples, bytesPerSample);
    BudgetInReals(ms, bytes as real, samples as real, preRoll, rate, bytesPerSample as real);
  }

  lemma BudgetInReals(ms: real, bytes: real, samples: real, preRoll: real, rate: real, width: real)
    requires rate > 0.0 && width > 0.0
    requires ms * (rate * width) <= bytes * 1000.0
    requires bytes <= samples * width
    requires samples * 1000.0 <= preRoll * rate
    ensures ms <= preRoll
  {
    ProductMonotone(samples * 1000.0, preRoll * rate, width);
    assert samples * 1000.0 * width == samples * width * 1000.0;
    assert preRoll * rate * width == preRoll * (rate * width);
    ProductSign(rate, width);
    CancelFactor(ms, preRoll, rate * width);
  }

  lemma ProductSign(x: real, y: real)
    requires x >= 0.0 && y > 0.0
    ensures x * y >= 0.0 && (x > 0.0 ==> x * y > 0.0)
  {
  }

  lemma ProductMonotone(x: real, y: real, z: real)
    requires x <= y && z > 0.0
    ensures x * z <= y * z
  {
  }

  lemma CancelFactor(x: real, y: real, z: real)
    requires z > 0.0 && x * z <= y * z
    ensures x <= y
  {
    if x > y {
      ProductSign(x - y, z);
      assert false;
    }
  }

  function Positive(x: int): int {
    if x < 0 then 0 else x
  }

  /** The frames are short enough for the configuration: `longest` bounds every frame's duration. */
  ghost predicate FramesFit(c: Config, fs: seq<Frame>, longest: real) {
    && (forall i :: 0 <= i < |fs| ==> FrameMs(c, |fs[i].pcm|) <= longest)
    && longest <= c.preRollMs as real
    && c.preRollMs as real + Positive(c.minSpeechMs) as real + longest <= c.maxSegmentMs as real
  }

  lemma PreRollIsShort(c: Config, fs: seq<Frame>, take: Take, longest: real)
    requires take.Begun(c, fs) && FramesFit(c, fs, longest)
    ensures SumMs(c, Chunks(fs, take.pre)) <= c.preRollMs as real
  {
    PreRollPrecedesBlock(c, fs, take);
    FrameMsNonNegative(c, |fs[take.lo].pcm|);
    var chunks := Chunks(fs, take.pre);
    if |chunks| > 1 {
      BudgetIsPreRoll(c, chunks);
    } else if |chunks| == 1 {
      assert chunks[..0] == [];
      assert chunks[0] == fs[take.pre[0]].pcm;
    }
  }

  lemma ConfirmingRunIsShort(c: Config, fs: seq<Frame>, take: Take, longest: real)
    requires take.Begun(c, fs) && FramesFit(c, fs, longest)
    ensures RangeMs(c, fs, take.Start(fs), take.confirmed) <= Positive(c.minSpeechMs) as real + longest
  {
    var n := take.confirmed - 1;
    assert FrameMs(c, |fs[n].pcm|) <= longest;
    assert take.Start(fs) == RunStart(fs, take.lo, n, true);
    if n > take.lo && fs[n - 1].speech {
      assert !Confirms(c, fs, take.lo, n);
    }
  }

  lemma TakeStartsShort(c: Config, fs: seq<Frame>, take: Take, longest: real)
    requires take.Begun(c, fs) && FramesFit(c, fs, longest)
    ensures take.Duration(c, fs, take.confirmed) <= c.maxSegmentMs as real
  {
    PreRollIsShort(c, fs, take, longest);
    ConfirmingRunIsShort(c, fs, take, longest);
  }

  /** No emitted segment is longer than the maximum plus one frame, whatever ended it. */
  lemma SegmentIsBounded(c: Config, fs: seq<Frame>, e: Emission, longest: real)
    requires e.Correct(c, fs) && FramesFit(c, fs, longest)
    ensures e.segment.durationMs <= c.maxSegmentMs as real + longest
  {
    TakeStartsShort(c, fs, e.take, longest);
    OpenTakeIsBounded(c, fs, e.take, e.hi, longest);
  }

  /** A transmission that started short and has not ended before n exceeds the maximum by one frame at most. */
  lemma OpenTakeIsBounded(c: Config, fs: seq<Frame>, take: Take, n: nat, longest: real)
    requires take.lo < take.confirmed <= n <= |fs| && take.OpenBefore(c, fs, n)
    requires FramesFit(c, fs, longest) && take.Duration(c, fs, take.confirmed) <= c.maxSegmentMs as real
    ensures take.Duration(c, fs, n) <= c.maxSegmentMs as real + longest
  {
    FrameMsNonNegative(c, |fs[n - 1].pcm|);
    assert FrameMs(c, |fs[n - 1].pcm|) <= longest;
    if take.confirmed < n {
      assert take.confirmed < n - 1 ==> !take.Ends(c, fs, n - 1);
      TakeAdvances(c, fs, take, n - 1);
    }
  }

  /** A segment ended by silence ends in a non-speech run of the full length, and holds no earlier one. */
  lemma SilenceSegmentShape(c: Config, fs: seq<Frame>, e: Emission, longest: real)
    requires e.Correct(c, fs) && FramesFit(c, fs, longest) && longest < c.FinalizeSilenceMs()
    requires !e.interrupted && e.segment.reason == SilenceTimeout
    ensures e.take.TrailMs(c, fs, e.hi) >= c.FinalizeSilenceMs()
    ensures forall i :: RunStart(fs, e.take.confirmed, e.hi, false) <= i < e.hi ==> !fs[i].speech
    ensures forall m :: e.take.confirmed <= m < e.hi ==> e.take.TrailMs(c, fs, m) < c.FinalizeSilenceMs()
  {
    FrameMsNonNegative(c, |fs[e.take.lo].pcm|);
    assert FrameMs(c, |fs[e.take.lo].pcm|) <= longest;
    RunStartIsMaximal(fs, e.take.confirmed, e.hi, false);
    forall m | e.take.confirmed <= m < e.hi
      ensures e.take.TrailMs(c, fs, m) < c.FinalizeSilenceMs()
    {
      assert e.take.confirmed < m ==> !e.take.Ends(c, fs, m);
      ShortTrail(c, fs, e.take, m, longest);
    }
  }

  /** As long as the silence rule has not fired, no non-speech run has reached its full length. */
  lemma ShortTrail(c: Config, fs: seq<Frame>, take: Take, m: nat, longest: real)
    requires take.lo < take.confirmed <= m <= |fs| && FramesFit(c, fs, longest)
    requires 0.0 <= longest < c.FinalizeSilenceMs()
    requires take.confirmed < m ==> !take.SilenceEnds(c, fs, m)
    ensures take.TrailMs(c, fs, m) < c.FinalizeSilenceMs()
  {
    var start := RunStart(fs, take.confirmed, m, false);
    if start == m - 1 {
      assert RangeMs(c, fs, start, m) == RangeMs(c, fs, start, start) + FrameMs(c, |fs[m - 1].pcm|);
      assert FrameMs(c, |fs[m - 1].pcm|) <= longest;
    }
  }

  // ----- silence brings the segmenter back to IDLE

  /** The state after the first n frames, from any state. */
  ghost function ProcessedAll(c: Config, s: State, fs: seq<Frame>, n: nat): State
    requires n <= |fs|
  {
    if n == 0 then s else Processed(c, ProcessedAll(c, s, fs, n - 1), fs[n - 1]).0
  }

  /**
   * From any state, non-speech frames from m on end a transmission once there are two of them
   * and they last the silence threshold; from then on the segmenter is IDLE.
   */
  lemma {:induction false} QuietReturnsToIdle(c: Config, s: State, fs: seq<Frame>, m: nat, n: nat)
    requires m <= n <= |fs| && (forall i :: m <= i < n ==> !fs[i].speech)
    requires var midway := ProcessedAll(c, s, fs, m); midway.mode == Tail ==> midway.silenceMs >= 0.0
    ensures var after := ProcessedAll(c, s, fs, n);
            && (n >= m + 2 && RangeMs(c, fs, m, n) >= c.FinalizeSilenceMs() ==> after.mode == Idle)
            && (ProcessedAll(c, s, fs, m).mode == Idle ==> after.mode == Idle)
            && (after.mode != Idle && n > m ==> after.mode == Tail && after.silenceMs >= RangeMs(c, fs, m, n))
    decreases n
  {
    if n > m {
      QuietReturnsToIdle(c, s, fs, m, n - 1);
      FrameMsNonNegative(c, |fs[n - 1].pcm|);
      QuietFrame(c, ProcessedAll(c, s, fs, n - 1), fs[n - 1]);
    }
  }

  /** One non-speech frame. */
  lemma QuietFrame(c: Config, s: State, f: Frame)
    requires !f.speech
    ensures var after, ms := Processed(c, s, f).0, FrameMs(c, |f.pcm|);
            && (s.mode == Idle || (s.mode == Tail && s.silenceMs + ms >= c.FinalizeSilenceMs()) ==> after.mode == Idle)
            && (after.mode != Idle ==>
                  after.mode == Tail && after.silenceMs == if s.mode == Tail then s.silenceMs + ms else ms)
  {
  }
}
