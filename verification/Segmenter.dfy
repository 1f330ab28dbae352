/**
 * The transmission segmenter of backend/app/audio/segmenter.py: the class with its
 * in-place buffers, and the function of one frame it computes.
 *
 * Durations are exact reals in milliseconds, byte buffers are sequences of bytes.
 */
module Segmenter {
  import opened Common
  import opened Rtp

  datatype Mode = Idle | Recording | Tail

  datatype Reason = SilenceTimeout | MaxSegment | SourceShutdown | Force

  /** `bytesPerSample` stands for sample width times channels, the only way the two are used. */
  datatype Settings = Settings(
    preRollMs: int, postRollMs: int, minSpeechMs: int, silenceTimeoutMs: int, maxSegmentMs: int,
    sampleRate: int, bytesPerSample: int)
  {
    function PrebufferSamples(): int {
      Truncate(preRollMs as real / 1000.0 * sampleRate as real)
    }

    function PrebufferBytes(): int {
      PrebufferSamples() * bytesPerSample
    }

    /** The silence that ends a transmission: never less than the post-roll. */
    function FinalizeSilenceMs(): real {
      (if postRollMs > silenceTimeoutMs then postRollMs else silenceTimeoutMs) as real
    }
  }

  /** Sizes the source divides by. */
  type Config = c: Settings | c.sampleRate > 0 && c.bytesPerSample > 0
    witness Settings(400, 800, 250, 1000, 60000, 8000, 2)

  datatype Frame = Frame(pcm: seq<Byte>, speech: bool, at: real)

  datatype Segment = Segment(
    pcm: seq<Byte>, startedAt: real, endedAt: real, durationMs: real, reason: Reason, preRollMs: real, speechMs: real)

  datatype State = State(
    mode: Mode, prebuffer: seq<seq<Byte>>, prebufferMs: real, pending: seq<Byte>, pendingMs: real,
    recording: seq<Byte>, recordingMs: real, silenceMs: real, startedAt: Option<real>)

  const INITIAL := State(Idle, [], 0.0, [], 0.0, [], 0.0, 0.0, None)

  /** Python's `int(x)`. */
  function Truncate(x: real): int {
    if x >= 0.0 then x.Floor else -(-x).Floor
  }

  function FrameMs(c: Config, size: nat): real {
    (size / c.bytesPerSample) as real / c.sampleRate as real * 1000.0
  }

  /** A frame lasts a second for every `sampleRate` whole samples in it. */
  lemma FrameMsOfSamples(c: Config, size: nat)
    ensures FrameMs(c, size) * c.sampleRate as real == 1000.0 * (size / c.bytesPerSample) as real
  {
    var samples, rate := (size / c.bytesPerSample) as real, c.sampleRate as real;
    assert samples / rate * rate == samples;
    assert FrameMs(c, size) * rate == samples / rate * rate * 1000.0;
  }

  /** 320 bytes of 16-bit mono audio at 8000 Hz last 20 ms; 13 such frames pass the default minimum of 250 ms. */
  lemma TelephoneFrame(c: Config)
    requires c.sampleRate == 8000 && c.bytesPerSample == 2
    ensures FrameMs(c, 320) == 20.0 && FrameMs(c, 321) == 20.0 && FrameMs(c, 1) == 0.0
  {
  }

  /** The pre-roll budget is the whole samples of the configured time, cut towards zero. */
  lemma PrebufferBudget(c: Config)
    ensures c.preRollMs >= 0 ==>
              c.PrebufferSamples() as real * 1000.0 <= c.preRollMs as real * c.sampleRate as real
              < (c.PrebufferSamples() + 1) as real * 1000.0
    ensures c.preRollMs <= 0 ==> c.PrebufferSamples() <= 0
    ensures c.PrebufferBytes() == c.PrebufferSamples() * c.bytesPerSample
  {
    var exact := c.preRollMs as real / 1000.0 * c.sampleRate as real;
    assert exact * 1000.0 == c.preRollMs as real * c.sampleRate as real;
    SignOfProduct(c.preRollMs as real / 1000.0, c.sampleRate as real);
  }

  lemma SignOfProduct(x: real, y: real)
    requires y > 0.0
    ensures x >= 0.0 ==> x * y >= 0.0
    ensures x <= 0.0 ==> x * y <= 0.0
  {
  }

  /** A transmission ends after the timeout, but never before the post-roll is in. */
  lemma SilenceCoversBoth(c: Config)
    ensures c.FinalizeSilenceMs() >= c.postRollMs as real && c.FinalizeSilenceMs() >= c.silenceTimeoutMs as real
    ensures c.FinalizeSilenceMs() == c.postRollMs as real || c.FinalizeSilenceMs() == c.silenceTimeoutMs as real
  {
  }

  function Join(chunks: seq<seq<Byte>>): seq<Byte> {
    if chunks == [] then [] else Join(chunks[..|chunks| - 1]) + chunks[|chunks| - 1]
  }

  function TotalBytes(chunks: seq<seq<Byte>>): nat {
    if chunks == [] then 0 else TotalBytes(chunks[..|chunks| - 1]) + |chunks[|chunks| - 1]|
  }

  function SumMs(c: Config, chunks: seq<seq<Byte>>): real {
    if chunks == [] then 0.0 else SumMs(c, chunks[..|chunks| - 1]) + FrameMs(c, |chunks[|chunks| - 1]|)
  }

  // ----- specification of one frame

  /** Oldest chunks dropped while the budget of bytes is exceeded and more than one is left. */
  function Trimmed(budget: int, chunks: seq<seq<Byte>>): seq<seq<Byte>> {
    if TotalBytes(chunks) > budget && |chunks| > 1 then Trimmed(budget, chunks[1..]) else chunks
  }

  function Pushed(c: Config, s: State, pcm: seq<Byte>): State {
    var kept := Trimmed(c.PrebufferBytes(), s.prebuffer + [pcm]);
    s.(prebuffer := kept,
       prebufferMs := s.prebufferMs + FrameMs(c, |pcm|) - DroppedMs(c, c.PrebufferBytes(), s.prebuffer + [pcm]))
  }

  function DroppedMs(c: Config, budget: int, chunks: seq<seq<Byte>>): real {
    if TotalBytes(chunks) > budget && |chunks| > 1
    then FrameMs(c, |chunks[0]|) + DroppedMs(c, budget, chunks[1..])
    else 0.0
  }

  function Started(s: State, at: real): State {
    var lead := s.prebufferMs + s.pendingMs;
    State(Recording, [], 0.0, [], 0.0, Join(s.prebuffer) + s.pending, lead, 0.0, Some(at - lead))
  }

  function Finalized(c: Config, s: State, reason: Reason, at: real): Segment {
    var speech := s.recordingMs - s.silenceMs;
    Segment(s.recording, s.startedAt.GetOr(at), at, s.recordingMs, reason, c.preRollMs as real,
            if speech > 0.0 then speech else 0.0)
  }

  function Processed(c: Config, s: State, f: Frame): (State, Option<Segment>) {
    var ms := FrameMs(c, |f.pcm|);
    match s.mode
    case Idle =>
      if f.speech then
        var next := s.(pending := s.pending + f.pcm, pendingMs := s.pendingMs + ms);
        (if next.pendingMs >= c.minSpeechMs as real then Started(next, f.at) else next, None)
      else
        (Pushed(c, s, f.pcm).(pending := [], pendingMs := 0.0), None)
    case _ =>
      var next := s.(mode := if f.speech then Recording else Tail,
                     recording := s.recording + f.pcm,
                     recordingMs := s.recordingMs + ms,
                     silenceMs := if f.speech then 0.0 else if s.mode == Recording then ms else s.silenceMs + ms);
      if s.mode == Tail && !f.speech && next.silenceMs >= c.FinalizeSilenceMs() then
        (INITIAL, Some(Finalized(c, next, SilenceTimeout, f.at)))
      else if next.recordingMs >= c.maxSegmentMs as real then
        (INITIAL, Some(Finalized(c, next, MaxSegment, f.at)))
      else
        (next, None)
  }

  function Interrupted(c: Config, s: State, reason: Reason, at: real): (State, Option<Segment>) {
    if s.mode == Idle then (s, None) else (INITIAL, Some(Finalized(c, s, reason, at)))
  }

  // ----- the segmenter

  class TransmissionSegmenter {
    const config: Config
    var mode: Mode
    var prebuffer: seq<seq<Byte>>
    var prebufferMs: real
    var pending: seq<Byte>
    var pendingMs: real
    var recording: seq<Byte>
    var recordingMs: real
    var silenceMs: real
    var startedAt: Option<real>

    function Contents(): State
      reads this
    {
      State(mode, prebuffer, prebufferMs, pending, pendingMs, recording, recordingMs, silenceMs, startedAt)
    }

    constructor (config: Config)
      ensures this.config == config && Contents() == INITIAL
    {
      this.config := config;
      mode, startedAt := Idle, None;
      prebuffer, prebufferMs := [], 0.0;
      pending, pendingMs := [], 0.0;
      recording, recordingMs, silenceMs := [], 0.0, 0.0;
    }

    method Process(pcm: seq<Byte>, vadActive: bool, now: real) returns (result: Option<Segment>)
      modifies this
      ensures (Contents(), result) == Processed(config, old(Contents()), Frame(pcm, vadActive, now))
    {
      var frameMs := FrameMs(config, |pcm|);
      result := None;
      if mode == Idle {
        if vadActive {
          pending := pending + pcm;
          pendingMs := pendingMs + frameMs;
          if pendingMs >= config.minSpeechMs as real {
            StartRecording(now);
          }
        } else {
          PushPrebuffer(pcm, frameMs);
          pending := [];
          pendingMs := 0.0;
        }
        return;
      }
      if mode == Recording {
        recording := recording + pcm;
        recordingMs := recordingMs + frameMs;
        if vadActive {
          silenceMs := 0.0;
        } else {
          mode := Tail;
          silenceMs := frameMs;
        }
        if recordingMs >= config.maxSegmentMs as real {
          result := Finalize(MaxSegment, now);
        }
        return;
      }
      recording := recording + pcm;
      recordingMs := recordingMs + frameMs;
      if vadActive {
        mode := Recording;
        silenceMs := 0.0;
        if recordingMs >= config.maxSegmentMs as real {
          result := Finalize(MaxSegment, now);
        }
        return;
      }
      silenceMs := silenceMs + frameMs;
      if silenceMs >= config.FinalizeSilenceMs() {
        result := Finalize(SilenceTimeout, now);
        return;
      }
      if recordingMs >= config.maxSegmentMs as real {
        result := Finalize(MaxSegment, now);
      }
    }

    method ForceFinalize(reason: Reason, now: real) returns (result: Option<Segment>)
      modifies this
      ensures (Contents(), result) == Interrupted(config, old(Contents()), reason, now)
    {
      result := None;
      if mode == Recording || mode == Tail {
        result := Finalize(reason, now);
      }
    }

    method StartRecording(now: real)
      modifies this
      ensures Contents() == Started(old(Contents()), now)
    {
      var preMs, pendMs := prebufferMs, pendingMs;
      mode := Recording;
      recording := Join(prebuffer) + pending;
      recordingMs := preMs + pendMs;
      startedAt := Some(now - (preMs + pendMs));
      silenceMs := 0.0;
      pending := [];
      pendingMs := 0.0;
      prebuffer := [];
      prebufferMs := 0.0;
    }

    method PushPrebuffer(pcm: seq<Byte>, frameMs: real)
      requires frameMs == FrameMs(config, |pcm|)
      modifies this`prebuffer, this`prebufferMs
      ensures Contents() == Pushed(config, old(Contents()), pcm)
    {
      prebuffer := prebuffer + [pcm];
      prebufferMs := prebufferMs + frameMs;
      var maxBytes := config.PrebufferBytes();
      var total: int := TotalBytes(prebuffer);
      while total > maxBytes && |prebuffer| > 1
        invariant total == TotalBytes(prebuffer)
        invariant Trimmed(maxBytes, prebuffer) == Trimmed(maxBytes, old(prebuffer) + [pcm])
        invariant prebufferMs - DroppedMs(config, maxBytes, prebuffer)
                  == old(prebufferMs) + frameMs - DroppedMs(config, maxBytes, old(prebuffer) + [pcm])
        decreases |prebuffer|
      {
        TotalBytesFront(prebuffer);
        var oldest := prebuffer[0];
        prebuffer := prebuffer[1..];
        total := total - |oldest|;
        prebufferMs := prebufferMs - FrameMs(config, |oldest|);
      }
    }

    method Finalize(reason: Reason, now: real) returns (result: Option<Segment>)
      modifies this
      ensures Contents() == INITIAL
      ensures result == Some(Finalized(config, old(Contents()), reason, now))
    {
      var speech := recordingMs - silenceMs;
      result := Some(Segment(recording, startedAt.GetOr(now), now, recordingMs, reason, config.preRollMs as real,
                             if speech > 0.0 then speech else 0.0));
      Reset();
    }

    method Reset()
      modifies this
      ensures Contents() == INITIAL
    {
      mode := Idle;
      recording, recordingMs, silenceMs := [], 0.0, 0.0;
      startedAt := None;
      pending, pendingMs := [], 0.0;
      prebuffer, prebufferMs := [], 0.0;
    }
  }

  // ----- sums over chunks

  lemma {:induction false} TotalBytesFront(chunks: seq<seq<Byte>>)
    requires chunks != []
    ensures TotalBytes(chunks) == |chunks[0]| + TotalBytes(chunks[1..])
    decreases |chunks|
  {
    if |chunks| > 1 {
      TotalBytesFront(chunks[..|chunks| - 1]);
      assert chunks[..|chunks| - 1][1..] == chunks[1..][..|chunks| - 2];
    }
  }

  lemma {:induction false} SumMsFront(c: Config, chunks: seq<seq<Byte>>)
    requires chunks != []
    ensures SumMs(c, chunks) == FrameMs(c, |chunks[0]|) + SumMs(c, chunks[1..])
    decreases |chunks|
  {
    if |chunks| > 1 {
      SumMsFront(c, chunks[..|chunks| - 1]);
      assert chunks[..|chunks| - 1][1..] == chunks[1..][..|chunks| - 2];
    }
  }

  lemma Snoc<T>(a: seq<T>, b: seq<T>)
    requires b != []
    ensures (a + b)[..|a + b| - 1] == a + b[..|b| - 1]
    ensures (a + b)[|a + b| - 1] == b[|b| - 1]
  {
  }

  lemma Associative<T>(a: seq<T>, b: seq<T>, c: seq<T>)
    ensures a + b + c == a + (b + c)
  {
  }

  lemma {:induction false} JoinAppend(a: seq<seq<Byte>>, b: seq<seq<Byte>>)
    ensures Join(a + b) == Join(a) + Join(b)
    decreases |b|
  {
    if b == [] {
      assert a + b == a;
      assert Join(a) + [] == Join(a);
    } else {
      JoinAppend(a, b[..|b| - 1]);
      Snoc(a, b);
      Associative(Join(a), Join(b[..|b| - 1]), b[|b| - 1]);
    }
  }

  lemma {:induction false} SumMsAppend(c: Config, a: seq<seq<Byte>>, b: seq<seq<Byte>>)
    ensures SumMs(c, a + b) == SumMs(c, a) + SumMs(c, b)
    decreases |b|
  {
    if b == [] {
      assert a + b == a;
    } else {
      SumMsAppend(c, a, b[..|b| - 1]);
      Snoc(a, b);
    }
  }

  lemma FrameMsNonNegative(c: Config, size: nat)
    ensures FrameMs(c, size) >= 0.0
  {
    assert size / c.bytesPerSample >= 0;
  }

  lemma {:induction false} SumMsNonNegative(c: Config, chunks: seq<seq<Byte>>)
    ensures SumMs(c, chunks) >= 0.0
  {
    if chunks != [] {
      SumMsNonNegative(c, chunks[..|chunks| - 1]);
      FrameMsNonNegative(c, |chunks[|chunks| - 1]|);
    }
  }
}
