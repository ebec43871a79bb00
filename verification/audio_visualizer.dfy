/**
 * The state behind `src/ui/AudioVisualizer.jsx`: the play/pause machine that
 * forces a fresh `<audio>` element (a new `audioKey`) on every start, the
 * Web Audio analysis state that is torn down and rebuilt around it, and the
 * bar lengths of a frame: bar `i` shows sample byte `i` for `i < barCount`,
 * so the default 64 bars read the first half of the 128-byte buffer.
 * Drawing on the canvas and the Web Audio calls themselves are not modelled.
 */
module AudioVisualizer {
  import opened Optional

  /** An element of a `Uint8Array`. */
  type Byte = x: int | 0 <= x < 256

  /** `analyserNode.fftSize` as the component sets it. */
  const FFT_SIZE: nat := 256

  /** The component's default number of bars. */
  const DEFAULT_BAR_COUNT: nat := 64

  /** `AnalyserNode.frequencyBinCount`, half the FFT size by the Web Audio API's definition. */
  function FrequencyBinCount(fftSize: nat): nat {
    fftSize / 2
  }

  /**
   * The component's state: the play flag, the key of the current `<audio>`
   * element, and which of the four analysis-graph handles are held
   * (`dataArray` carries the sample buffer itself).
   */
  datatype AudioState = AudioState(
    isPlaying: bool,
    audioKey: nat,
    audioCtx: bool,
    srcNode: bool,
    analyser: bool,
    dataArray: Option<seq<Byte>>)

  function Initial(): (s: AudioState)
    ensures !s.isPlaying && s.audioKey == 0 && !DrawLoopRuns(s, true)
  {
    AudioState(false, 0, false, false, false, None)
  }

  /** `handlePlayPause`: a start takes a new element key; a pause keeps the key. */
  function HandlePlayPause(s: AudioState): (r: AudioState)
    ensures r.isPlaying != s.isPlaying
    ensures r.audioKey == if s.isPlaying then s.audioKey else s.audioKey + 1
    ensures r.audioCtx == s.audioCtx && r.srcNode == s.srcNode
    ensures r.analyser == s.analyser && r.dataArray == s.dataArray
  {
    if !s.isPlaying then s.(audioKey := s.audioKey + 1, isPlaying := true)
    else s.(isPlaying := false)
  }

  /** The `<audio>` element's `ended` event: playback stops, the element key stays. */
  function OnEnded(s: AudioState): (r: AudioState)
    ensures !r.isPlaying && r.audioKey == s.audioKey
    ensures r.analyser == s.analyser && r.dataArray == s.dataArray
    ensures r.audioCtx == s.audioCtx && r.srcNode == s.srcNode
  {
    s.(isPlaying := false)
  }

  /** `cleanupAudio`: every analysis handle is dropped; play flag and key are untouched. */
  function CleanupAudio(s: AudioState): (r: AudioState)
    ensures !r.audioCtx && !r.srcNode && !r.analyser && r.dataArray.None?
    ensures r.isPlaying == s.isPlaying && r.audioKey == s.audioKey
  {
    s.(srcNode := false, audioCtx := false, analyser := false, dataArray := None)
  }

  /**
   * The effect keyed on `isPlaying` and `audioKey`: the previous run's
   * cleanup, then, when playing and the `<audio>` element is mounted, a new
   * graph whose buffer has `frequencyBinCount` zero bytes.
   */
  function PlaybackEffect(s: AudioState, elementMounted: bool): (r: AudioState)
    ensures r.isPlaying == s.isPlaying && r.audioKey == s.audioKey
    ensures r.analyser <==> s.isPlaying && elementMounted
    ensures r.dataArray.Some? ==> |r.dataArray.value| == FrequencyBinCount(FFT_SIZE) == 128
  {
    var c := CleanupAudio(s);
    if s.isPlaying && elementMounted then
      c.(audioCtx := true, analyser := true, srcNode := true,
         dataArray := Some(seq(FrequencyBinCount(FFT_SIZE), _ => 0)))
    else c
  }

  /** The drawing effect starts its animation loop only with an analyser, a buffer and a canvas. */
  function DrawLoopRuns(s: AudioState, canvasMounted: bool): (runs: bool)
    ensures runs ==> s.analyser && s.dataArray.Some?
    ensures !canvasMounted ==> !runs
    ensures s.analyser && canvasMounted && s.dataArray.Some? ==> runs
  {
    s.analyser && canvasMounted && s.dataArray.Some?
  }

  /** Once cleaned up, nothing is drawn; after the effect, drawing runs exactly while playing. */
  lemma DrawLoopFollowsPlayback(s: AudioState, elementMounted: bool)
    ensures !DrawLoopRuns(CleanupAudio(s), true)
    ensures DrawLoopRuns(PlaybackEffect(s, elementMounted), true) <==> s.isPlaying && elementMounted
  {
  }

  /** The play button's accessible label. */
  function ButtonLabel(s: AudioState): (ariaLabel: string)
    ensures ariaLabel == "Pause" <==> s.isPlaying
    ensures ariaLabel == "Play" <==> !s.isPlaying
  {
    if s.isPlaying then "Pause" else "Play"
  }

  datatype Event = PlayPause | Ended

  function Step(s: AudioState, e: Event): AudioState {
    match e
    case PlayPause => HandlePlayPause(s)
    case Ended => OnEnded(s)
  }

  /** The state after a sequence of user and media events. */
  function Run(s: AudioState, events: seq<Event>): AudioState
    decreases |events|
  {
    if |events| == 0 then s else Run(Step(s, events[0]), events[1..])
  }

  /** The element keys taken by the starts in a sequence of events, in order. */
  function StartKeys(s: AudioState, events: seq<Event>): seq<nat>
    decreases |events|
  {
    if |events| == 0 then []
    else
      var s' := Step(s, events[0]);
      (if events[0] == PlayPause && !s.isPlaying then [s'.audioKey] else []) + StartKeys(s', events[1..])
  }

  /**
   * Every start takes a key larger than any before it, so each playback gets
   * an `<audio>` element never used before; the key only moves on starts.
   */
  lemma {:induction false} StartsTakeFreshKeys(s: AudioState, events: seq<Event>)
    ensures var ks := StartKeys(s, events);
            && (forall i, j :: 0 <= i < j < |ks| ==> ks[i] < ks[j])
            && (forall i :: 0 <= i < |ks| ==> s.audioKey < ks[i] <= Run(s, events).audioKey)
            && Run(s, events).audioKey == s.audioKey + |ks|
    decreases |events|
  {
    if |events| > 0 {
      var s' := Step(s, events[0]);
      StartsTakeFreshKeys(s', events[1..]);
    }
  }

  /** `barLength` for sample byte `b`: 18 plus 32 per unit of deviation from the midpoint 128. */
  function BarLength(b: Byte): (len: real)
    ensures len == (b as real) / 4.0 - 14.0
    ensures -14.0 <= len <= 49.75
  {
    var v := (b as real) / 128.0;
    18.0 + (v - 1.0) * 32.0
  }

  /** Silence (byte 128) gives a bar of 18, and the bar never shrinks as the byte grows. */
  lemma BarLengthShape(b: Byte, b': Byte)
    ensures BarLength(128) == 18.0
    ensures b <= b' ==> BarLength(b) <= BarLength(b')
  {
  }

  /**
   * The bar lengths one frame draws: bar `i` reads `sample[i]`; a read past
   * the end of the buffer yields `undefined`, whose length (`NaN`) is `None`.
   */
  function BarLengths(sample: seq<Byte>, barCount: nat): (bars: seq<Option<real>>)
    ensures |bars| == barCount
    ensures forall i :: 0 <= i < barCount && i < |sample| ==> bars[i] == Some(BarLength(sample[i]))
  {
    seq(barCount, i requires 0 <= i < barCount => if i < |sample| then Some(BarLength(sample[i])) else None)
  }

  /** Every bar reads a real sample exactly when there are no more bars than buffer bytes; the default 64 bars fit the 128-byte buffer. */
  lemma BarsInBounds(sample: seq<Byte>, barCount: nat)
    ensures (forall i :: 0 <= i < barCount ==> BarLengths(sample, barCount)[i].Some?) <==> barCount <= |sample|
    ensures |sample| == FrequencyBinCount(FFT_SIZE) ==>
              forall i :: 0 <= i < DEFAULT_BAR_COUNT ==> BarLengths(sample, DEFAULT_BAR_COUNT)[i].Some?
  {
    if barCount > |sample| {
      assert BarLengths(sample, barCount)[|sample|].None?;
    }
  }
}
