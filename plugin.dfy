/**
 * The DeepFilter plugin object: the two sample queues, the hop size, the
 * engine slot and the initialised flag, and the host entry points
 * `initialize`, `reset` and `process` that update them in place.
 */
module DeepFilter {
  import opened Wrappers
  import opened ChannelMixer
  import opened InferenceGate
  import opened Reframer

  /** The only sample rate the engine supports, in Hz. */
  const RequiredSampleRate: real := 48000.0

  /** How far the host's rate may be from the required one, in Hz. */
  const SampleRateTolerance: real := 1.0

  /** The hop size a plugin holds before its first initialisation. */
  const DefaultHopSize: HopSize := 480

  function Abs(x: real): (r: real)
    ensures r >= 0.0 && (r == x || r == -x)
  {
    if x < 0.0 then -x else x
  }

  /** The host's sample rate is accepted exactly when it lies in [47999, 48001]. */
  function SampleRateAccepted(sampleRate: real): (accepted: bool)
    ensures accepted <==> 47999.0 <= sampleRate <= 48001.0
  {
    !(Abs(sampleRate - RequiredSampleRate) > SampleRateTolerance)
  }

  /** The host block as channel-major sample sequences: `Grid(a)[c][i] == a[c, i]`. */
  ghost function Grid(a: array2<real>): (g: Block)
    reads a
    ensures |g| == a.Length0 && Shaped(g, a.Length1)
    ensures forall c, i | 0 <= c < a.Length0 && 0 <= i < a.Length1 :: g[c][i] == a[c, i]
  {
    seq(a.Length0, c requires 0 <= c < a.Length0 reads a =>
      seq(a.Length1, i requires 0 <= i < a.Length1 reads a => a[c, i]))
  }

  class DeepFilterPlugin {
    /** The engine, once one has been constructed. */
    var dfModel: Option<DfModel>
    /** Mono samples waiting to be cut into hops, oldest first. */
    var inputBuffer: seq<real>
    /** Processed samples waiting to be written to the host, oldest first. */
    var outputBuffer: seq<real>
    var hopSize: HopSize
    var isInitialized: bool

    /**
     * The object invariant: between calls less than one hop is queued; an
     * initialised plugin holds an engine of its own hop size; an
     * uninitialised one holds no engine and no samples.
     */
    ghost predicate Valid()
      reads this
    {
      && |inputBuffer| < hopSize
      && (isInitialized ==> dfModel.Some? && dfModel.value.hopSize == hopSize)
      && (!isInitialized ==> dfModel.None? && inputBuffer == [] && outputBuffer == [])
    }

    /** The default plugin: no engine, empty queues, not initialised. */
    constructor ()
      ensures Valid()
      ensures dfModel.None? && inputBuffer == [] && outputBuffer == []
      ensures hopSize == DefaultHopSize && !isInitialized
    {
      dfModel := None;
      inputBuffer := [];
      outputBuffer := [];
      hopSize := DefaultHopSize;
      isInitialized := false;
    }

    /**
     * Initialisation for a host sample rate and I/O layout. `build` stands
     * for the engine's constructor, given the channel count. On a rejected
     * rate or a failed construction nothing changes; on success the plugin
     * holds the new engine, its hop size and empty queues.
     */
    method Initialize(sampleRate: real, mainInputChannels: Option<nat>, build: nat -> Result<DfModel>)
      returns (ok: bool)
      requires Valid()
      modifies this
      ensures Valid()
      ensures ok <==> SampleRateAccepted(sampleRate) && build(mainInputChannels.GetOr(1)).Ok?
      ensures !ok ==> unchanged(this)
      ensures ok ==>
        && dfModel == Some(build(mainInputChannels.GetOr(1)).value)
        && hopSize == build(mainInputChannels.GetOr(1)).value.hopSize
        && isInitialized
        && inputBuffer == [] && outputBuffer == []
    {
      if !SampleRateAccepted(sampleRate) {
        return false;
      }
      var numChannels := mainInputChannels.GetOr(1);
      var r := InitModel(numChannels, build);
      match r
      case Ok(hop) =>
        hopSize := hop;
        isInitialized := true;
        ok := true;
      case Err =>
        ok := false;
    }

    /** Clears both queues; the hop size, the engine and the flag stay. */
    method Reset()
      requires Valid()
      modifies this`inputBuffer, this`outputBuffer
      ensures Valid()
      ensures inputBuffer == [] && outputBuffer == []
      ensures dfModel == old(dfModel) && hopSize == old(hopSize) && isInitialized == old(isInitialized)
    {
      inputBuffer := [];
      outputBuffer := [];
    }

    /**
     * One host block, with the mix and attenuation limit read once for the
     * whole block. An uninitialised plugin leaves everything as it was.
     * Otherwise the block's down-mix is queued, every whole hop goes through
     * the engine (with the new limit) into the output queue, and, only if
     * that queue now holds a block's worth, the block is overwritten with the
     * blend and that many samples leave the output queue.
     */
    method Process(buffer: array2<real>, mix: real, atten: real)
      requires Valid()
      requires buffer.Length0 > 0
      modifies this, buffer
      ensures Valid()
      ensures !old(isInitialized) ==> unchanged(this, buffer)
      ensures old(isInitialized) ==>
        var n := buffer.Length1;
        var model := old(dfModel).value.(attenLim := atten);
        var queued := old(inputBuffer) + DownMix(old(Grid(buffer)), n);
        var produced := old(outputBuffer) + Hops(model, old(hopSize), queued);
        && dfModel == Some(model) && hopSize == old(hopSize) && isInitialized
        && inputBuffer == Remainder(hopSize, queued)
        && (|produced| >= n ==>
              Grid(buffer) == MixBlock(old(Grid(buffer)), produced, mix) && outputBuffer == produced[n..])
        && (|produced| < n ==>
              Grid(buffer) == old(Grid(buffer)) && outputBuffer == produced)
    {
      if !isInitialized {
        return;
      }
      EnqueueDownMix(buffer);
      if dfModel.Some? {
        RunHops(atten);
      }
      WriteOutput(buffer, mix);
    }

    /**
     * Constructs the engine for `channels` channels; on success installs it,
     * replaces both queues by empty ones and returns its hop size.
     */
    method InitModel(channels: nat, build: nat -> Result<DfModel>) returns (r: Result<HopSize>)
      modifies this`dfModel, this`inputBuffer, this`outputBuffer
      ensures build(channels).Err? ==> r == Err && unchanged(this)
      ensures build(channels).Ok? ==>
        && r == Ok(build(channels).value.hopSize)
        && dfModel == Some(build(channels).value)
        && inputBuffer == [] && outputBuffer == []
    {
      match build(channels)
      case Err =>
        r := Err;
      case Ok(df) =>
        dfModel := Some(df);
        inputBuffer := [];
        outputBuffer := [];
        r := Ok(df.hopSize);
    }

    /** Phase 1: appends the mean across channels of every time index. */
    method EnqueueDownMix(buffer: array2<real>)
      requires buffer.Length0 > 0
      modifies this`inputBuffer
      ensures inputBuffer == old(inputBuffer) + DownMix(Grid(buffer), buffer.Length1)
    {
      ghost var mono := DownMix(Grid(buffer), buffer.Length1);
      var i := 0;
      while i < buffer.Length1
        invariant 0 <= i <= buffer.Length1
        invariant inputBuffer == old(inputBuffer) + mono[..i]
      {
        ghost var col := Column(Grid(buffer), i);
        var sum := 0.0;
        var c := 0;
        while c < buffer.Length0
          invariant 0 <= c <= buffer.Length0
          invariant sum == Sum(col[..c])
        {
          assert col[..c + 1][..c] == col[..c];
          sum := sum + buffer[c, i];
          c := c + 1;
        }
        assert col[..buffer.Length0] == col;
        inputBuffer := inputBuffer + [sum / buffer.Length0 as real];
        assert mono[..i + 1] == mono[..i] + [mono[i]];
        i := i + 1;
      }
      assert mono[..buffer.Length1] == mono;
    }

    /**
     * Phase 2: pushes the attenuation limit into the engine, then, while a
     * whole hop is queued, appends its frame output (the engine's frame, or
     * the hop itself if the engine fails) and drops it from the input queue.
     */
    method RunHops(atten: real)
      requires dfModel.Some?
      modifies this`dfModel, this`inputBuffer, this`outputBuffer
      ensures dfModel == Some(old(dfModel).value.(attenLim := atten))
      ensures outputBuffer == old(outputBuffer) + Hops(dfModel.value, hopSize, old(inputBuffer))
      ensures inputBuffer == Remainder(hopSize, old(inputBuffer))
    {
      var model := dfModel.value.(attenLim := atten);
      dfModel := Some(model);
      var hop := hopSize;
      while |inputBuffer| >= hop
        invariant outputBuffer + Hops(model, hop, inputBuffer)
               == old(outputBuffer) + Hops(model, hop, old(inputBuffer))
        invariant Remainder(hop, inputBuffer) == Remainder(hop, old(inputBuffer))
        invariant dfModel == Some(model) && hopSize == hop
        decreases |inputBuffer|
      {
        var inFrame := inputBuffer[..hop];
        PushFrameOutput(model, inFrame);
        inputBuffer := inputBuffer[hop..];
      }
    }

    /**
     * One hop of phase 2: runs the engine on `inFrame` and appends its output
     * frame on success, or `inFrame` itself on failure.
     */
    method PushFrameOutput(model: DfModel, inFrame: seq<real>)
      modifies this`outputBuffer
      ensures outputBuffer == old(outputBuffer) + FrameOutput(model, inFrame)
    {
      match model.run(model.attenLim, inFrame) {
        case Ok(written) =>
          var hop := |inFrame|;
          var outFrame := OutFrame(hop, written);
          for i := 0 to hop
            invariant outputBuffer == old(outputBuffer) + outFrame[..i]
          {
            outputBuffer := outputBuffer + [outFrame[i]];
          }
          assert outFrame[..hop] == outFrame;
        case Err =>
          outputBuffer := outputBuffer + inFrame;
      }
    }

    /**
     * Phase 3: if the output queue holds at least one block's worth, every
     * channel sample becomes the blend of itself with the processed sample
     * at its index, and that many samples leave the queue; otherwise the
     * block and the queue are untouched.
     */
    method WriteOutput(buffer: array2<real>, mix: real)
      modifies this`outputBuffer, buffer
      ensures |old(outputBuffer)| >= buffer.Length1 ==>
        && Grid(buffer) == MixBlock(old(Grid(buffer)), old(outputBuffer), mix)
        && outputBuffer == old(outputBuffer)[buffer.Length1..]
      ensures |old(outputBuffer)| < buffer.Length1 ==>
        unchanged(buffer) && outputBuffer == old(outputBuffer)
    {
      var n := buffer.Length1;
      if |outputBuffer| >= n {
        var out := outputBuffer;
        var s := 0;
        while s < n
          invariant 0 <= s <= n
          invariant outputBuffer == out
          invariant forall c, i | 0 <= c < buffer.Length0 && 0 <= i < n ::
            buffer[c, i] == if i < s then Blend(old(buffer[c, i]), out[i], mix) else old(buffer[c, i])
        {
          var processed := out[s];
          var c := 0;
          while c < buffer.Length0
            invariant 0 <= c <= buffer.Length0
            invariant outputBuffer == out
            invariant forall c', i | 0 <= c' < buffer.Length0 && 0 <= i < n ::
              buffer[c', i] == if i < s || (i == s && c' < c) then Blend(old(buffer[c', i]), out[i], mix)
                               else old(buffer[c', i])
          {
            buffer[c, s] := Blend(buffer[c, s], processed, mix);
            c := c + 1;
          }
          s := s + 1;
        }
        outputBuffer := outputBuffer[n..];
        ghost var dry := old(Grid(buffer));
        ghost var wet := MixBlock(dry, out, mix);
        ghost var now := Grid(buffer);
        forall c | 0 <= c < buffer.Length0
          ensures now[c] == wet[c]
        {
          assert |now[c]| == |wet[c]| == n;
          forall i | 0 <= i < n ensures now[c][i] == wet[c][i] { }
        }
        assert now == wet;
      }
    }
  }
}
