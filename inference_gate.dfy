/**
 * The inference gate: the noise-suppression engine seen from the plugin, and
 * what one hop turns into when it goes through the engine.
 */
module InferenceGate {
  import opened Wrappers

  /** The engine's frame length; the engine never reports an empty hop. */
  type HopSize = n: nat | n > 0 witness 480

  /**
   * A constructed engine. Its frame length is fixed at construction;
   * `attenLim` is the attenuation limit last pushed into it; `run` is its
   * fallible per-hop step, applied to that limit and one input frame, whose
   * `Ok` carries the samples the engine wrote into the output frame.
   */
  datatype DfModel = DfModel(
    hopSize: HopSize,
    attenLim: real,
    run: (real, seq<real>) -> Result<seq<real>>)

  /**
   * The output frame after the engine wrote `written` into it: it starts as
   * `hop` zeros, and the written samples replace its leading positions.
   */
  function OutFrame(hop: nat, written: seq<real>): (f: seq<real>)
    ensures |f| == hop
    ensures |written| == hop ==> f == written
    ensures forall i | 0 <= i < hop :: f[i] == if i < |written| then written[i] else 0.0
  {
    seq(hop, i requires 0 <= i < hop => if i < |written| then written[i] else 0.0)
  }

  /**
   * The hop appended to the output queue for the input frame `frame`: the
   * engine's frame on success, and the unmodified input frame on failure
   * (bypass), so every hop yields exactly as many samples as it consumed.
   */
  function FrameOutput(model: DfModel, frame: seq<real>): (out: seq<real>)
    ensures |out| == |frame|
    ensures model.run(model.attenLim, frame).Err? ==> out == frame
    ensures model.run(model.attenLim, frame).Ok? ==>
      out == OutFrame(|frame|, model.run(model.attenLim, frame).value)
  {
    match model.run(model.attenLim, frame)
    case Ok(written) => OutFrame(|frame|, written)
    case Err => frame
  }
}
