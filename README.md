# DeepFilter noise-reduction plugin: the streaming reframer, in Dafny

This project models the core of the DeepFilterNet3 audio plugin
(`DeepFilterPlugin` in `plugin/src/lib.rs`). The host hands the plugin
blocks of any length. The inference engine only takes fixed-size hops of mono
samples at 48 kHz. The plugin bridges the two with two sample queues:

- `process` down-mixes each block to mono (the mean across channels at each
  time index) and appends it to the input queue;
- while the input queue holds a whole hop, the oldest hop is sent to the
  engine. The engine's output frame is appended to the output queue. If the
  engine fails, the unmodified input hop is appended instead (bypass);
- the block is overwritten with `dry * (1 - mix) + out[i] * mix` only if the
  output queue holds a block's worth of samples, and then that many samples
  are drained. Otherwise the block is left dry and the queue is untouched.

`initialize` rejects sample rates more than 1 Hz away from 48 kHz (over real
rates; see "Left out" for NaN), constructs
the engine and takes its hop size. `reset` empties both queues.

Files:

- `wrappers.dfy` (`Wrappers`): `Option` and `Result`.
- `channel_mixer.dfy` (`ChannelMixer`): down-mix, blend and the written block,
  as functions on `seq<seq<real>>` (channel-major blocks).
- `inference_gate.dfy` (`InferenceGate`): the engine as a datatype `DfModel`
  (hop size, current attenuation limit, a fallible per-hop function). Also
  the output frame of one hop, with the bypass.
- `reframer.dfy` (`Reframer`): what the hop loop outputs (`Hops`) and leaves
  queued (`Remainder`) for a given queue. Lemmas about lengths, order, bypass,
  block-size independence and conservation over a stream of blocks.
- `plugin.dfy` (`DeepFilter`): the class `DeepFilterPlugin` with the source's
  fields. Its methods update them in place: `Initialize`, `Reset`, `Process`,
  `InitModel`, and the three phases of `Process`. The down-mix and the output
  write loop over the host block (an `array2<real>` indexed
  `[channel, sample]`). The hop loop runs over the input queue, one hop at a
  time. Each method's `ensures`
  ties the new state to the functions of the other modules. `Valid()` is the
  object invariant: less than one hop stays queued between calls; an
  initialised plugin holds an engine of its hop size; an uninitialised one
  holds no engine and no samples.

Two behaviours of the code that are easy to miss:

- `mix` and the attenuation limit are read once per block, not once per
  sample (plugin/src/lib.rs:147-148). In the model they are inputs to
  `Process`, and the same `mix` is used for every sample of the block.
- A failed `initialize` changes nothing (plugin/src/lib.rs:104-107, 121-124).
  It does not put a previously initialised plugin back in the uninitialised
  state. `Initialize` states `!ok ==> unchanged(this)`.

## Model

| member | source | states |
|---|---|---|
| `ChannelMixer.Sum` | plugin/src/lib.rs:157-160 | the running sum, from 0 in index order; a single term sums to itself |
| `ChannelMixer.Mean` | plugin/src/lib.rs:157-161 | the sum divided by the number of terms; the mean of equal terms is that term |
| `ChannelMixer.DownMix` | plugin/src/lib.rs:156-162 | exactly `num_samples` mono samples, the one at index `i` being the mean across channels at `i` |
| `ChannelMixer.DownMixIdentical` | plugin/src/lib.rs:156-162 | when all channels hold the same signal, the down-mix equals that signal |
| `ChannelMixer.DownMixMono` | plugin/src/lib.rs:156-162 | a one-channel block passes through the down-mix unchanged |
| `ChannelMixer.MeanBetween` | plugin/src/lib.rs:157-161 | the down-mixed sample (sum over channels divided by the channel count) lies between the smallest and largest channel sample |
| `ChannelMixer.SumConstant` | plugin/src/lib.rs:157-160 | the running sum over `n` equal samples `v` is `n * v` |
| `ChannelMixer.SumBetween` | plugin/src/lib.rs:157-160 | the running sum over samples in `[lo, hi]` lies in `[n*lo, n*hi]` |
| `ChannelMixer.SumAtLeast` | plugin/src/lib.rs:157-160 | the running sum over samples all at least `lo` is at least `n*lo` |
| `ChannelMixer.SumAtMost` | plugin/src/lib.rs:157-160 | the running sum over samples all at most `hi` is at most `n*hi` |
| `ChannelMixer.Blend` | plugin/src/lib.rs:205-206 | the blend is the dry sample for mix 0, the processed sample for mix 1, and lies between them for a mix in [0, 1] |
| `ChannelMixer.MixBlock` | plugin/src/lib.rs:201-208 | the written block has the dry block's shape, and channel `c` at index `i` is the blend of its own dry sample with the same `out[i]` for every channel |
| `ChannelMixer.MixBlockDry` | plugin/src/lib.rs:201-208 | with mix 0 the written block equals the dry block |
| `ChannelMixer.MixBlockWet` | plugin/src/lib.rs:201-208 | with mix 1 every channel equals the first `num_samples` processed samples |
| `ChannelMixer.MixBlockBroadcast` | plugin/src/lib.rs:202-207 | the same processed sample goes to every channel, so channels that were identical stay identical |
| `InferenceGate.OutFrame` | plugin/src/lib.rs:176-186 | the output frame has exactly `hop` samples: the engine's written samples over zeros, and exactly those samples when the engine wrote a whole hop |
| `InferenceGate.FrameOutput` | plugin/src/lib.rs:182-191 | one hop yields exactly as many samples as it consumed; on an engine error they are the input hop itself (bypass); on success, the output frame |
| `Reframer.Hops` | plugin/src/lib.rs:174-194 | everything the hop loop appends to the output queue: the frame output of each whole hop, oldest first, never more samples than were queued |
| `Reframer.Remainder` | plugin/src/lib.rs:174-194 | after the hop loop fewer than `hop` samples stay in the input queue |
| `Reframer.RemainderIsSuffix` | plugin/src/lib.rs:174-194 | what stays queued is the old queue with its first `(len / hop) * hop` samples removed, in order: `len % hop` samples |
| `Reframer.RemainderTail` | plugin/src/lib.rs:193 | what stays queued is a suffix of the queue |
| `Reframer.RemainderLength` | plugin/src/lib.rs:174-194 | `len % hop` samples stay queued after `len / hop` whole hops have been drained |
| `Reframer.HopsLength` | plugin/src/lib.rs:174-194 | the loop appends `(len / hop) * hop` samples, and samples appended plus samples left equal samples queued (nothing created or lost) |
| `Reframer.HopsFrame` | plugin/src/lib.rs:174-194 | hop `j` of the appended output is the frame output of hop `j` of the input queue (FIFO order, one independent engine call per hop) |
| `Reframer.HopsBypass` | plugin/src/lib.rs:188-190 | a hop on which the engine fails is appended to the output sample for sample |
| `Reframer.HopsEnhanced` | plugin/src/lib.rs:183-187 | a hop on which the engine succeeds with a whole frame is appended as that frame |
| `Reframer.HopsAllFail` | plugin/src/lib.rs:174-194 | if the engine fails on every hop, the output is the consumed input unchanged (a pure delay) |
| `Reframer.HopsStreaming` | plugin/src/lib.rs:154-194 | running the loop on a queue, then again after appending a block, appends the same samples as one run on the concatenation |
| `Reframer.RemainderStreaming` | plugin/src/lib.rs:154-194 | likewise for what stays queued |
| `Reframer.Stream` | plugin/src/lib.rs:154-194 | feeding blocks one by one, each followed by the hop loop: less than one hop stays queued, and queued plus output samples equal the samples fed in |
| `Reframer.StreamIsBatch` | plugin/src/lib.rs:154-194 | feeding blocks one at a time gives the output and leftover of feeding their concatenation at once |
| `Reframer.StreamConservation` | plugin/src/lib.rs:154-194 | when the blocks fed total a whole number of hops, the output queue received as many samples as the input queue and the input queue is empty again |
| `Reframer.UnderrunOnUnalignedStart` | plugin/src/lib.rs:174-201 | from empty queues, a first block whose length is not a multiple of `hop` produces fewer samples than the block needs, so it is left dry |
| `DeepFilter.SampleRateAccepted` | plugin/src/lib.rs:104-107 | the sample rate is accepted exactly when it lies in [47999, 48001] Hz |
| `DeepFilter.DeepFilterPlugin.constructor` | plugin/src/lib.rs:55-66 | a new plugin has no engine, empty queues, hop size 480 and is not initialised |
| `DeepFilter.DeepFilterPlugin.Initialize` | plugin/src/lib.rs:97-126 | succeeds exactly when the rate is accepted and the engine is constructed; then the plugin holds the engine, takes its hop size, is initialised and has empty queues; on failure nothing changes |
| `DeepFilter.DeepFilterPlugin.Reset` | plugin/src/lib.rs:128-135 | both queues become empty; hop size, engine and flag are unchanged |
| `DeepFilter.DeepFilterPlugin.Process` | plugin/src/lib.rs:137-214 | uninitialised: block and state unchanged. Otherwise the input queue ends as the remainder of old queue plus down-mix, and the output queue gains the hop outputs computed with the new attenuation limit. If the output queue then holds a block's worth, the block is the blend and that many samples leave the queue; if not, block and output queue stay as they are |
| `DeepFilter.DeepFilterPlugin.InitModel` | plugin/src/lib.rs:218-229 | on a construction error nothing changes; on success the engine is installed, both queues are empty and its hop size is returned |
| `DeepFilter.DeepFilterPlugin.EnqueueDownMix` | plugin/src/lib.rs:153-163 | appends exactly `num_samples` mono samples, each the mean across channels at its index |
| `DeepFilter.DeepFilterPlugin.RunHops` | plugin/src/lib.rs:171-194 | pushes the attenuation limit into the engine; the output queue gains the hop outputs of the old input queue, and the input queue keeps its remainder |
| `DeepFilter.DeepFilterPlugin.PushFrameOutput` | plugin/src/lib.rs:182-191 | one loop iteration's append: the output queue gains exactly the frame output of the hop (engine frame on success, the hop itself on failure) |
| `DeepFilter.DeepFilterPlugin.WriteOutput` | plugin/src/lib.rs:198-211 | with enough output, writes the blend of each channel sample with the processed sample at its index and drains exactly `num_samples`; otherwise leaves block and queue unchanged |

## Left out

- The inference engine (`DfTract`: `new`, `process`, `set_atten_lim`, `hop_size`) is a foreign library. It is a parameter here: `build` stands for construction from the channel count. A `DfModel` value stands for an engine. Its per-hop step is a total function of the attenuation limit and the input frame.
- The engine's internal recurrent state is not modelled: one engine call depends only on the current limit and the frame. `StreamIsBatch` and `HopsStreaming` also assume one attenuation limit for all blocks. `HopsLength` and `StreamConservation` do not depend on the engine's outputs.
- An engine reporting a hop size of 0 is excluded by the type `HopSize`. With hop 0 the source's hop loop would never end.
- A host block with zero channels is excluded (`Process` requires at least one). The source only declares 1- and 2-channel layouts (plugin/src/lib.rs:75-86), and the mean would divide by zero.
- Samples are `real`: f32 rounding in the running sum, the division and the blend is not modelled.
- SampleRateAccepted: the sample rate is a `real`, so NaN is not modelled. The source's f32 test `(sample_rate - 48000.0).abs() > 1.0` is false for NaN, so the source accepts a NaN rate and goes on to build the engine.
- Locks (`Mutex`, `lock().unwrap()`, lock poisoning in `reset`) and the manual `Send`/`Sync` declarations are concurrency plumbing. The state is plain fields of one object, and each method runs alone.
- The parameter framework (declarations, linear smoothing, percentage formatting, `params()`) is external. `mix` and `atten` are inputs to `Process`, read once per block.
- `Vec::with_capacity(hop * 4)` only reserves memory. The model replaces the queues with empty ones and does not model capacity.
- Logging, the `ProcessStatus::Normal` return value (always the same), audio I/O layouts, CLAP/VST3 metadata and the export macros.
