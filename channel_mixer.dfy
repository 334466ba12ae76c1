/**
 * The channel mixer: the down-mix of a host block to one mono stream and
 * the dry/wet blend that writes the processed stream back to every channel.
 */
module ChannelMixer {

  /** A host block, channel-major: `b[c][i]` is sample `i` of channel `c`. */
  type Block = seq<seq<real>>

  /** Every channel of `b` holds exactly `n` samples. */
  ghost predicate Shaped(b: Block, n: nat) {
    forall c | 0 <= c < |b| :: |b[c]| == n
  }

  /**
   * The running sum the plugin accumulates, left to right from 0; a single
   * term sums to itself.
   */
  function Sum(s: seq<real>): (r: real)
    ensures |s| == 1 ==> r == s[0]
  {
    if s == [] then 0.0 else Sum(s[..|s| - 1]) + s[|s| - 1]
  }

  /**
   * Arithmetic mean: the sum divided by the number of terms; the mean of
   * equal terms is that term.
   */
  function Mean(s: seq<real>): (r: real)
    requires |s| > 0
    ensures (forall k | 0 <= k < |s| :: s[k] == s[0]) ==> r == s[0]
  {
    assert (forall k | 0 <= k < |s| :: s[k] == s[0]) ==> Sum(s) == |s| as real * s[0] by {
      if forall k | 0 <= k < |s| :: s[k] == s[0] {
        SumConstant(s, s[0]);
      }
    }
    Sum(s) / |s| as real
  }

  /** The samples of all channels at time index `i`. */
  function Column(b: Block, i: nat): (col: seq<real>)
    requires forall c | 0 <= c < |b| :: i < |b[c]|
    ensures |col| == |b|
    ensures forall c | 0 <= c < |b| :: col[c] == b[c][i]
  {
    seq(|b|, c requires 0 <= c < |b| => b[c][i])
  }

  /** One mono sample per time index: the mean across the channels. */
  function DownMix(b: Block, n: nat): (mono: seq<real>)
    requires |b| > 0 && Shaped(b, n)
    ensures |mono| == n
    ensures forall i | 0 <= i < n :: mono[i] == Mean(Column(b, i))
  {
    seq(n, i requires 0 <= i < n => Mean(Column(b, i)))
  }

  /** A sum of terms that all lie in [lo, hi] lies between |s|*lo and |s|*hi. */
  lemma SumBetween(s: seq<real>, lo: real, hi: real)
    requires forall k | 0 <= k < |s| :: lo <= s[k] <= hi
    ensures |s| as real * lo <= Sum(s) <= |s| as real * hi
  {
    SumAtLeast(s, lo);
    SumAtMost(s, hi);
  }

  /** A sum of terms that are all at least `lo` is at least |s|*lo. */
  lemma {:induction false} SumAtLeast(s: seq<real>, lo: real)
    requires forall k | 0 <= k < |s| :: lo <= s[k]
    ensures |s| as real * lo <= Sum(s)
  {
    if s != [] {
      var init := s[..|s| - 1];
      assert forall k | 0 <= k < |init| :: init[k] == s[k];
      SumAtLeast(init, lo);
      assert Sum(s) == Sum(init) + s[|s| - 1];
      assert |s| as real * lo == |init| as real * lo + lo;
    }
  }

  /** A sum of terms that are all at most `hi` is at most |s|*hi. */
  lemma {:induction false} SumAtMost(s: seq<real>, hi: real)
    requires forall k | 0 <= k < |s| :: s[k] <= hi
    ensures Sum(s) <= |s| as real * hi
  {
    if s != [] {
      var init := s[..|s| - 1];
      assert forall k | 0 <= k < |init| :: init[k] == s[k];
      SumAtMost(init, hi);
      assert Sum(s) == Sum(init) + s[|s| - 1];
      assert |s| as real * hi == |init| as real * hi + hi;
    }
  }

  /** The sum of |s| copies of `v` is |s| * v. */
  lemma {:induction false} SumConstant(s: seq<real>, v: real)
    requires forall k | 0 <= k < |s| :: s[k] == v
    ensures Sum(s) == |s| as real * v
  {
    if s != [] {
      var init := s[..|s| - 1];
      assert forall k | 0 <= k < |init| :: init[k] == s[k];
      SumConstant(init, v);
    }
  }

  /** The mean never leaves the range spanned by the channels. */
  lemma MeanBetween(s: seq<real>, lo: real, hi: real)
    requires |s| > 0
    requires forall k | 0 <= k < |s| :: lo <= s[k] <= hi
    ensures lo <= Mean(s) <= hi
  {
    SumBetween(s, lo, hi);
    QuotientBetween(Sum(s), |s| as real, lo, hi);
  }

  /** Dividing a value in [n*lo, n*hi] by a positive `n` lands in [lo, hi]. */
  lemma QuotientBetween(t: real, n: real, lo: real, hi: real)
    requires n > 0.0 && n * lo <= t <= n * hi
    ensures lo <= t / n <= hi
  {
    var m := t / n;
    assert m * n == t;
    assert (m - lo) * n >= 0.0 && (hi - m) * n >= 0.0;
  }

  /** Identical channels down-mix to that very signal. */
  lemma DownMixIdentical(b: Block, n: nat)
    requires |b| > 0 && Shaped(b, n)
    requires forall c | 0 <= c < |b| :: b[c] == b[0]
    ensures DownMix(b, n) == b[0]
  {
  }

  /** A mono block passes through the down-mix unchanged. */
  lemma DownMixMono(b: Block, n: nat)
    requires |b| == 1 && Shaped(b, n)
    ensures DownMix(b, n) == b[0]
  {
  }

  /**
   * The per-sample blend of the dry input with the processed signal. A mix
   * in [0, 1] keeps the result between the two; 0 is fully dry, 1 fully wet.
   */
  function Blend(dry: real, wet: real, mix: real): (r: real)
    ensures mix == 0.0 ==> r == dry
    ensures mix == 1.0 ==> r == wet
    ensures 0.0 <= mix <= 1.0 ==> (dry <= r <= wet || wet <= r <= dry)
  {
    var d := wet - dry;
    assert dry * (1.0 - mix) + wet * mix == dry + d * mix;
    assert d * mix + d * (1.0 - mix) == d;
    assert 0.0 <= mix <= 1.0 && d >= 0.0 ==> d * mix >= 0.0 && d * (1.0 - mix) >= 0.0;
    assert 0.0 <= mix <= 1.0 && d <= 0.0 ==> d * mix <= 0.0 && d * (1.0 - mix) <= 0.0;
    dry * (1.0 - mix) + wet * mix
  }

  /**
   * The written block: every channel at index `i` blends its own dry sample
   * with the same processed sample `out[i]`.
   */
  function MixBlock(b: Block, out: seq<real>, mix: real): (w: Block)
    requires forall c | 0 <= c < |b| :: |b[c]| <= |out|
    ensures |w| == |b|
    ensures forall c | 0 <= c < |b| :: |w[c]| == |b[c]|
    ensures forall c, i | 0 <= c < |b| && 0 <= i < |b[c]| :: w[c][i] == Blend(b[c][i], out[i], mix)
  {
    seq(|b|, c requires 0 <= c < |b| =>
      seq(|b[c]|, i requires 0 <= i < |b[c]| => Blend(b[c][i], out[i], mix)))
  }

  /** With mix 0 the block is returned dry. */
  lemma MixBlockDry(b: Block, out: seq<real>)
    requires forall c | 0 <= c < |b| :: |b[c]| <= |out|
    ensures MixBlock(b, out, 0.0) == b
  {
    var w := MixBlock(b, out, 0.0);
    forall c | 0 <= c < |b| ensures w[c] == b[c] { }
  }

  /** With mix 1 every channel carries exactly the processed samples. */
  lemma MixBlockWet(b: Block, out: seq<real>)
    requires forall c | 0 <= c < |b| :: |b[c]| <= |out|
    ensures forall c | 0 <= c < |b| :: MixBlock(b, out, 1.0)[c] == out[..|b[c]|]
  {
  }

  /**
   * The processed stream is broadcast: channels that were identical before
   * the write are identical after it.
   */
  lemma MixBlockBroadcast(b: Block, out: seq<real>, mix: real, c1: nat, c2: nat)
    requires forall c | 0 <= c < |b| :: |b[c]| <= |out|
    requires c1 < |b| && c2 < |b| && b[c1] == b[c2]
    ensures MixBlock(b, out, mix)[c1] == MixBlock(b, out, mix)[c2]
  {
  }
}
