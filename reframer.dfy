/**
 * The frame reframer: how the mono input queue is cut into hops, what the
 * hop loop appends to the output queue, and what it leaves queued.
 */
module Reframer {
  import opened Wrappers
  import opened InferenceGate

  /**
   * Everything the hop loop appends to the output queue when it starts on
   * queue `q`: one frame output per whole hop, oldest first.
   */
  function Hops(model: DfModel, hop: HopSize, q: seq<real>): (r: seq<real>)
    ensures |r| <= |q|
    decreases |q|
  {
    if |q| < hop then [] else FrameOutput(model, q[..hop]) + Hops(model, hop, q[hop..])
  }

  /** What the hop loop leaves in the input queue: fewer samples than one hop. */
  function Remainder(hop: HopSize, q: seq<real>): (r: seq<real>)
    ensures |r| < hop && |r| <= |q|
    decreases |q|
  {
    if |q| < hop then q else Remainder(hop, q[hop..])
  }

  /**
   * The leftover is the newest part of the queue, in order: `q` with its
   * first `(|q| / hop) * hop` samples removed, which is `|q| % hop` samples.
   */
  lemma RemainderIsSuffix(hop: HopSize, q: seq<real>)
    ensures |Remainder(hop, q)| == |q| % hop
    ensures Remainder(hop, q) == q[(|q| / hop) * hop..]
  {
    RemainderTail(hop, q);
    RemainderLength(hop, q);
  }

  /** The leftover is a suffix of the queue. */
  lemma {:induction false} RemainderTail(hop: HopSize, q: seq<real>)
    ensures Remainder(hop, q) == q[|q| - |Remainder(hop, q)|..]
    decreases |q|
  {
    if |q| >= hop {
      var tail := q[hop..];
      RemainderTail(hop, tail);
      assert tail[|tail| - |Remainder(hop, tail)|..] == q[|q| - |Remainder(hop, tail)|..];
    }
  }

  /** The leftover holds `|q| % hop` samples, after `|q| / hop` whole hops. */
  lemma {:induction false} RemainderLength(hop: HopSize, q: seq<real>)
    ensures |Remainder(hop, q)| == |q| % hop
    ensures |q| - |Remainder(hop, q)| == (|q| / hop) * hop
    decreases |q|
  {
    if |q| >= hop {
      RemainderLength(hop, q[hop..]);
      DivModStep(|q|, hop);
    }
  }

  /**
   * The loop consumes `k = |q| / hop` hops: it outputs `k * hop` samples and
   * leaves the rest queued, so no sample is created or lost.
   */
  lemma {:induction false} HopsLength(model: DfModel, hop: HopSize, q: seq<real>)
    ensures |Hops(model, hop, q)| + |Remainder(hop, q)| == |q|
    ensures |Hops(model, hop, q)| == (|q| / hop) * hop
    decreases |q|
  {
    RemainderLength(hop, q);
    if |q| >= hop {
      HopsLength(model, hop, q[hop..]);
    }
  }

  /** Removing one divisor from `n` lowers its quotient by one and keeps its remainder. */
  lemma DivModStep(n: nat, h: HopSize)
    requires n >= h
    ensures (n - h) / h == n / h - 1
    ensures (n - h) % h == n % h
  {
    var k, r := (n - h) / h, (n - h) % h;
    assert n == (k + 1) * h + r;
    DivModUnique(n, h, k + 1, r);
  }

  /** Euclidean division is determined by its defining equation. */
  lemma DivModUnique(n: nat, h: HopSize, k: int, r: int)
    requires n == k * h + r && 0 <= r < h
    ensures n / h == k && n % h == r
  {
    var k0, r0 := n / h, n % h;
    assert k0 * h + r0 == k * h + r;
    if k0 > k {
      MulAtLeast(k0 - k, h);
    } else if k0 < k {
      MulAtLeast(k - k0, h);
    }
  }

  /** A positive multiple of `h` is at least `h`. */
  lemma MulAtLeast(d: int, h: nat)
    requires d >= 1
    ensures d * h >= h
  {
  }

  /**
   * Hop `j` of the output is the frame output of hop `j` of the input: the
   * loop keeps FIFO order and handles every hop on its own.
   */
  lemma HopsFrame(model: DfModel, hop: HopSize, q: seq<real>, j: nat)
    requires (j + 1) * hop <= |q|
    ensures (j + 1) * hop <= |Hops(model, hop, q)|
    ensures Hops(model, hop, q)[j * hop..(j + 1) * hop]
         == FrameOutput(model, q[j * hop..(j + 1) * hop])
  {
    assert (j + 1) * hop == j * hop + hop;
    HopsFrameAt(model, hop, q, j, j * hop);
  }

  /** HopsFrame, stated at the offset `lo = j * hop` of hop `j`. */
  lemma {:induction false} HopsFrameAt(model: DfModel, hop: HopSize, q: seq<real>, j: nat, lo: nat)
    requires lo == j * hop && lo + hop <= |q|
    ensures lo + hop <= |Hops(model, hop, q)|
    ensures Hops(model, hop, q)[lo..lo + hop] == FrameOutput(model, q[lo..lo + hop])
    decreases j
  {
    var head := FrameOutput(model, q[..hop]);
    var tail := Hops(model, hop, q[hop..]);
    assert Hops(model, hop, q) == head + tail;
    if j > 0 {
      MulAtLeast(j, hop);
      assert lo - hop == (j - 1) * hop;
      HopsFrameAt(model, hop, q[hop..], j - 1, lo - hop);
      DropThenSlice(q, hop, lo - hop, lo);
      SliceAfterPrefix(head, tail, lo - hop, lo);
    } else {
      assert lo == 0;
    }
  }

  /** Slicing after dropping `h` elements is slicing `h` further along. */
  lemma DropThenSlice(a: seq<real>, h: nat, lo: nat, hi: nat)
    requires h + hi <= |a| && lo <= hi
    ensures a[h..][lo..hi] == a[h + lo..h + hi]
  {
  }

  /** A slice past the whole of `x` in `x + y` is a slice of `y`. */
  lemma SliceAfterPrefix(x: seq<real>, y: seq<real>, lo: nat, hi: nat)
    requires lo <= hi <= |y|
    ensures (x + y)[|x| + lo..|x| + hi] == y[lo..hi]
  {
  }

  /** Cutting the first `h` elements off `q + b` touches only `q` when `|q| >= h`. */
  lemma SplitAppend(q: seq<real>, b: seq<real>, h: nat)
    requires h <= |q|
    ensures (q + b)[..h] == q[..h] && (q + b)[h..] == q[h..] + b
  {
  }

  /** Bypass: a hop the engine fails on reaches the output sample for sample. */
  lemma HopsBypass(model: DfModel, hop: HopSize, q: seq<real>, j: nat)
    requires (j + 1) * hop <= |q|
    requires model.run(model.attenLim, q[j * hop..(j + 1) * hop]).Err?
    ensures (j + 1) * hop <= |Hops(model, hop, q)|
    ensures Hops(model, hop, q)[j * hop..(j + 1) * hop] == q[j * hop..(j + 1) * hop]
  {
    HopsFrame(model, hop, q, j);
  }

  /** A hop the engine succeeds on reaches the output as the engine's full frame. */
  lemma HopsEnhanced(model: DfModel, hop: HopSize, q: seq<real>, j: nat, written: seq<real>)
    requires (j + 1) * hop <= |q|
    requires model.run(model.attenLim, q[j * hop..(j + 1) * hop]) == Ok(written)
    requires |written| == hop
    ensures (j + 1) * hop <= |Hops(model, hop, q)|
    ensures Hops(model, hop, q)[j * hop..(j + 1) * hop] == written
  {
    HopsFrame(model, hop, q, j);
  }

  /** An engine that fails on every frame turns the plugin into a pure delay line. */
  lemma {:induction false} HopsAllFail(model: DfModel, hop: HopSize, q: seq<real>)
    requires forall f: seq<real> | |f| == hop :: model.run(model.attenLim, f).Err?
    ensures Hops(model, hop, q) == q[..|q| - |Remainder(hop, q)|]
    decreases |q|
  {
    if |q| >= hop {
      HopsAllFail(model, hop, q[hop..]);
      var r := Remainder(hop, q);
      assert q[hop..][..|q| - hop - |r|] == q[hop..|q| - |r|];
      assert q[..|q| - |r|] == q[..hop] + q[hop..|q| - |r|];
    }
  }

  /**
   * Block boundaries do not matter for the output: running the loop on `q`,
   * then appending `b` to what it left and running it again, appends the
   * same samples as running it once on `q + b`.
   */
  lemma {:induction false} HopsStreaming(model: DfModel, hop: HopSize, q: seq<real>, b: seq<real>)
    ensures Hops(model, hop, q) + Hops(model, hop, Remainder(hop, q) + b) == Hops(model, hop, q + b)
    decreases |q|
  {
    if |q| >= hop {
      var head, tail := q[..hop], q[hop..];
      HopsStreaming(model, hop, tail, b);
      SplitAppend(q, b, hop);
      var f := FrameOutput(model, head);
      var x, y := Hops(model, hop, tail), Hops(model, hop, Remainder(hop, tail) + b);
      assert Remainder(hop, q) == Remainder(hop, tail);
      assert Hops(model, hop, q) == f + x;
      assert Hops(model, hop, q + b) == f + Hops(model, hop, tail + b);
      assert (f + x) + y == f + (x + y);
    }
  }

  /** Block boundaries do not matter for what stays queued either. */
  lemma {:induction false} RemainderStreaming(hop: HopSize, q: seq<real>, b: seq<real>)
    ensures Remainder(hop, Remainder(hop, q) + b) == Remainder(hop, q + b)
    decreases |q|
  {
    if |q| >= hop {
      var tail := q[hop..];
      RemainderStreaming(hop, tail, b);
      assert Remainder(hop, q) == Remainder(hop, tail);
      assert (q + b)[hop..] == tail + b;
      assert Remainder(hop, q + b) == Remainder(hop, tail + b);
    }
  }

  /** The samples of consecutive mono blocks, in arrival order. */
  function Concat(blocks: seq<seq<real>>): (r: seq<real>) {
    if blocks == [] then [] else Concat(blocks[..|blocks| - 1]) + blocks[|blocks| - 1]
  }

  /**
   * The input queue left, and everything appended to the output queue, after
   * feeding `blocks` one by one into an empty input queue and running the
   * hop loop after each, with the same engine throughout. Every sample fed
   * in is either still queued or has been output.
   */
  function Stream(model: DfModel, hop: HopSize, blocks: seq<seq<real>>): (r: (seq<real>, seq<real>))
    ensures |r.0| < hop
    ensures |r.0| + |r.1| == |Concat(blocks)|
  {
    if blocks == [] then ([], [])
    else
      var (rest, produced) := Stream(model, hop, blocks[..|blocks| - 1]);
      var queued := rest + blocks[|blocks| - 1];
      HopsLength(model, hop, queued);
      (Remainder(hop, queued), produced + Hops(model, hop, queued))
  }

  /** Feeding blocks one at a time is the same as feeding their concatenation at once. */
  lemma {:induction false} StreamIsBatch(model: DfModel, hop: HopSize, blocks: seq<seq<real>>)
    ensures Stream(model, hop, blocks) == (Remainder(hop, Concat(blocks)), Hops(model, hop, Concat(blocks)))
  {
    if blocks != [] {
      var init := blocks[..|blocks| - 1];
      StreamIsBatch(model, hop, init);
      HopsStreaming(model, hop, Concat(init), blocks[|blocks| - 1]);
      RemainderStreaming(hop, Concat(init), blocks[|blocks| - 1]);
    }
  }

  /**
   * Conservation over a session: when the blocks fed in total a whole number
   * of hops, the output queue received exactly as many samples as the input
   * queue and the input queue is empty again.
   */
  lemma StreamConservation(model: DfModel, hop: HopSize, blocks: seq<seq<real>>)
    requires |Concat(blocks)| % hop == 0
    ensures |Stream(model, hop, blocks).1| == |Concat(blocks)|
    ensures Stream(model, hop, blocks).0 == []
  {
    var all := Concat(blocks);
    StreamIsBatch(model, hop, blocks);
    HopsLength(model, hop, all);
    RemainderLength(hop, all);
    assert |Remainder(hop, all)| == 0;
  }

  /**
   * From empty queues, a first block that is not a whole number of hops
   * cannot be answered in full, so it is written back dry.
   */
  lemma UnderrunOnUnalignedStart(model: DfModel, hop: HopSize, q: seq<real>)
    requires |q| % hop != 0
    ensures |Hops(model, hop, q)| < |q|
  {
    HopsLength(model, hop, q);
  }
}
