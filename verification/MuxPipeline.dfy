/** The pipelined multiplexer of the read request path: an input register and nine
    levels that halve 512 words down to one, each level clocked, each steered by
    its own bit of one shared index. */
module MuxPipeline {
  import opened Common

  /** The input register is stage 0; stage k holds 2^(9-k) words. */
  const LEVELS: nat := 9

  predicate Sized<W>(stages: seq<seq<W>>) {
    |stages| == LEVELS + 1 && forall k :: 0 <= k <= LEVELS ==> |stages[k]| == Pow2(LEVELS - k)
  }

  function Shr(x: nat, k: nat): nat {
    if k == 0 then x else Shr(x, k - 1) / 2
  }

  function Bit(x: nat, k: nat): nat {
    Shr(x, k) % 2
  }

  /** One level: every pair of words gives the one that the bit selects. */
  function Halved<W>(words: seq<W>, bit: nat): (r: seq<W>)
    requires bit < 2
    ensures |r| == |words| / 2
    ensures forall j :: 0 <= j < |r| ==> r[j] == words[2 * j + bit]
  {
    seq(|words| / 2, j requires 0 <= j < |words| / 2 => words[2 * j + bit])
  }

  lemma HalfSizes<W>(stages: seq<seq<W>>)
    requires Sized(stages)
    ensures forall k :: 0 <= k < LEVELS ==> |stages[k]| / 2 == Pow2(LEVELS - k - 1)
  {
    forall k | 0 <= k < LEVELS
      ensures |stages[k]| / 2 == Pow2(LEVELS - k - 1)
    {
      assert Pow2(LEVELS - k) == 2 * Pow2(LEVELS - k - 1);
    }
  }

  /** One clock of all stages; the index is the same for all levels in one clock. */
  function Next<W>(stages: seq<seq<W>>, input: seq<W>, index: nat): (r: seq<seq<W>>)
    requires Sized(stages) && |input| == Pow2(LEVELS)
    ensures Sized(r)
  {
    HalfSizes(stages);
    seq(LEVELS + 1, k requires 0 <= k <= LEVELS =>
      if k == 0 then input else Halved(stages[k - 1], Bit(index, k - 1)))
  }

  /** mux_2_to_1 over one level, word by word. */
  method Level<W>(words: seq<W>, bit: nat) returns (r: seq<W>)
    requires bit < 2
    ensures r == Halved(words, bit)
  {
    r := [];
    for j := 0 to |words| / 2
      invariant |r| == j
      invariant forall i :: 0 <= i < j ==> r[i] == words[2 * i + bit]
    {
      r := r + [if bit == 1 then words[2 * j + 1] else words[2 * j]];
    }
  }

  method Shift<W>(stages: seq<seq<W>>, input: seq<W>, index: nat) returns (r: seq<seq<W>>)
    requires Sized(stages) && |input| == Pow2(LEVELS)
    ensures r == Next(stages, input, index)
  {
    hide Pow2;
    r := [input];
    for k := 1 to LEVELS + 1
      invariant |r| == k
      invariant forall i :: 0 <= i < k ==> r[i] == Next(stages, input, index)[i]
    {
      var level := Level(stages[k - 1], Bit(index, k - 1));
      r := r + [level];
    }
  }

  lemma {:induction false} ShrBound(x: nat, k: nat, n: nat)
    requires k <= n && x < Pow2(n)
    ensures Shr(x, k) < Pow2(n - k)
  {
    if k > 0 {
      ShrBound(x, k - 1, n);
      assert Pow2(n - (k - 1)) == 2 * Pow2(n - k);
    }
  }

  /** A word on the path of the index moves one stage along it. */
  lemma WordMoves<W>(stages: seq<seq<W>>, input: seq<W>, index: nat, k: nat)
    requires Sized(stages) && |input| == Pow2(LEVELS) && index < Pow2(LEVELS) && k < LEVELS
    ensures Shr(index, k) < |stages[k]| && Shr(index, k + 1) < |Next(stages, input, index)[k + 1]|
    ensures Next(stages, input, index)[k + 1][Shr(index, k + 1)] == stages[k][Shr(index, k)]
  {
    ShrBound(index, k, LEVELS);
    ShrBound(index, k + 1, LEVELS);
    hide Pow2;
    assert Shr(index, k) == 2 * Shr(index, k + 1) + Bit(index, k);
  }

  /** The stages after the clocks of a run of inputs and indices. */
  function Run<W>(stages: seq<seq<W>>, inputs: seq<seq<W>>, indices: seq<nat>, n: nat): (r: seq<seq<W>>)
    requires Sized(stages) && n <= |inputs| == |indices|
    requires forall t :: 0 <= t < |inputs| ==> |inputs[t]| == Pow2(LEVELS)
    ensures Sized(r)
  {
    if n == 0 then stages else Next(Run(stages, inputs, indices, n - 1), inputs[n - 1], indices[n - 1])
  }

  /** Alignment: whatever the other inputs are, if the index stays at c in the nine
      clocks after clock t, then ten clocks after t the single output word is the
      input word number c of clock t. */
  lemma {:induction false} OutputIsInput<W>(stages: seq<seq<W>>, inputs: seq<seq<W>>, indices: seq<nat>, t: nat,
                                            k: nat, c: nat)
    requires Sized(stages) && |inputs| == |indices| && c < Pow2(LEVELS)
    requires forall u :: 0 <= u < |inputs| ==> |inputs[u]| == Pow2(LEVELS)
    requires k <= LEVELS && t + 1 + k <= |inputs|
    requires forall u :: t < u <= t + k ==> indices[u] == c
    ensures Shr(c, k) < |Run(stages, inputs, indices, t + 1 + k)[k]|
    ensures Run(stages, inputs, indices, t + 1 + k)[k][Shr(c, k)] == inputs[t][c]
  {
    if k > 0 {
      OutputIsInput(stages, inputs, indices, t, k - 1, c);
      WordMoves(Run(stages, inputs, indices, t + k), inputs[t + k], c, k - 1);
    }
  }
}
