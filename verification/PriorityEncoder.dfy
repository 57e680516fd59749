/** The priority encoder: a tree of pairwise stages finds the lowest or the
    highest set bit, for every input width. */
module PriorityEncoder {
  import opened Common

  function Levels(width: nat): nat {
    if width > 2 then Clog2(width) else 1
  }

  /** The input padded with zeros to a power of two. */
  function Padded(input: seq<bool>): (r: seq<bool>)
    ensures |r| == Pow2(Levels(|input|))
    ensures forall k :: 0 <= k < |r| ==> r[k] == (k < |input| && input[k])
  {
    var w := Pow2(Levels(|input|));
    assert |input| <= w by {
      assert Pow2(1) == 2;
    }
    seq(w, k requires 0 <= k < w => k < |input| && input[k])
  }

  /** First input of the group that pair n of stage l covers. */
  function Base(l: nat, n: nat): nat {
    n * Pow2(l + 1)
  }

  predicate Covered(bits: seq<bool>, l: nat, n: nat) {
    Base(l, n) + Pow2(l + 1) <= |bits|
  }

  /** Two neighbouring groups of one stage make one group of the next. */
  lemma Halves(l: nat, n: nat)
    requires l > 0
    ensures Base(l - 1, 2 * n) == Base(l, n)
    ensures Base(l - 1, 2 * n + 1) == Base(l, n) + Pow2(l)
    ensures Pow2(l + 1) == 2 * Pow2(l)
  {
    assert Pow2(l + 1) == 2 * Pow2(l);
    assert (2 * n) * Pow2(l) == n * (2 * Pow2(l));
    assert (2 * n + 1) * Pow2(l) == (2 * n) * Pow2(l) + Pow2(l);
  }

  predicate StageValid(bits: seq<bool>, l: nat, n: nat)
    requires Covered(bits, l, n)
    decreases l
  {
    if l == 0 then
      assert Pow2(1) == 2 && Base(0, n) == n * 2;
      bits[2 * n] || bits[2 * n + 1]
    else
      Halves(l, n);
      StageValid(bits, l - 1, 2 * n) || StageValid(bits, l - 1, 2 * n + 1)
  }

  /** The encoded bits of pair n of stage l, read as a number. */
  function StageEnc(lsbHigh: bool, bits: seq<bool>, l: nat, n: nat): nat
    requires Covered(bits, l, n)
    decreases l
  {
    if l == 0 then
      assert Pow2(1) == 2 && Base(0, n) == n * 2;
      if lsbHigh then (if bits[2 * n] then 0 else 1) else (if bits[2 * n + 1] then 1 else 0)
    else
      Halves(l, n);
      if lsbHigh then
        if StageValid(bits, l - 1, 2 * n) then StageEnc(lsbHigh, bits, l - 1, 2 * n)
        else Pow2(l) + StageEnc(lsbHigh, bits, l - 1, 2 * n + 1)
      else
        if StageValid(bits, l - 1, 2 * n + 1) then Pow2(l) + StageEnc(lsbHigh, bits, l - 1, 2 * n + 1)
        else StageEnc(lsbHigh, bits, l - 1, 2 * n)
  }

  /** Bit k of bits[from..to] is set and no set bit has priority over it. */
  predicate Leads(lsbHigh: bool, bits: seq<bool>, from: nat, to: nat, k: nat)
    requires from <= to <= |bits|
  {
    && from <= k < to
    && bits[k]
    && forall j :: from <= j < to && bits[j] ==> if lsbHigh then k <= j else j <= k
  }

  lemma {:induction false} StageCorrect(lsbHigh: bool, bits: seq<bool>, l: nat, n: nat)
    requires Covered(bits, l, n)
    ensures
      var from, to := Base(l, n), Base(l, n) + Pow2(l + 1);
      if StageValid(bits, l, n) then
        Leads(lsbHigh, bits, from, to, from + StageEnc(lsbHigh, bits, l, n))
      else
        forall k :: from <= k < to ==> !bits[k]
    decreases l
  {
    if l == 0 {
      assert Pow2(1) == 2 && Base(0, n) == n * 2;
    } else {
      Halves(l, n);
      StageCorrect(lsbHigh, bits, l - 1, 2 * n);
      StageCorrect(lsbHigh, bits, l - 1, 2 * n + 1);
    }
  }

  datatype Encoded = Encoded(valid: bool, index: nat)

  function Encode(lsbHigh: bool, input: seq<bool>): Encoded
    requires |input| > 0
  {
    var bits := Padded(input);
    var top := Levels(|input|) - 1;
    assert Base(top, 0) == 0;
    Encoded(StageValid(bits, top, 0), StageEnc(lsbHigh, bits, top, 0))
  }

  /** For every width the encoder reports whether a bit is set, and which one is
      the lowest or the highest; padding never wins. */
  lemma EncoderFindsLeader(lsbHigh: bool, input: seq<bool>)
    requires |input| > 0
    ensures
      var e := Encode(lsbHigh, input);
      && (e.valid <==> true in input)
      && (e.valid ==> Leads(lsbHigh, input, 0, |input|, e.index))
  {
    var bits := Padded(input);
    var top := Levels(|input|) - 1;
    assert Base(top, 0) == 0;
    StageCorrect(lsbHigh, bits, top, 0);
    var e := Encode(lsbHigh, input);
    if e.valid {
      assert bits[e.index];
    } else {
      forall k | 0 <= k < |input|
        ensures !input[k]
      {
        assert !bits[k];
      }
    }
    forall k | 0 <= k < |input| && input[k]
      ensures e.valid && (if lsbHigh then e.index <= k else k <= e.index)
    {
      assert bits[k];
    }
  }
}
