/** The tree of two-input arbiter nodes behind scalable_arbiter. Wires and nodes
    are numbered as in the interconnect vectors: 0 is the root, the children of
    k are 2k+1 and 2k+2, and the leaves are the last `width` numbers. */
module TreeArbiter {
  import opened Common

  /** One state bit per node, one request per leaf. */
  predicate Fits(states: seq<bool>, req: seq<bool>) {
    |req| >= 2 && |states| == |req| - 1
  }

  predicate IsLeaf(width: nat, k: nat) {
    k + 1 >= width
  }

  /** interconnect_req[k]: node k passes a request on, except while it turns back. */
  predicate Valid(states: seq<bool>, req: seq<bool>, k: nat)
    requires Fits(states, req) && k < 2 * |req| - 1
    decreases 2 * |req| - k
  {
    if IsLeaf(|req|, k) then req[k + 1 - |req|]
    else (Valid(states, req, 2 * k + 1) && !states[k]) || Valid(states, req, 2 * k + 2)
  }

  predicate NextState(states: seq<bool>, req: seq<bool>, k: nat)
    requires Fits(states, req) && k < |states|
  {
    var lower, upper := Valid(states, req, 2 * k + 1), Valid(states, req, 2 * k + 2);
    (upper && !lower) || (upper && states[k])
  }

  function Next(states: seq<bool>, req: seq<bool>): (r: seq<bool>)
    requires Fits(states, req)
    ensures |r| == |states|
    ensures forall k :: 0 <= k < |r| ==> r[k] == NextState(states, req, k)
  {
    seq(|states|, k requires 0 <= k < |states| => NextState(states, req, k))
  }

  function Parent(k: nat): nat
    requires k > 0
  {
    (k - 1) / 2
  }

  predicate IsUpper(k: nat) {
    k % 2 == 0
  }

  /** interconnect_grant[k]: the parent's grant, steered by its state. */
  predicate Granted(states: seq<bool>, req: seq<bool>, enable: bool, k: nat)
    requires Fits(states, req) && k < 2 * |req| - 1
    decreases k
  {
    if k == 0 then enable
    else
      Valid(states, req, k) && states[Parent(k)] == IsUpper(k) && Granted(states, req, enable, Parent(k))
  }

  /** The leaf grant[i] outputs. */
  predicate GrantsLeaf(states: seq<bool>, req: seq<bool>, enable: bool, i: nat)
    requires Fits(states, req) && i < |req|
  {
    Granted(states, req, enable, |req| - 1 + i)
  }

  /** The leaf reached from k by following the state bits. */
  function Descend(states: seq<bool>, k: nat): (leaf: nat)
    requires k < 2 * |states| + 1
    ensures |states| <= leaf < 2 * |states| + 1
    decreases 2 * |states| - k
  {
    if k >= |states| then k else Descend(states, if states[k] then 2 * k + 2 else 2 * k + 1)
  }

  /** The port the state bits point at. */
  function Chosen(states: seq<bool>): (i: nat)
    ensures i <= |states|
  {
    Descend(states, 0) - |states|
  }

  /** The select network: each stage puts its own state on top of the bits that
      it muxes from its lower or upper half, most significant bit first. */
  function SelectBits(states: seq<bool>, k: nat): seq<bool>
    requires k < 2 * |states| + 1
    decreases 2 * |states| - k
  {
    if k >= |states| then []
    else [states[k]] + SelectBits(states, if states[k] then 2 * k + 2 else 2 * k + 1)
  }

  function ToNat(bits: seq<bool>): (n: nat)
    ensures n < Pow2(|bits|)
  {
    if bits == [] then 0 else (if bits[0] then Pow2(|bits| - 1) else 0) + ToNat(bits[1..])
  }

  /** A request at the leaf under k that the states point at reaches k. */
  lemma {:induction false} RequestRises(states: seq<bool>, req: seq<bool>, k: nat)
    requires Fits(states, req) && k < 2 * |req| - 1
    requires req[Descend(states, k) - |states|]
    ensures Valid(states, req, k)
    decreases 2 * |req| - k
  {
    if k < |states| {
      RequestRises(states, req, if states[k] then 2 * k + 2 else 2 * k + 1);
    }
  }

  /** A granted wire lies on the path of the state bits. */
  lemma {:induction false} GrantedOnPath(states: seq<bool>, req: seq<bool>, enable: bool, k: nat)
    requires Fits(states, req) && k < 2 * |req| - 1
    requires Granted(states, req, enable, k)
    ensures enable && Descend(states, 0) == Descend(states, k)
    decreases k
  {
    if k > 0 {
      GrantedOnPath(states, req, enable, Parent(k));
    }
  }

  /** Below a granted wire the grant follows the states down to a requesting leaf. */
  lemma {:induction false} GrantDescends(states: seq<bool>, req: seq<bool>, enable: bool, k: nat)
    requires Fits(states, req) && k < 2 * |req| - 1
    requires Granted(states, req, enable, k) && req[Descend(states, k) - |states|]
    ensures Granted(states, req, enable, Descend(states, k))
    decreases 2 * |req| - k
  {
    if k < |states| {
      var c := if states[k] then 2 * k + 2 else 2 * k + 1;
      RequestRises(states, req, c);
      assert Parent(c) == k;
      GrantDescends(states, req, enable, c);
    }
  }

  /** Mutual exclusion, exactly: leaf i is granted if and only if the arbiter is
      enabled, i requests, and the state bits point at i. */
  lemma GrantIsExclusive(states: seq<bool>, req: seq<bool>, enable: bool, i: nat)
    requires Fits(states, req) && i < |req|
    ensures GrantsLeaf(states, req, enable, i) <==> enable && req[i] && Chosen(states) == i
  {
    var leaf := |req| - 1 + i;
    if GrantsLeaf(states, req, enable, i) {
      GrantedOnPath(states, req, enable, leaf);
    }
    if enable && req[i] && Chosen(states) == i {
      GrantDescends(states, req, enable, 0);
    }
  }

  /** Clocking the nodes leaves the path to a requesting leaf alone. */
  lemma {:induction false} PathHolds(states: seq<bool>, req: seq<bool>, k: nat)
    requires Fits(states, req) && k < 2 * |req| - 1
    requires req[Descend(states, k) - |states|]
    ensures Descend(Next(states, req), k) == Descend(states, k)
    decreases 2 * |req| - k
  {
    if k < |states| {
      var c := if states[k] then 2 * k + 2 else 2 * k + 1;
      RequestRises(states, req, c);
      assert Next(states, req)[k] == NextState(states, req, k) == states[k];
      PathHolds(states, req, c);
    }
  }

  /** No preemption: a granted leaf whose request is still up in the next clock
      is granted then too, whatever the other requests do. */
  lemma GrantIsKept(states: seq<bool>, req: seq<bool>, req': seq<bool>, enable: bool, i: nat)
    requires Fits(states, req) && |req'| == |req| && i < |req|
    requires GrantsLeaf(states, req, enable, i) && req'[i]
    ensures GrantsLeaf(Next(states, req), req', enable, i)
  {
    GrantIsExclusive(states, req, enable, i);
    PathHolds(states, req, 0);
    GrantIsExclusive(Next(states, req), req', enable, i);
  }

  /** Some leaf below k requests. */
  predicate AnyBelow(req: seq<bool>, k: nat)
    requires k < 2 * |req| - 1
    decreases 2 * |req| - k
  {
    if IsLeaf(|req|, k) then req[k + 1 - |req|] else AnyBelow(req, 2 * k + 1) || AnyBelow(req, 2 * k + 2)
  }

  lemma {:induction false} ValidOnlyIfAny(states: seq<bool>, req: seq<bool>, k: nat)
    requires Fits(states, req) && k < 2 * |req| - 1
    ensures Valid(states, req, k) ==> AnyBelow(req, k)
    decreases 2 * |req| - k
  {
    if !IsLeaf(|req|, k) {
      ValidOnlyIfAny(states, req, 2 * k + 1);
      ValidOnlyIfAny(states, req, 2 * k + 2);
    }
  }

  /** One clock after the requests settle, every wire of the tree, at every
      level at once, says exactly whether a leaf below it requests. */
  lemma {:induction false} OneClockSettlesWires(states: seq<bool>, req: seq<bool>, k: nat)
    requires Fits(states, req) && k < 2 * |req| - 1
    ensures Valid(Next(states, req), req, k) == AnyBelow(req, k)
    decreases 2 * |req| - k
  {
    if !IsLeaf(|req|, k) {
      OneClockSettlesWires(states, req, 2 * k + 1);
      OneClockSettlesWires(states, req, 2 * k + 2);
      ValidOnlyIfAny(states, req, 2 * k + 2);
    }
  }

  /** Two clocks after, the state bits lead from k to a requesting leaf. */
  lemma {:induction false} TwoClocksSettlePath(states: seq<bool>, req: seq<bool>, k: nat)
    requires Fits(states, req) && k < 2 * |req| - 1 && AnyBelow(req, k)
    ensures
      var after := Next(Next(states, req), req);
      req[Descend(after, k) - |after|]
    decreases 2 * |req| - k
  {
    if !IsLeaf(|req|, k) {
      OneClockSettlesWires(states, req, 2 * k + 1);
      OneClockSettlesWires(states, req, 2 * k + 2);
      var once := Next(states, req);
      assert Next(once, req)[k] == NextState(once, req, k);
      TwoClocksSettlePath(states, req, if Next(once, req)[k] then 2 * k + 2 else 2 * k + 1);
    }
  }

  lemma {:induction false} AnyRises(req: seq<bool>, k: nat)
    requires k < 2 * |req| - 1 && AnyBelow(req, k)
    ensures AnyBelow(req, 0)
    decreases k
  {
    if k > 0 {
      AnyRises(req, Parent(k));
    }
  }

  function After(states: seq<bool>, req: seq<bool>, clocks: nat): (r: seq<bool>)
    requires Fits(states, req)
    ensures |r| == |states|
  {
    if clocks == 0 then states else Next(After(states, req, clocks - 1), req)
  }

  /** Latency that does not depend on the depth of the tree: whatever the state
      bits are, if the requests are held and some leaf requests, then from two
      clocks on one and the same requesting leaf is granted, and no other. */
  lemma {:induction false} GrantedFromSecondClock(states: seq<bool>, req: seq<bool>, clocks: nat)
    requires Fits(states, req) && true in req && clocks >= 2
    ensures
      var w := Chosen(After(states, req, 2));
      && req[w]
      && forall i :: 0 <= i < |req| ==> (GrantsLeaf(After(states, req, clocks), req, true, i) <==> i == w)
  {
    hide Granted, Descend, NextState;
    var w := Chosen(After(states, req, 2));
    if clocks == 2 {
      var i :| 0 <= i < |req| && req[i];
      AnyRises(req, |req| - 1 + i);
      TwoClocksSettlePath(states, req, 0);
      assert After(states, req, 2) == Next(Next(states, req), req) by {
        assert After(states, req, 1) == Next(After(states, req, 0), req);
      }
    } else {
      GrantedFromSecondClock(states, req, clocks - 1);
      var before := After(states, req, clocks - 1);
      GrantIsExclusive(before, req, true, w);
      PathHolds(before, req, 0);
    }
    forall i | 0 <= i < |req|
      ensures GrantsLeaf(After(states, req, clocks), req, true, i) <==> i == w
    {
      GrantIsExclusive(After(states, req, clocks), req, true, i);
    }
  }

  lemma ToNatCons(b: bool, rest: seq<bool>)
    ensures ToNat([b] + rest) == (if b then Pow2(|rest|) else 0) + ToNat(rest)
    ensures Pow2(|[b] + rest|) == 2 * Pow2(|rest|)
  {
    assert ([b] + rest)[1..] == rest;
  }

  lemma ChildWeight(k: nat, p: nat)
    ensures (2 * k + 2) * p == (k + 1) * (2 * p)
    ensures (2 * k + 3) * p == (k + 1) * (2 * p) + p
  {
    assert (2 * k + 3) * p == (2 * k + 2) * p + p;
  }

  /** The select bits below k, read as a number, tell the leaf's wire number. */
  lemma {:induction false} SelectNumbersLeaf(states: seq<bool>, k: nat)
    requires k < 2 * |states| + 1
    ensures Descend(states, k) + 1 == (k + 1) * Pow2(|SelectBits(states, k)|) + ToNat(SelectBits(states, k))
    decreases 2 * |states| - k
  {
    if k < |states| {
      var c := if states[k] then 2 * k + 2 else 2 * k + 1;
      SelectNumbersLeaf(states, c);
      hide ToNat, Pow2;
      ToNatCons(states[k], SelectBits(states, c));
      ChildWeight(k, Pow2(|SelectBits(states, c)|));
    }
  }

  lemma Pow2Apart(a: nat, b: nat, x: nat)
    requires a < b && x < 2 * Pow2(a)
    ensures x < Pow2(b)
  {
    Pow2Monotonic(a + 1, b);
  }

  /** For a power-of-two width the select output is the index of the leaf that
      the state bits point at, hence of the granted leaf. */
  lemma SelectIsIndex(states: seq<bool>, depth: nat)
    requires |states| + 1 == Pow2(depth)
    ensures |SelectBits(states, 0)| == depth
    ensures ToNat(SelectBits(states, 0)) == Chosen(states)
  {
    hide SelectBits, Descend, ToNat, Pow2;
    SelectNumbersLeaf(states, 0);
    var h := |SelectBits(states, 0)|;
    if h < depth {
      Pow2Apart(h, depth, Descend(states, 0) + 1);
    } else if depth < h {
      Pow2Apart(depth, h, Descend(states, 0) + 1);
    }
  }
}
