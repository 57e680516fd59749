/** scalable_arbiter: the node states, the wires between the nodes settled stage
    by stage, and the registered outputs. */
module ScalableArbiter {
  import opened Common
  import TreeArbiter

  class Arbiter {
    const depth: nat
    const width: nat
    const selectWidth: nat
    var grantState: seq<bool>
    var grant: seq<bool>
    var sel: nat
    var valid: bool

    ghost predicate Valid()
      reads this
    {
      depth > 0 && width == Pow2(depth) >= 2 && |grantState| == width - 1 && |grant| == width
    }

    constructor (depth: nat, selectWidth: nat)
      requires depth > 0
      ensures Valid() && this.depth == depth && this.selectWidth == selectWidth
      ensures forall i :: 0 <= i < |grant| ==> !grant[i]
      ensures sel == 0
    {
      this.depth, this.selectWidth := depth, selectWidth;
      width := Pow2(depth);
      grantState, grant := seq(Pow2(depth) - 1, _ => false), seq(Pow2(depth), _ => false);
      sel, valid := 0, false;
    }

    /** One clock: node states and output registers load together. */
    method Clock(req: seq<bool>, enable: bool)
      requires Valid() && |req| == width
      modifies this
      ensures Valid()
      ensures grantState == TreeArbiter.Next(old(grantState), req)
      ensures forall i :: 0 <= i < width ==>
                grant[i] == TreeArbiter.GrantsLeaf(old(grantState), req, enable, i)
      ensures sel == TreeArbiter.Chosen(old(grantState)) % Pow2(selectWidth)
      ensures valid == TreeArbiter.Valid(old(grantState), req, 0)
    {
      hide TreeArbiter.Valid, TreeArbiter.Granted, TreeArbiter.Descend;
      var wires, index := Rise(depth, grantState, req);
      var grants := Fall(grantState, req, wires, enable);
      valid := wires[0];
      grant := grants[width - 1..];
      sel := index % Pow2(selectWidth);
      grantState := Load(grantState, req, wires);
    }
  }

  /** With the requests held and the arbiter enabled, the third clock puts one
      requesting leaf, and no other, on the registered grant. */
  method ThreeClocks(a: Arbiter, req: seq<bool>) returns (w: nat)
    requires a.Valid() && |req| == a.width && true in req
    modifies a
    ensures a.Valid() && w < a.width && req[w]
    ensures forall i :: 0 <= i < a.width ==> (a.grant[i] <==> i == w)
    ensures a.sel == w % Pow2(a.selectWidth)
  {
    hide TreeArbiter.Granted, TreeArbiter.Descend, TreeArbiter.NextState;
    ghost var states := a.grantState;
    a.Clock(req, true);
    a.Clock(req, true);
    assert a.grantState == TreeArbiter.After(states, req, 2) by {
      assert TreeArbiter.After(states, req, 1) == TreeArbiter.Next(TreeArbiter.After(states, req, 0), req);
    }
    TreeArbiter.GrantedFromSecondClock(states, req, 2);
    w := TreeArbiter.Chosen(a.grantState);
    a.Clock(req, true);
  }

  /** The h select bits below k have the value v. */
  ghost predicate Selects(states: seq<bool>, k: nat, h: nat, v: nat)
    requires k < 2 * |states| + 1
  {
    && |TreeArbiter.SelectBits(states, k)| == h
    && TreeArbiter.ToNat(TreeArbiter.SelectBits(states, k)) == v
  }

  lemma StageMux(states: seq<bool>, k: nat, h: nat, v: nat)
    requires k < |states|
    requires Selects(states, if states[k] then 2 * k + 2 else 2 * k + 1, h, v)
    ensures Selects(states, k, h + 1, if states[k] then Pow2(h) + v else v)
  {
    TreeArbiter.ToNatCons(states[k], TreeArbiter.SelectBits(states, if states[k] then 2 * k + 2 else 2 * k + 1));
  }

  /** wires[k] is settled for every k from `from` on. */
  ghost predicate Settled(states: seq<bool>, req: seq<bool>, wires: seq<bool>, from: nat)
    requires TreeArbiter.Fits(states, req) && |wires| == 2 * |req| - 1
  {
    forall k :: from <= k < |wires| ==> wires[k] == TreeArbiter.Valid(states, req, k)
  }

  /** The multiplexers of the stage with wires from..to deliver h select bits. */
  ghost predicate Muxed(states: seq<bool>, mux: seq<nat>, from: nat, to: nat, h: nat)
    requires to <= |mux| == 2 * |states| + 1
  {
    forall k :: from <= k < to ==> Selects(states, k, h, mux[k])
  }

  /** One stage of the tree: g wires come in and g/2 go out. */
  method RiseStage(states: seq<bool>, req: seq<bool>, wires: seq<bool>, mux: seq<nat>, g: nat, weight: nat,
                   ghost h: nat)
    returns (wires': seq<bool>, mux': seq<nat>)
    requires TreeArbiter.Fits(states, req) && |wires| == |mux| == 2 * |req| - 1
    requires 2 <= g <= |req| && g % 2 == 0 && weight == Pow2(h)
    requires Settled(states, req, wires, g - 1)
    requires Muxed(states, mux, g - 1, 2 * g - 1, h)
    ensures |wires'| == |mux'| == 2 * |req| - 1
    ensures Settled(states, req, wires', g / 2 - 1)
    ensures Muxed(states, mux', g / 2 - 1, g - 1, h + 1)
  {
    hide TreeArbiter.SelectBits, TreeArbiter.ToNat, Pow2;
    wires', mux' := wires, mux;
    var i := g / 2;
    while i > 0
      invariant 0 <= i <= g / 2
      invariant |wires'| == |mux'| == 2 * |req| - 1
      invariant Settled(states, req, wires', g / 2 - 1 + i)
      invariant Muxed(states, mux', g - 1, 2 * g - 1, h)
      invariant Muxed(states, mux', g / 2 - 1 + i, g - 1, h + 1)
    {
      i := i - 1;
      var k := g / 2 - 1 + i;
      StageMux(states, k, h, mux'[if states[k] then 2 * k + 2 else 2 * k + 1]);
      wires' := wires'[k := (wires'[2 * k + 1] && !states[k]) || wires'[2 * k + 2]];
      mux' := mux'[k := if states[k] then weight + mux'[2 * k + 2] else mux'[2 * k + 1]];
    }
  }

  /** The request wires and the select multiplexers, from the leaf stage up. */
  method Rise(depth: nat, states: seq<bool>, req: seq<bool>) returns (wires: seq<bool>, index: nat)
    requires TreeArbiter.Fits(states, req) && |req| == Pow2(depth)
    ensures |wires| == 2 * |req| - 1
    ensures Settled(states, req, wires, 0)
    ensures index == TreeArbiter.Chosen(states)
  {
    hide TreeArbiter.Descend;
    wires := seq(|req| - 1, _ => false) + req;
    var mux: seq<nat> := seq(2 * |req| - 1, _ => 0);
    var g, weight := |req|, 1;
    ghost var h := 0;
    assert Pow2(0) == 1;
    while g >= 2
      invariant |wires| == |mux| == 2 * |req| - 1
      invariant h <= depth && g == Pow2(depth - h) <= |req| && weight == Pow2(h)
      invariant Settled(states, req, wires, g - 1)
      invariant Muxed(states, mux, g - 1, 2 * g - 1, h)
      decreases g
    {
      assert h < depth && g == 2 * Pow2(depth - h - 1);
      wires, mux := RiseStage(states, req, wires, mux, g, weight, h);
      g, weight, h := g / 2, weight * 2, h + 1;
    }
    assert Selects(states, 0, h, mux[0]);
    index := mux[0];
    TreeArbiter.SelectIsIndex(states, depth);
  }

  /** The first n grant wires are settled. */
  ghost predicate Steered(states: seq<bool>, req: seq<bool>, enable: bool, grants: seq<bool>, n: nat)
    requires TreeArbiter.Fits(states, req) && n <= |grants| == 2 * |req| - 1
  {
    forall j :: 0 <= j < n ==> grants[j] == TreeArbiter.Granted(states, req, enable, j)
  }

  lemma GrantSplits(states: seq<bool>, req: seq<bool>, wires: seq<bool>, enable: bool, grants: seq<bool>, k: nat)
    requires TreeArbiter.Fits(states, req) && |wires| == |grants| == 2 * |req| - 1 && k < |states|
    requires Settled(states, req, wires, 0)
    requires Steered(states, req, enable, grants, 2 * k + 1)
    ensures Steered(states, req, enable,
                    grants[2 * k + 1 := wires[2 * k + 1] && !states[k] && grants[k]]
                          [2 * k + 2 := wires[2 * k + 2] && states[k] && grants[k]],
                    2 * k + 3)
  {
    var lower, upper := 2 * k + 1, 2 * k + 2;
    assert TreeArbiter.Parent(lower) == k && TreeArbiter.Parent(upper) == k;
    assert !TreeArbiter.IsUpper(lower) && TreeArbiter.IsUpper(upper);
    assert grants[k] == TreeArbiter.Granted(states, req, enable, k);
    assert TreeArbiter.Granted(states, req, enable, lower) == (wires[lower] && !states[k] && grants[k]);
    assert TreeArbiter.Granted(states, req, enable, upper) == (wires[upper] && states[k] && grants[k]);
  }

  /** The grant wires, from the root down. */
  method Fall(states: seq<bool>, req: seq<bool>, wires: seq<bool>, enable: bool) returns (grants: seq<bool>)
    requires TreeArbiter.Fits(states, req) && |wires| == 2 * |req| - 1
    requires Settled(states, req, wires, 0)
    ensures |grants| == 2 * |req| - 1
    ensures Steered(states, req, enable, grants, |grants|)
  {
    grants := seq(2 * |req| - 1, _ => enable);
    assert grants[0] == TreeArbiter.Granted(states, req, enable, 0);
    var k := 0;
    hide Steered, Settled;
    while k < |states|
      invariant 0 <= k <= |states|
      invariant |grants| == 2 * |req| - 1
      invariant Steered(states, req, enable, grants, 2 * k + 1)
    {
      GrantSplits(states, req, wires, enable, grants, k);
      grants := grants[2 * k + 1 := wires[2 * k + 1] && !states[k] && grants[k]]
                      [2 * k + 2 := wires[2 * k + 2] && states[k] && grants[k]];
      k := k + 1;
    }
  }

  /** The next node states, from the settled request wires. */
  function Load(states: seq<bool>, req: seq<bool>, wires: seq<bool>): (r: seq<bool>)
    requires TreeArbiter.Fits(states, req) && |wires| == 2 * |req| - 1
    requires Settled(states, req, wires, 0)
    ensures r == TreeArbiter.Next(states, req)
  {
    seq(|states|, k requires 0 <= k < |states| =>
      (wires[2 * k + 2] && !wires[2 * k + 1]) || (wires[2 * k + 2] && states[k]))
  }
}
