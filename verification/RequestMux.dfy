/** The registers of the read request path around the tree arbiter and the FIFO. */
module RequestMux {
  import opened Common
  import opened MrdReqMux
  import TreeArbiter
  import ScalableArbiter
  import MuxPipeline
  import FifoCore

  /** rouded_to_pow2: double 16 until it covers all channels. */
  method RoundedToPow2(channels: nat) returns (width: nat, depth: nat)
    ensures width == Rounded(channels, 16) && width == Pow2(depth) && depth > 0
  {
    width, depth := 16, 4;
    while width < channels
      invariant width == Pow2(depth) && depth > 0
      invariant Rounded(channels, width) == Rounded(channels, 16)
      decreases channels - width
    {
      width, depth := 2 * width, depth + 1;
    }
  }

  class Mux<P> {
    const cfg: Config<P>
    const arb: ScalableArbiter.Arbiter
    const fifo: FifoCore.Fifo<Word<P>>
    var ackD: seq<bool>
    var weDelay: seq<bool>
    var stages: seq<seq<Word<P>>>
    var fifoRe: bool
    var wait: bool
    var txReq: bool
    var tx: P
    var curr: seq<bool>
    var ack: seq<bool>

    ghost predicate Valid()
      reads this, arb, fifo, fifo.dpram
    {
      && ValidConfig(cfg)
      && arb.Valid() && arb.width == Rounded(cfg.channels, 16) && arb.selectWidth == cfg.selectWidth
      && fifo.Valid() && fifo.Capacity() == FIFO_CAPACITY
      && |ackD| == |ack| == cfg.channels
      && |weDelay| == MuxPipeline.LEVELS + 1 && MuxPipeline.Sized(stages)
    }

    ghost function Abs(): State<P>
      requires Valid()
      reads this, arb, fifo, fifo.dpram
    {
      State(arb.grantState, arb.grant[..cfg.channels], arb.sel, ackD, weDelay, stages,
            fifo.queue, fifo.dav, fifo.rd, fifoRe, wait, txReq, tx, curr, ack)
    }

    constructor (cfg: Config<P>)
      requires ValidConfig(cfg)
      ensures Valid() && this.cfg == cfg
      ensures fresh(arb) && fresh(fifo) && fresh(fifo.dpram)
      ensures forall i: Inputs<P> :: |i.req| == |i.payload| == cfg.channels ==> Start(cfg, Abs(), i)
    {
      var width, depth := RoundedToPow2(cfg.channels);
      var nothing := Word(seq(cfg.channels, _ => false), cfg.zero);
      this.cfg := cfg;
      arb := new ScalableArbiter.Arbiter(depth, cfg.selectWidth);
      fifo := new FifoCore.Fifo(6, nothing);
      ackD, ack, curr := nothing.grant, nothing.grant, nothing.grant;
      weDelay := seq(MuxPipeline.LEVELS + 1, _ => false);
      stages := seq(MuxPipeline.LEVELS + 1, k requires 0 <= k <= MuxPipeline.LEVELS =>
        seq(Pow2(MuxPipeline.LEVELS - k), _ => nothing));
      fifoRe, wait, txReq, tx := false, false, false, cfg.zero;
    }

    /** arbit_mrdreq_ack_sig is not zero. */
    method SomeRise() returns (rise: bool)
      requires Valid()
      ensures rise == Rises(Abs())
    {
      rise := false;
      for c := 0 to cfg.channels
        invariant rise == exists k :: 0 <= k < c && arb.grant[k] && !ackD[k]
      {
        rise := rise || (arb.grant[c] && !ackD[c]);
      }
      assert forall k :: 0 <= k < cfg.channels ==> Abs().grant[k] == arb.grant[k];
    }

    /** The registers between the arbiter and the FIFO. */
    method LoadPipe(payload: seq<P>)
      requires Valid() && |payload| == cfg.channels
      modifies this`ackD, this`weDelay, this`stages
      ensures Valid()
      ensures ackD == old(Abs()).grant
      ensures weDelay == [Rises(old(Abs()))] + old(weDelay)[..MuxPipeline.LEVELS]
      ensures stages == MuxPipeline.Next(old(stages), MuxInput(cfg, old(Abs()).grant, payload), arb.sel)
    {
      hide MuxPipeline.Next, Pow2;
      var rise := SomeRise();
      var grant := arb.grant[..cfg.channels];
      stages := MuxPipeline.Shift(stages, MuxInput(cfg, grant, payload), arb.sel);
      weDelay := [rise] + weDelay[..MuxPipeline.LEVELS];
      ackD := grant;
    }

    /** The registers between the FIFO and the transmitter, from what the FIFO shows. */
    method LoadBack(dav: bool, rd: Word<P>, empty: bool, txDone: bool)
      requires |ack| == cfg.channels && (txDone ==> |curr| == cfg.channels)
      modifies this`fifoRe, this`wait, this`txReq, this`tx, this`curr, this`ack
      ensures fifoRe == (!old(wait) && !empty)
      ensures wait == ((old(wait) || !empty) && !txDone)
      ensures txReq == ((dav || old(txReq)) && !txDone)
      ensures tx == (if dav then rd.payload else old(tx))
      ensures curr == (if dav then rd.grant else old(curr))
      ensures ack == (if txDone then old(curr) else seq(cfg.channels, _ => false))
      ensures |ack| == cfg.channels
    {
      ack := if txDone then curr else seq(cfg.channels, _ => false);
      if dav {
        txReq, tx, curr := true, rd.payload, rd.grant;
      }
      fifoRe := false;
      if !wait && !empty {
        fifoRe, wait := true, true;
      }
      if txDone {
        txReq, wait := false, false;
      }
    }

    method Clock(i: Inputs<P>)
      requires Valid() && InputsFit(cfg, Abs(), i) && (i.txDone ==> |curr| == cfg.channels)
      modifies this, arb, fifo, fifo.dpram
      ensures Valid()
      ensures Next(cfg, old(Abs()), i, Abs())
    {
      hide TreeArbiter.GrantsLeaf, TreeArbiter.Descend, FifoCore.NextQueue, MuxPipeline.Next, Rises, MuxInput,
           Rounded, Padded, Pow2;
      var we, word, re := weDelay[MuxPipeline.LEVELS], stages[MuxPipeline.LEVELS][0], fifoRe;
      var dav, rd, empty := fifo.dav, fifo.rd, fifo.Empty();
      LoadPipe(i.payload);
      LoadBack(dav, rd, empty, i.txDone);
      fifo.Clock(we, word, re);
      arb.Clock(Padded(i.req, arb.width), true);
    }
  }
}
