/** The output FIFO is filled by a pipeline that cannot be stalled and is
    protected only by a half-full flag that arrives one clock late. */
module OutputFifo {
  import opened Common
  import opened StreamFifo

  /** The bound: beats in the output FIFO and in the pipeline together. */
  predicate Bounded(cfg: Config, s: State) {
    && cfg.ramPipeline + 2 < cfg.halfDepth
    && |s.pipe| == cfg.ramPipeline + 1
    && (!cfg.outputFifo ==> s.outReg == None && s.outQueue == [] && !s.halfFull)
    && (!s.halfFull ==> |s.outQueue| <= cfg.halfDepth)
    && |s.outQueue| + |PipeBeats(s.pipe)| <= cfg.halfDepth + cfg.ramPipeline + 2
  }

  lemma {:induction false} PipeBeatsBound(pipe: seq<Option<Beat>>)
    ensures |PipeBeats(pipe)| <= |pipe|
  {
    if pipe != [] {
      PipeBeatsBound(pipe[..|pipe| - 1]);
    }
  }

  lemma {:induction false} EmptyPipe(n: nat)
    ensures PipeBeats(seq(n, _ => None)) == []
  {
    if n > 0 {
      EmptyPipe(n - 1);
      var pipe: seq<Option<Beat>> := seq(n, _ => None);
      assert pipe[..n - 1] == seq(n - 1, _ => None);
    }
  }

  /** The address width chosen from RAM_PIPELINE leaves room above the bound. */
  lemma SizingSuffices(cfg: Config)
    requires cfg.Sized()
    ensures cfg.halfDepth + cfg.ramPipeline + 2 < cfg.OutputDepth()
    ensures if cfg.ramPipeline < 2 then cfg.OutputDepth() == 8
            else cfg.halfDepth < 2 * cfg.ramPipeline + 7 <= cfg.OutputDepth()
  {
    if cfg.ramPipeline < 2 {
      assert Pow2(1) == 2 && Pow2(2) == 4 && Pow2(3) == 8;
    }
  }

  lemma OutputConserves(cfg: Config, s: State, ready: bool)
    requires cfg.outputFifo && |s.outQueue| < cfg.OutputDepth()
    ensures Emitted(cfg, s, ready) + (AsSeq(NextOutput(cfg, s, ready)) + NextQueue(cfg, s, ready))
            == AsSeq(s.outReg) + s.outQueue + AsSeq(Top(s))
  {
    if LoadsOutput(cfg, s, ready) {
      assert s.outQueue == [s.outQueue[0]] + s.outQueue[1..];
    }
  }

  lemma PipeConserves(cfg: Config, s: State, ready: bool)
    requires s.pipe != []
    ensures Delivered(s.pipe, PipeReady(cfg, s, ready)) + PipeBeats(NextPipe(cfg, s, ready))
            == PipeBeats(s.pipe) + AsSeq(Fetched(cfg, s, ready))
  {
    ShiftConserves(s.pipe, PipeReady(cfg, s, ready), Fetched(cfg, s, ready));
  }

  /** Three stretches in a row: what leaves the first enters the second. */
  lemma Chain(emitted: seq<Beat>, out: seq<Beat>, out': seq<Beat>, moved: seq<Beat>,
              pipe: seq<Beat>, pipe': seq<Beat>, fetched: seq<Beat>)
    requires emitted + out' == out + moved
    requires moved + pipe' == pipe + fetched
    ensures emitted + (out' + pipe') == out + pipe + fetched
  {
    Associate(emitted, out', pipe');
    Associate(out, moved, pipe');
    Associate(out, pipe, fetched);
  }

  /** The read side hands over beats in order; an output FIFO with room loses none. */
  lemma ReadConserves(cfg: Config, s: State, ready: bool)
    requires Bounded(cfg, s)
    ensures Emitted(cfg, s, ready)
            + Flight(NextOutput(cfg, s, ready), NextQueue(cfg, s, ready), NextPipe(cfg, s, ready))
            == InFlight(s) + AsSeq(Fetched(cfg, s, ready))
  {
    PipeConserves(cfg, s, ready);
    var out := AsSeq(s.outReg) + s.outQueue;
    var out' := AsSeq(NextOutput(cfg, s, ready)) + NextQueue(cfg, s, ready);
    var moved := if cfg.outputFifo || ready then AsSeq(Top(s)) else [];
    if cfg.outputFifo {
      OutputConserves(cfg, s, ready);
    } else {
      assert out == out' == [] && Emitted(cfg, s, ready) == moved;
    }
    Chain(Emitted(cfg, s, ready), out, out', moved, PipeBeats(s.pipe), PipeBeats(NextPipe(cfg, s, ready)),
          AsSeq(Fetched(cfg, s, ready)));
  }

  lemma Regroup(out: seq<Beat>, emitted: seq<Beat>, flight: seq<Beat>, flight': seq<Beat>,
                fetched: seq<Beat>, rest: seq<Beat>, commit: seq<Beat>)
    requires emitted + flight' == flight + fetched
    ensures out + emitted + flight' + (rest + commit) == out + flight + (fetched + rest) + commit
  {
    Associate(out, emitted, flight');
    Associate(out, flight, fetched);
    Associate(out + flight + fetched, rest, commit);
    Associate(out + flight, fetched, rest);
  }

  /** Every beat ever committed is emitted, in flight or still in memory. */
  lemma StreamConserved(cfg: Config, t: Trace, i: Input)
    requires Bounded(cfg, t.state)
    ensures StoredStream(Advance(cfg, t, i)) == StoredStream(t) + Write(cfg, t.state, i).commit
  {
    hide Write, NextPipe, NextOutput, NextQueue, Emitted, PipeBeats;
    var s := t.state;
    var fetched := AsSeq(Fetched(cfg, s, i.ready));
    ReadConserves(cfg, s, i.ready);
    assert s.committed == fetched + Rest(cfg, s, i.ready);
    Regroup(t.log.emitted, Emitted(cfg, s, i.ready), InFlight(s), InFlight(Step(cfg, s, i)),
            fetched, Rest(cfg, s, i.ready), Write(cfg, s, i).commit);
  }

  lemma BoundKept(cfg: Config, s: State, i: Input)
    requires Bounded(cfg, s)
    ensures Bounded(cfg, Step(cfg, s, i))
  {
    var pipe := NextPipe(cfg, s, i.ready);
    PipeBeatsBound(s.pipe);
    PipeBeatsBound(pipe);
    PipeConserves(cfg, s, i.ready);
    var fetched := AsSeq(Fetched(cfg, s, i.ready));
    assert |Delivered(s.pipe, PipeReady(cfg, s, i.ready))| + |PipeBeats(pipe)| == |PipeBeats(s.pipe)| + |fetched|;
  }

  lemma {:induction false} RunBounded(cfg: Config, inputs: seq<Input>)
    requires cfg.ramPipeline + 2 < cfg.halfDepth
    ensures Bounded(cfg, Run(cfg, inputs).state)
  {
    if inputs == [] {
      EmptyPipe(cfg.ramPipeline + 1);
    } else {
      var n := |inputs| - 1;
      RunBounded(cfg, inputs[..n]);
      BoundKept(cfg, Run(cfg, inputs[..n]).state, inputs[n]);
    }
  }

  /** For every RAM_PIPELINE and every run, the output FIFO never meets a beat
      while full: the guard on its write is never the reason a beat is lost. */
  lemma NeverOverflows(cfg: Config, inputs: seq<Input>)
    requires cfg.Sized()
    ensures
      var s := Run(cfg, inputs).state;
      && |s.outQueue| + |PipeBeats(s.pipe)| <= cfg.halfDepth + cfg.ramPipeline + 2
      && |s.outQueue| < cfg.OutputDepth()
  {
    SizingSuffices(cfg);
    RunBounded(cfg, inputs);
  }
}
