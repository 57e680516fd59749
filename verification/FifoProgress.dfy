/** The stream FIFO does not get stuck: when s_axis_tready is low, that a ready reader
    is served until nothing is left, and that the writer is let in again. */
module FifoProgress {
  import opened Common
  import opened StreamFifo
  import opened OutputFifo
  import FrameMode
  import MarkMode
  import GapFree

  predicate Contained(cfg: Config, s: State) {
    && |s.committed| + |s.pending| <= cfg.depth
    && (!cfg.frameFifo ==> s.pending == [])
  }

  lemma WritesAtOnce(cfg: Config, s: State, i: Input)
    requires s.pending == []
    ensures WriteStream(cfg, s, i).pending == []
  {
  }

  lemma {:induction false} StreamKeepsNothingBack(cfg: Config, inputs: seq<Input>)
    requires !cfg.frameFifo
    ensures Run(cfg, inputs).state.pending == []
  {
    if inputs != [] {
      var n := |inputs| - 1;
      hide WriteStream, AfterRead, AfterOutput, Observe;
      StreamKeepsNothingBack(cfg, inputs[..n]);
      WritesAtOnce(cfg, Run(cfg, inputs[..n]).state, inputs[n]);
    }
  }

  lemma RunContained(cfg: Config, inputs: seq<Input>)
    requires cfg.Valid() && cfg.Sized()
    ensures Bounded(cfg, Run(cfg, inputs).state) && Contained(cfg, Run(cfg, inputs).state)
  {
    hide Run, Bounded;
    SizingSuffices(cfg);
    RunBounded(cfg, inputs);
    if cfg.dropOversize {
      FrameMode.RunInv(cfg, inputs);
    } else if cfg.markWhenFull {
      var segments, tail := MarkMode.RunSorts(cfg, inputs);
    } else {
      MarkMode.Lossless(cfg, inputs);
    }
    if !cfg.frameFifo {
      StreamKeepsNothingBack(cfg, inputs);
    }
  }

  /** In every run and mode s_axis_tready is low exactly if the memory holds its size in
      words, none of DROP_WHEN_FULL and MARK_WHEN_FULL is set, and it is not all taken
      by one frame that is going to be dropped as oversize. */
  lemma ReadyExactly(cfg: Config, inputs: seq<Input>)
    requires cfg.Valid() && cfg.Sized()
    ensures
      var s := Run(cfg, inputs).state;
      && |s.committed| + |s.pending| <= cfg.depth
      && (!InputReady(cfg, s) <==>
          && |s.committed| + |s.pending| == cfg.depth && !cfg.dropWhenFull && !cfg.markWhenFull
          && !(cfg.dropOversize && s.committed == []))
  {
    hide Run, Bounded;
    RunContained(cfg, inputs);
  }

  // How far the beats inside are from the output

  /** A beat counts the clocks to the output side, plus two. */
  function PipeWeight(pipe: seq<Option<Beat>>): nat {
    if pipe == [] then 0 else PipeWeight(pipe[1..]) + (if pipe[0].Some? then |pipe| + 2 else 0)
  }

  function Weight(s: State): nat {
    (|s.pipe| + 3) * |s.committed| + PipeWeight(s.pipe) + 2 * |s.outQueue| + |AsSeq(s.outReg)|
  }

  function Measure(s: State): nat {
    2 * Weight(s) + (if s.halfFull then 1 else 0)
  }

  lemma {:induction false} PipeWeightMoves(front: seq<Option<Beat>>, top: Option<Beat>)
    ensures PipeWeight(front + [top]) >= PipeWeight(front) + (if top.Some? then 3 else 0)
    ensures PipeWeight(front + [top]) == PipeWeight(front) ==> top.None? && PipeWeight(front) == 0
  {
    if front == [] {
      assert [top][1..] == [];
    } else {
      PipeWeightMoves(front[1..], top);
      assert (front + [top])[1..] == front[1..] + [top];
    }
  }

  lemma {:induction false} NoWeight(pipe: seq<Option<Beat>>)
    ensures PipeWeight(pipe) == 0 ==> PipeBeats(pipe) == []
  {
    if pipe != [] {
      var front, top := pipe[..|pipe| - 1], pipe[|pipe| - 1];
      assert pipe == front + [top];
      PipeWeightMoves(front, top);
      NoWeight(front);
    }
  }

  lemma ShiftsOn(cfg: Config, s: State, head: Option<Beat>)
    requires s.pipe != []
    ensures
      var pipe' := Shift(s.pipe, true, head);
      && PipeWeight(pipe') <= PipeWeight(s.pipe) + (if head.Some? then |s.pipe| + 2 else 0)
                              - (if Top(s).Some? then 3 else 0)
      && (PipeWeight(s.pipe) > 0 ==>
            PipeWeight(pipe') < PipeWeight(s.pipe) + (if head.Some? then |s.pipe| + 2 else 0))
  {
    var front, top := s.pipe[..|s.pipe| - 1], s.pipe[|s.pipe| - 1];
    assert s.pipe == front + [top];
    GapFree.ShiftTaking(s.pipe, head);
    PipeWeightMoves(front, top);
    assert ([head] + front)[1..] == front;
  }

  lemma PopsOne(p: nat, n: nat)
    requires n > 0
    ensures p * (n - 1) == p * n - p
  {
  }

  /** The output side of a clock with a ready reader. */
  lemma OutputLessens(cfg: Config, s: State)
    requires Bounded(cfg, s) && cfg.Sized()
    ensures
      var queue', out' := NextQueue(cfg, s, true), NextOutput(cfg, s, true);
      var gained := if cfg.outputFifo && Top(s).Some? then 1 else 0;
      && 2 * |queue'| + |AsSeq(out')| <= 2 * |s.outQueue| + |AsSeq(s.outReg)| + 2 * gained
      && (s.outQueue != [] || s.outReg.Some? ==>
            2 * |queue'| + |AsSeq(out')| < 2 * |s.outQueue| + |AsSeq(s.outReg)| + 2 * gained)
  {
    SizingSuffices(cfg);
  }

  /** With a ready reader and nothing committed the measure goes down. */
  lemma Lessens(cfg: Config, s: State, i: Input)
    requires Bounded(cfg, s) && cfg.Sized() && i.ready && Write(cfg, s, i).commit == []
    ensures Measure(Step(cfg, s, i)) <= Measure(s)
    ensures Weight(s) > 0 ==> Measure(Step(cfg, s, i)) < Measure(s)
  {
    hide Write, NextQueue, NextOutput, Shift;
    var s', head := Step(cfg, s, i), Fetched(cfg, s, true);
    OutputLessens(cfg, s);
    ShiftsOn(cfg, s, head);
    assert s'.committed == Rest(cfg, s, true);
    if head.Some? {
      PopsOne(|s.pipe| + 3, |s.committed|);
    }
    hide PipeWeight;
  }

  lemma ProductIsZero(p: nat, n: nat)
    requires p > 0
    ensures p * n == 0 <==> n == 0
  {
  }

  lemma NothingInside(cfg: Config, s: State)
    requires Bounded(cfg, s) && Weight(s) == 0
    ensures s.committed == [] && InFlight(s) == []
  {
    NoWeight(s.pipe);
    ProductIsZero(|s.pipe| + 3, |s.committed|);
    hide PipeWeight, PipeBeats;
  }

  lemma RunOn(cfg: Config, inputs: seq<Input>, more: seq<Input>, n: nat)
    requires n < |more|
    ensures Run(cfg, inputs + more[..n + 1]) == Advance(cfg, Run(cfg, inputs + more[..n]), more[n])
  {
    hide Run, Advance;
    assert inputs + more[..n + 1] == inputs + more[..n] + [more[n]];
    GapFree.RunMore(cfg, inputs + more[..n], more[n]);
  }

  predicate Quiet(cfg: Config, s: State, i: Input) {
    i.ready && Write(cfg, s, i).commit == []
  }

  lemma {:induction false} MeasureFalls(cfg: Config, inputs: seq<Input>, more: seq<Input>, n: nat)
    requires cfg.Valid() && cfg.Sized() && n <= |more|
    requires forall k :: 0 <= k < n ==> Quiet(cfg, Run(cfg, inputs + more[..k]).state, more[k])
    ensures
      var s, s' := Run(cfg, inputs).state, Run(cfg, inputs + more[..n]).state;
      Measure(s') + n <= Measure(s) || Weight(s') == 0
  {
    hide Run, Measure, Weight, Quiet, Step;
    if n == 0 {
      assert inputs + more[..0] == inputs;
    } else {
      MeasureFalls(cfg, inputs, more, n - 1);
      RunOn(cfg, inputs, more, n - 1);
      RunContained(cfg, inputs + more[..n - 1]);
      FallsOnce(cfg, Run(cfg, inputs + more[..n - 1]).state, more[n - 1]);
    }
  }

  lemma FallsOnce(cfg: Config, s: State, i: Input)
    requires Bounded(cfg, s) && cfg.Sized() && Quiet(cfg, s, i)
    ensures Measure(Step(cfg, s, i)) < Measure(s) || Weight(Step(cfg, s, i)) == 0
    ensures Weight(s) == 0 ==> Weight(Step(cfg, s, i)) == 0
  {
    Lessens(cfg, s, i);
    if Weight(s) == 0 {
      NothingInside(cfg, s);
      StaysEmpty(cfg, s, i);
    }
  }

  lemma StaysEmpty(cfg: Config, s: State, i: Input)
    requires Bounded(cfg, s) && cfg.Sized() && Quiet(cfg, s, i) && Weight(s) == 0
    ensures Weight(Step(cfg, s, i)) == 0
  {
    hide Write, NextQueue, NextOutput, Shift;
    NothingInside(cfg, s);
    OutputLessens(cfg, s);
    ShiftsOn(cfg, s, None);
    hide PipeWeight;
  }

  /** Everything committed comes out: a reader that stays ready while nothing more is
      committed has seen all of it after as many clocks as the measure says. */
  lemma Drains(cfg: Config, inputs: seq<Input>, more: seq<Input>)
    requires cfg.Valid() && cfg.Sized() && |more| >= Measure(Run(cfg, inputs).state)
    requires forall k :: 0 <= k < |more| ==> Quiet(cfg, Run(cfg, inputs + more[..k]).state, more[k])
    ensures
      var t := Run(cfg, inputs + more);
      t.state.committed == [] && InFlight(t.state) == [] && t.log.emitted == StoredStream(t)
  {
    hide Quiet, Run;
    MeasureFalls(cfg, inputs, more, |more|);
    assert more[..|more|] == more;
    RunContained(cfg, inputs + more);
    NothingInside(cfg, Run(cfg, inputs + more).state);
    hide InFlight;
    assert Run(cfg, inputs + more).log.emitted + [] + [] == Run(cfg, inputs + more).log.emitted;
  }

  // The writer is let in again

  /** No state of a FIFO of this configuration measures more. */
  function Longest(cfg: Config): nat {
    2 * ((cfg.ramPipeline + 4) * cfg.depth + (cfg.ramPipeline + 4) * (cfg.ramPipeline + 1)
         + 2 * (cfg.halfDepth + cfg.ramPipeline + 2) + 1) + 1
  }

  lemma {:induction false} PipeWeightBound(pipe: seq<Option<Beat>>, w: nat)
    requires |pipe| + 2 <= w
    ensures PipeWeight(pipe) <= w * |pipe|
  {
    if pipe != [] {
      PipeWeightBound(pipe[1..], w);
      PopsOne(w, |pipe|);
    }
  }

  lemma Product(p: nat, m: nat, n: nat)
    requires m <= n
    ensures p * m <= p * n
  {
    assert p * n == p * m + p * (n - m);
  }

  lemma MeasureBound(cfg: Config, s: State)
    requires Bounded(cfg, s) && Contained(cfg, s)
    ensures Measure(s) <= Longest(cfg)
  {
    PipeWeightBound(s.pipe, cfg.ramPipeline + 4);
    Product(cfg.ramPipeline + 4, |s.committed|, cfg.depth);
    hide PipeWeight, PipeBeats;
  }

  /** A writer that is held off while words are committed waits for the reader, who
      takes a word or comes closer. */
  lemma HeldOff(cfg: Config, s: State, i: Input)
    requires cfg.Valid() && cfg.Sized() && Bounded(cfg, s) && Contained(cfg, s)
    requires !InputReady(cfg, s) && i.ready && s.committed != []
    ensures Quiet(cfg, s, i)
    ensures Step(cfg, s, i).committed != [] || InputReady(cfg, Step(cfg, s, i))
    ensures Step(cfg, s, i).committed == s.committed || InputReady(cfg, Step(cfg, s, i))
  {
    hide NextPipe, NextQueue, NextOutput, PipeBeats;
  }

  lemma {:induction false} WaitIsShort(cfg: Config, inputs: seq<Input>, more: seq<Input>, n: nat)
    requires cfg.Valid() && cfg.Sized() && n <= |more| && Run(cfg, inputs).state.committed != []
    requires forall k :: 0 <= k < n ==> more[k].ready
    requires forall k :: 0 <= k <= n ==> !InputReady(cfg, Run(cfg, inputs + more[..k]).state)
    ensures Run(cfg, inputs + more[..n]).state.committed != []
    ensures forall k :: 0 <= k < n ==> Quiet(cfg, Run(cfg, inputs + more[..k]).state, more[k])
  {
    hide Run, Quiet, Step, InputReady, Bounded;
    if n == 0 {
      assert inputs + more[..0] == inputs;
    } else {
      WaitIsShort(cfg, inputs, more, n - 1);
      RunOn(cfg, inputs, more, n - 1);
      RunContained(cfg, inputs + more[..n - 1]);
      HeldOff(cfg, Run(cfg, inputs + more[..n - 1]).state, more[n - 1]);
    }
  }

  lemma WeighsSomething(cfg: Config, s: State)
    requires Bounded(cfg, s) && s.committed != []
    ensures Weight(s) > 0
  {
    if Weight(s) == 0 {
      NothingInside(cfg, s);
    }
  }

  lemma CommittedReturns(cfg: Config, inputs: seq<Input>, more: seq<Input>) returns (k: nat)
    requires cfg.Valid() && cfg.Sized() && |more| > Longest(cfg)
    requires forall k :: 0 <= k < |more| ==> more[k].ready
    requires Run(cfg, inputs).state.committed != []
    ensures k <= |more| && InputReady(cfg, Run(cfg, inputs + more[..k]).state)
  {
    hide Run, InputReady, Bounded, Longest, Measure, Weight, Quiet;
    if forall k: nat :: k <= |more| ==> !InputReady(cfg, Run(cfg, inputs + more[..k]).state) {
      var n := |more|;
      WaitIsShort(cfg, inputs, more, n);
      MeasureFalls(cfg, inputs, more, n);
      RunContained(cfg, inputs);
      MeasureBound(cfg, Run(cfg, inputs).state);
      RunContained(cfg, inputs + more[..n]);
      WeighsSomething(cfg, Run(cfg, inputs + more[..n]).state);
      assert false;
    }
    k :| k <= |more| && InputReady(cfg, Run(cfg, inputs + more[..k]).state);
  }

  /** A frame that fills the whole memory is sent, unless it is going to be dropped. */
  lemma FullFrameIsSent(cfg: Config, s: State, i: Input)
    requires cfg.Valid() && cfg.Sized() && Bounded(cfg, s) && Contained(cfg, s)
    requires !InputReady(cfg, s) && s.committed == [] && i.valid && i.ready
    ensures Step(cfg, s, i).committed != []
  {
    hide NextPipe, NextQueue, NextOutput, PipeBeats;
  }

  /** No deadlock: from every reachable state, while the writer keeps offering a beat and
      the reader is ready, s_axis_tready comes back within a fixed number of clocks. */
  lemma ReadyReturns(cfg: Config, inputs: seq<Input>, more: seq<Input>) returns (k: nat)
    requires cfg.Valid() && cfg.Sized() && |more| > Longest(cfg) + 1
    requires forall k :: 0 <= k < |more| ==> more[k].valid && more[k].ready
    ensures k <= |more| && InputReady(cfg, Run(cfg, inputs + more[..k]).state)
  {
    hide Run, InputReady, Bounded, Longest, Step;
    assert inputs + more[..0] == inputs;
    if InputReady(cfg, Run(cfg, inputs).state) {
      k := 0;
    } else if Run(cfg, inputs).state.committed != [] {
      k := CommittedReturns(cfg, inputs, more);
    } else {
      RunContained(cfg, inputs);
      FullFrameIsSent(cfg, Run(cfg, inputs).state, more[0]);
      RunOn(cfg, inputs, more, 0);
      var k' := CommittedReturns(cfg, inputs + more[..1], more[1..]);
      assert inputs + more[..1] + more[1..][..k'] == inputs + more[..k' + 1];
      k := k' + 1;
    }
  }
}
