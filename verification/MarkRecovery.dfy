/** After a frame was cut: when the beat that closes it is written, and that single-beat
    frames without a pause between them put this off for ever. */
module MarkRecovery {
  import opened Common
  import opened StreamFifo
  import opened OutputFifo
  import GapFree
  import MarkMode
  import FifoProgress

  predicate Marks(cfg: Config) {
    cfg.Valid() && cfg.markWhenFull && cfg.Sized()
  }

  /** What a pending mark waits for: room, and a pause outside a frame or the end of a
      frame that is dropped after its first beat. */
  predicate Closes(cfg: Config, s: State, i: Input) {
    |s.committed| + |s.pending| < cfg.depth && if s.drop then i.valid && i.beat.last else !i.valid
  }

  lemma ClosesInState(cfg: Config, s: State, i: Input)
    requires cfg.Valid() && cfg.markWhenFull && s.mark && s.pending == [] && |s.committed| <= cfg.depth
    ensures
      var w := Write(cfg, s, i);
      if Closes(cfg, s, i)
      then !w.mark && !w.drop && |w.commit| == 1 && w.commit[0].last && w.commit[0].bad
      else w.mark && w.commit == []
  {
  }

  /** A pending mark is taken back, with one bad last beat, in exactly these clocks;
      until then nothing is stored. */
  lemma ClosesExactly(cfg: Config, inputs: seq<Input>, i: Input)
    requires Marks(cfg) && Run(cfg, inputs).state.mark
    ensures
      var s := Run(cfg, inputs).state;
      var w := Write(cfg, s, i);
      if Closes(cfg, s, i)
      then !w.mark && !w.drop && |w.commit| == 1 && w.commit[0].last && w.commit[0].bad
      else w.mark && w.commit == []
  {
    SizingSuffices(cfg);
    var segments, tail := MarkMode.RunSorts(cfg, inputs);
    hide Run;
    ClosesInState(cfg, Run(cfg, inputs).state, i);
  }

  // Back-to-back frames of one beat

  predicate ShortFrames(more: seq<Input>) {
    forall k :: 0 <= k < |more| ==> more[k].valid && more[k].beat.last
  }

  function Overflows(n: nat): seq<Verdict> {
    seq(n, _ => Overflow)
  }

  /** Between frames, with the closing beat of a cut one pending. */
  predicate Pending(s: State) {
    s.mark && !s.drop
  }

  lemma ShortFrameIsLost(cfg: Config, t: Trace, i: Input)
    requires cfg.Valid() && cfg.markWhenFull && Pending(t.state) && Bounded(cfg, t.state) && i.valid && i.beat.last
    ensures
      var t' := Advance(cfg, t, i);
      && Pending(t'.state) && Write(cfg, t.state, i).commit == []
      && t'.log.verdicts == t.log.verdicts + [Overflow]
      && StoredStream(t') == StoredStream(t)
  {
    StreamConserved(cfg, t, i);
    hide NextPipe, NextQueue, NextOutput, Rest, StoredStream, PipeBeats;
  }

  lemma {:induction false} ShortFramesAreLost(cfg: Config, inputs: seq<Input>, more: seq<Input>, n: nat)
    requires Marks(cfg) && Pending(Run(cfg, inputs).state) && ShortFrames(more) && n <= |more|
    ensures
      var t, t' := Run(cfg, inputs), Run(cfg, inputs + more[..n]);
      && Pending(t'.state) && StoredStream(t') == StoredStream(t)
      && t'.log.verdicts == t.log.verdicts + Overflows(n)
    ensures n < |more| ==> Write(cfg, Run(cfg, inputs + more[..n]).state, more[n]).commit == []
  {
    hide Run, Write, StoredStream, Advance, Pending, Bounded;
    SizingSuffices(cfg);
    if n == 0 {
      assert inputs + more[..0] == inputs;
    } else {
      ShortFramesAreLost(cfg, inputs, more, n - 1);
      FifoProgress.RunOn(cfg, inputs, more, n - 1);
      RunBounded(cfg, inputs + more[..n - 1]);
      ShortFrameIsLost(cfg, Run(cfg, inputs + more[..n - 1]), more[n - 1]);
      assert Overflows(n) == Overflows(n - 1) + [Overflow];
    }
    if n < |more| {
      RunBounded(cfg, inputs + more[..n]);
      ShortFrameIsLost(cfg, Run(cfg, inputs + more[..n]), more[n]);
    }
  }

  // A run that comes there

  const BODY := Input(true, Beat(0, false, false), false)
  const END := Input(true, Beat(0, true, false), false)

  function Filling(n: nat): seq<Input> {
    seq(n, _ => BODY)
  }

  lemma FillingMore(cfg: Config, n: nat)
    ensures Run(cfg, Filling(n + 1)) == Advance(cfg, Run(cfg, Filling(n)), BODY)
  {
    hide Run, Advance;
    assert Filling(n + 1) == Filling(n) + [BODY];
    GapFree.RunMore(cfg, Filling(n), BODY);
  }

  ghost predicate HasRoom(cfg: Config, n: nat) {
    !Full(cfg, Run(cfg, Filling(n)).state)
  }

  predicate Stuffed(t: Trace, n: nat) {
    && |StoredStream(t)| == n && t.log.emitted == []
    && !t.state.mark && !t.state.drop && (t.state.inFrame <==> n > 0)
  }

  lemma StuffMore(cfg: Config, t: Trace, n: nat)
    requires cfg.Valid() && cfg.markWhenFull && Bounded(cfg, t.state) && t.state.pending == []
    requires Stuffed(t, n) && !Full(cfg, t.state)
    ensures Stuffed(Advance(cfg, t, BODY), n + 1)
  {
    StreamConserved(cfg, t, BODY);
    hide NextPipe, NextQueue, NextOutput, Rest, StoredStream, PipeBeats;
  }

  lemma {:induction false} FillingStores(cfg: Config, n: nat)
    requires Marks(cfg) && forall k: nat :: k < n ==> HasRoom(cfg, k)
    ensures Stuffed(Run(cfg, Filling(n)), n)
  {
    hide Advance, Bounded, Stuffed, Full;
    SizingSuffices(cfg);
    if n == 0 {
      NothingStuffed(cfg);
    } else {
      hide Run;
      FillingStores(cfg, n - 1);
      FillingMore(cfg, n - 1);
      FifoProgress.RunContained(cfg, Filling(n - 1));
      assert HasRoom(cfg, n - 1);
      StuffMore(cfg, Run(cfg, Filling(n - 1)), n - 1);
    }
  }

  lemma NothingStuffed(cfg: Config)
    ensures Stuffed(Run(cfg, Filling(0)), 0)
  {
    MarkMode.RunStarts(cfg);
    assert Filling(0) == [];
  }

  /** The memory and everything behind it hold no more than this. */
  function Capacity(cfg: Config): nat {
    cfg.depth + cfg.halfDepth + cfg.ramPipeline + 3
  }

  lemma InsideBounded(cfg: Config, t: Trace, n: nat)
    requires Bounded(cfg, t.state) && FifoProgress.Contained(cfg, t.state) && Stuffed(t, n)
    ensures n <= Capacity(cfg)
  {
    hide PipeBeats;
  }

  /** With nobody reading the memory fills up. */
  lemma FillsUp(cfg: Config) returns (n: nat)
    requires Marks(cfg)
    ensures !HasRoom(cfg, n) && forall k: nat :: k < n ==> HasRoom(cfg, k)
  {
    hide HasRoom, Bounded, Stuffed;
    var last := Capacity(cfg) + 1;
    if forall k: nat :: k < last ==> HasRoom(cfg, k) {
      FillingStores(cfg, last);
      FifoProgress.RunContained(cfg, Filling(last));
      InsideBounded(cfg, Run(cfg, Filling(last)), last);
      assert false;
    }
    var k: nat :| k < last && !HasRoom(cfg, k);
    n := LeastFull(cfg, k);
  }

  lemma {:induction false} LeastFull(cfg: Config, k: nat) returns (n: nat)
    requires !HasRoom(cfg, k)
    ensures !HasRoom(cfg, n) && forall j: nat :: j < n ==> HasRoom(cfg, j)
  {
    hide HasRoom;
    if j: nat :| j < k && !HasRoom(cfg, j) {
      n := LeastFull(cfg, j);
    } else {
      n := k;
    }
  }

  lemma EndIsCut(cfg: Config, s: State)
    requires cfg.Valid() && cfg.markWhenFull && Full(cfg, s) && !s.mark && !s.drop && s.inFrame
    ensures Pending(Step(cfg, s, END))
  {
    hide NextPipe, NextQueue, NextOutput, Rest;
  }

  lemma FullIsInFrame(cfg: Config, n: nat)
    requires Marks(cfg) && !HasRoom(cfg, n)
    ensures n > 0
  {
    assert Filling(0) == [];
  }

  /** A cut frame ends just as the memory has filled up. */
  lemma CutRun(cfg: Config) returns (inputs: seq<Input>)
    requires Marks(cfg)
    ensures Pending(Run(cfg, inputs).state)
  {
    var n := FillsUp(cfg);
    FullIsInFrame(cfg, n);
    FillingStores(cfg, n);
    inputs := Filling(n) + [END];
    hide Run, Step, StoredStream, Pending, Full, Filling;
    EndIsCut(cfg, Run(cfg, Filling(n)).state);
    GapFree.RunMore(cfg, Filling(n), END);
  }

  /** Main result: MARK_WHEN_FULL may never recover. In every such configuration there is
      a run after which back-to-back frames of one beat, however many, are all lost, also
      when a reader that is always ready has long emptied the FIFO. */
  lemma ShortFramesStarve(cfg: Config) returns (inputs: seq<Input>)
    requires Marks(cfg)
    ensures forall more: seq<Input> :: ShortFrames(more) ==>
              var t, t' := Run(cfg, inputs), Run(cfg, inputs + more);
              && StoredStream(t') == StoredStream(t)
              && t'.log.verdicts == t.log.verdicts + Overflows(|more|)
    ensures forall more: seq<Input> ::
              && ShortFrames(more) && (forall k :: 0 <= k < |more| ==> more[k].ready)
              && |more| >= FifoProgress.Measure(Run(cfg, inputs).state) ==>
                Run(cfg, inputs + more).state.committed == [] && InFlight(Run(cfg, inputs + more).state) == []
  {
    inputs := CutRun(cfg);
    hide Run, InFlight, StoredStream, Pending, FifoProgress.Measure, ShortFrames, Write, Marks;
    forall more: seq<Input> | ShortFrames(more)
      ensures StoredStream(Run(cfg, inputs + more)) == StoredStream(Run(cfg, inputs))
      ensures Run(cfg, inputs + more).log.verdicts == Run(cfg, inputs).log.verdicts + Overflows(|more|)
      ensures forall k :: 0 <= k < |more| ==> Write(cfg, Run(cfg, inputs + more[..k]).state, more[k]).commit == []
    {
      assert more[..|more|] == more;
      ShortFramesAreLost(cfg, inputs, more, |more|);
      forall k | 0 <= k < |more|
        ensures Write(cfg, Run(cfg, inputs + more[..k]).state, more[k]).commit == []
      {
        ShortFramesAreLost(cfg, inputs, more, k);
      }
    }
    forall more: seq<Input> | ShortFrames(more) && (forall k :: 0 <= k < |more| ==> more[k].ready)
                  && |more| >= FifoProgress.Measure(Run(cfg, inputs).state)
      ensures Run(cfg, inputs + more).state.committed == [] && InFlight(Run(cfg, inputs + more).state) == []
    {
      FifoProgress.Drains(cfg, inputs, more);
    }
  }
}
