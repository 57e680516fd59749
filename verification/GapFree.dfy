/** Frame mode with whole-frame commits: once a frame has started to leave,
    m_axis_tvalid stays up until its last beat has left. Without the output FIFO
    this always holds; with it, a stalled refill can come too late. Frames that are
    sent in parts need not be there in time at all. */
module GapFree {
  import opened Common
  import opened StreamFifo
  import opened OutputFifo
  import opened FrameMode

  /** A stage inside a frame has the frame's next beat directly behind it. */
  predicate Chained(s: State) {
    forall j :: 0 <= j < |s.pipe| ==> Followed(s, j)
  }

  predicate Followed(s: State, j: nat)
    requires j < |s.pipe|
  {
    s.pipe[j].Some? && !s.pipe[j].value.last ==>
      if j == 0 then s.committed != [] else s.pipe[j - 1].Some?
  }

  lemma Tail<T>(s: seq<T>, k: nat)
    requires k < |s|
    ensures s[k..] == [s[k]] + s[k + 1..]
  {
  }

  lemma FollowedKept(cfg: Config, s: State, i: Input, j: nat)
    requires !cfg.outputFifo && Closed(s.committed) && Chained(s)
    requires j < |s.pipe|
    ensures Followed(Step(cfg, s, i), j)
  {
    hide Write, Shift;
    var s' := Step(cfg, s, i);
    var head := Fetched(cfg, s, i.ready);
    ShiftAt(s.pipe, i.ready, head, j);
    assert Fetches(s.pipe, i.ready) == Moves(s.pipe, i.ready, 0) by {
      assert s.pipe[0..] == s.pipe;
    }
    if j > 0 {
      assert Followed(s, j) && Followed(s, j - 1);
      ShiftAt(s.pipe, i.ready, head, j - 1);
      Tail(s.pipe, j - 1);
    } else {
      assert Followed(s, 0);
    }
  }

  lemma {:induction false} RunChained(cfg: Config, inputs: seq<Input>)
    requires Applies(cfg) && !cfg.outputFifo
    ensures Chained(Run(cfg, inputs).state)
  {
    if inputs != [] {
      var n := |inputs| - 1;
      RunChained(cfg, inputs[..n]);
      RunInv(cfg, inputs[..n]);
      var s := Run(cfg, inputs[..n]).state;
      forall j | 0 <= j < |s.pipe| ensures Followed(Step(cfg, s, inputs[n]), j) {
        FollowedKept(cfg, s, inputs[n], j);
      }
    }
  }

  /** A stalled beat stays offered, and after a beat that is not the last of its
      frame the next clock offers another beat. */
  predicate HeldInside(cfg: Config, s: State, i: Input) {
    Offered(cfg, s).Some? ==>
      && (!i.ready ==> Offered(cfg, Step(cfg, s, i)) == Offered(cfg, s))
      && (i.ready && !Offered(cfg, s).value.last ==> Offered(cfg, Step(cfg, s, i)).Some?)
  }

  /** What the option promises: tvalid is never deasserted within a frame. */
  ghost predicate NeverGaps(cfg: Config) {
    forall inputs: seq<Input>, i: Input :: HeldInside(cfg, Run(cfg, inputs).state, i)
  }

  /** In every run without the output FIFO. */
  lemma NoGapInsideFrame(cfg: Config, inputs: seq<Input>, i: Input)
    requires cfg.Valid() && cfg.dropOversize && cfg.Sized() && !cfg.outputFifo
    ensures HeldInside(cfg, Run(cfg, inputs).state, i)
  {
    hide Run, Write;
    var s := Run(cfg, inputs).state;
    SizingSuffices(cfg);
    RunChained(cfg, inputs);
    if Offered(cfg, s).Some? {
      var n := |s.pipe| - 1;
      assert Followed(s, n);
      assert s.pipe[n..] == [s.pipe[n]];
      ShiftAt(s.pipe, i.ready, Fetched(cfg, s, i.ready), n);
    }
  }

  // With the output FIFO

  /** The beats end inside a frame. */
  predicate EndsInside(beats: seq<Beat>) {
    beats != [] && !beats[|beats| - 1].last
  }

  /** The beats that leave before whatever is in stage j. */
  function AheadOf(s: State, j: nat): seq<Beat>
    requires j < |s.pipe|
  {
    Flight(s.outReg, s.outQueue, s.pipe[j + 1..])
  }

  /** A bubble inside a frame comes from a stall, and so the output FIFO was half
      full when it entered; it has lost at most one beat a clock since then. */
  predicate Covered(cfg: Config, s: State, j: nat)
    requires j < |s.pipe|
  {
    s.pipe[j].None? && EndsInside(AheadOf(s, j)) ==> |s.outQueue| + 2 + j >= cfg.halfDepth
  }

  predicate Supplied(cfg: Config, s: State) {
    && (s.halfFull ==> |s.outQueue| + 1 >= cfg.halfDepth)
    && (s.outReg.Some? && !s.outReg.value.last ==> s.outQueue != [])
    && forall j :: 0 <= j < |s.pipe| ==> Covered(cfg, s, j)
  }

  /** Without back pressure every stage takes from the one before. */
  lemma ShiftTaking(pipe: seq<Option<Beat>>, head: Option<Beat>)
    requires pipe != []
    ensures Shift(pipe, true, head) == [head] + pipe[..|pipe| - 1]
  {
    forall j | 0 <= j < |pipe|
      ensures Shift(pipe, true, head)[j] == ([head] + pipe[..|pipe| - 1])[j]
    {
      ShiftAt(pipe, true, head, j);
    }
  }

  lemma SuffixInside(front: seq<Beat>, back: seq<Beat>, all: seq<Beat>)
    requires front + back == all && EndsInside(back)
    ensures EndsInside(all)
  {
    assert all[|all| - 1] == back[|back| - 1];
  }

  /** What was ahead of a stage is emitted or still ahead of the stage it moves to. */
  lemma AheadMoves(cfg: Config, s: State, ready: bool, behind: seq<Option<Beat>>)
    requires cfg.outputFifo && |s.outQueue| < cfg.OutputDepth() && s.pipe != []
    ensures Emitted(cfg, s, ready) + Flight(NextOutput(cfg, s, ready), NextQueue(cfg, s, ready), behind)
            == Flight(s.outReg, s.outQueue, behind + [Top(s)])
  {
    OutputConserves(cfg, s, ready);
    PipeBeatsTop(behind, Top(s));
    hide PipeBeats, Emitted, NextQueue, NextOutput;
    var out := AsSeq(NextOutput(cfg, s, ready)) + NextQueue(cfg, s, ready);
    Associate(Emitted(cfg, s, ready), out, PipeBeats(behind));
    Associate(AsSeq(s.outReg) + s.outQueue, AsSeq(Top(s)), PipeBeats(behind));
  }

  lemma QueueLosesOne(cfg: Config, s: State, ready: bool)
    ensures |NextQueue(cfg, s, ready)| + 1 >= |s.outQueue|
  {
  }

  /** An empty memory has handed over whole frames only. */
  predicate WholeWhenDry(s: State) {
    s.committed == [] ==> !EndsInside(InFlight(s))
  }

  /** The bubble or beat that a clock lets into stage 0. */
  lemma EntersCovered(cfg: Config, s: State, i: Input)
    requires cfg.outputFifo && |s.outQueue| < cfg.OutputDepth() && s.pipe != []
    requires Supplied(cfg, s) && WholeWhenDry(s)
    ensures Covered(cfg, Step(cfg, s, i), 0)
  {
    hide Write, PipeBeats, NextQueue, NextOutput;
    var s' := Step(cfg, s, i);
    var behind := s.pipe[..|s.pipe| - 1];
    ShiftTaking(s.pipe, Fetched(cfg, s, i.ready));
    QueueLosesOne(cfg, s, i.ready);
    if s'.pipe[0].None? && EndsInside(AheadOf(s', 0)) && !s.halfFull {
      AheadMoves(cfg, s, i.ready, behind);
      assert behind + [Top(s)] == s.pipe;
      assert s'.pipe[1..] == behind;
      SuffixInside(Emitted(cfg, s, i.ready), AheadOf(s', 0), InFlight(s));
    }
  }

  lemma MovesCovered(cfg: Config, s: State, i: Input, j: nat)
    requires cfg.outputFifo && |s.outQueue| < cfg.OutputDepth() && j + 1 < |s.pipe|
    requires Covered(cfg, s, j)
    ensures Covered(cfg, Step(cfg, s, i), j + 1)
  {
    hide Write, PipeBeats, NextQueue, NextOutput;
    var s' := Step(cfg, s, i);
    var n := |s.pipe| - 1;
    var behind := s.pipe[j + 1..n];
    ShiftTaking(s.pipe, Fetched(cfg, s, i.ready));
    QueueLosesOne(cfg, s, i.ready);
    assert s'.pipe[j + 1] == s.pipe[j];
    assert s'.pipe[j + 2..] == behind;
    assert behind + [Top(s)] == s.pipe[j + 1..];
    if s'.pipe[j + 1].None? && EndsInside(AheadOf(s', j + 1)) {
      AheadMoves(cfg, s, i.ready, behind);
      SuffixInside(Emitted(cfg, s, i.ready), AheadOf(s', j + 1), AheadOf(s, j));
    }
  }

  /** With room for four more than the pipeline below the half-full mark, the
      output FIFO never runs dry inside a frame. */
  lemma OutputKeepsUp(cfg: Config, s: State, i: Input)
    requires cfg.outputFifo && |s.pipe| == cfg.ramPipeline + 1 && |s.outQueue| < cfg.OutputDepth()
    requires cfg.halfDepth >= cfg.ramPipeline + 4 && Supplied(cfg, s)
    ensures
      var s' := Step(cfg, s, i);
      s'.outReg.Some? && !s'.outReg.value.last ==> s'.outQueue != []
  {
    hide Write, Shift;
    var n := cfg.ramPipeline;
    assert Covered(cfg, s, n);
    assert s.pipe[n + 1..] == [];
    assert AheadOf(s, n) == AsSeq(s.outReg) + s.outQueue;
  }

  lemma SuppliedKept(cfg: Config, s: State, i: Input)
    requires cfg.outputFifo && |s.pipe| == cfg.ramPipeline + 1 && |s.outQueue| < cfg.OutputDepth()
    requires cfg.halfDepth >= cfg.ramPipeline + 4 && Supplied(cfg, s) && WholeWhenDry(s)
    ensures Supplied(cfg, Step(cfg, s, i))
  {
    hide Write, Covered, NextOutput;
    OutputKeepsUp(cfg, s, i);
    QueueLosesOne(cfg, s, i.ready);
    EntersCovered(cfg, s, i);
    ShiftTaking(s.pipe, Fetched(cfg, s, i.ready));
    hide NextQueue, Shift;
    forall j | 0 <= j < |s.pipe|
      ensures Covered(cfg, Step(cfg, s, i), j)
    {
      if j > 0 {
        MovesCovered(cfg, s, i, j - 1);
      }
    }
  }

  /** The good frames, one after the other, end with a last beat. */
  lemma {:induction false} GoodBeatsClosed(frames: seq<seq<Beat>>, verdicts: seq<Verdict>)
    requires |frames| == |verdicts| && forall k :: 0 <= k < |frames| ==> IsFrame(frames[k])
    ensures Closed(GoodBeats(frames, verdicts))
  {
    if frames != [] {
      var n := |frames| - 1;
      GoodBeatsClosed(frames[..n], verdicts[..n]);
      assert IsFrame(frames[n]);
    }
  }

  lemma WholeWhenDryAlways(cfg: Config, inputs: seq<Input>)
    requires Applies(cfg)
    ensures WholeWhenDry(Run(cfg, inputs).state)
  {
    RunInv(cfg, inputs);
    var t := Run(cfg, inputs);
    hide Run, InFlight;
    GoodBeatsClosed(t.log.frames, t.log.verdicts);
    if t.state.committed == [] {
      assert StoredStream(t) == t.log.emitted + InFlight(t.state);
      if EndsInside(InFlight(t.state)) {
        SuffixInside(t.log.emitted, InFlight(t.state), StoredStream(t));
      }
    }
  }

  lemma {:induction false} RunSupplied(cfg: Config, inputs: seq<Input>)
    requires cfg.Valid() && cfg.dropOversize && cfg.Sized() && cfg.outputFifo
    requires cfg.halfDepth >= cfg.ramPipeline + 4
    ensures Supplied(cfg, Run(cfg, inputs).state)
  {
    if inputs == [] {
      EmptyAhead(cfg);
    } else {
      var n := |inputs| - 1;
      var s := Run(cfg, inputs[..n]).state;
      hide Supplied, Step, Write, WholeWhenDry;
      RunSupplied(cfg, inputs[..n]);
      SizingSuffices(cfg);
      NeverOverflows(cfg, inputs[..n]);
      RunBounded(cfg, inputs[..n]);
      WholeWhenDryAlways(cfg, inputs[..n]);
      SuppliedKept(cfg, s, inputs[n]);
    }
  }

  lemma EmptyAhead(cfg: Config)
    requires cfg.halfDepth > 0
    ensures Supplied(cfg, Initial(cfg))
  {
    var s := Initial(cfg);
    forall j | 0 <= j < |s.pipe|
      ensures Covered(cfg, s, j)
    {
      EmptyPipe(|s.pipe| - j - 1);
      assert s.pipe[j + 1..] == seq(|s.pipe| - j - 1, _ => None);
    }
  }

  /** The derived size leaves that room for every RAM_PIPELINE but 1. */
  lemma RoomUnlessOne(cfg: Config)
    requires cfg.Sized()
    ensures cfg.halfDepth >= cfg.ramPipeline + 4 <==> cfg.ramPipeline != 1
  {
    if cfg.ramPipeline < 2 {
      assert Pow2(3) == 8 by {
        assert Pow2(1) == 2 && Pow2(2) == 4;
      }
    }
  }

  // RAM_PIPELINE = 1: a run with a gap

  /** Single-beat frames, and one frame of two beats that a stall splits. */
  function X(k: nat): Beat {
    Beat(k, true, false)
  }

  const Y1 := Beat(5, false, false)
  const Y2 := Beat(6, true, false)

  function StallInput(k: nat): Input {
    Input(k <= 4 || k == 6 || k == 7, if k == 6 then Y1 else if k == 7 then Y2 else X(k), k >= 10)
  }

  /** committed and pending of the k-th state. */
  function StallMemory(k: nat): (seq<Beat>, seq<Beat>) {
    if 1 <= k <= 5 then ([X(k - 1)], [])
    else if k == 7 then ([], [Y1])
    else if k == 8 then ([Y1, Y2], [])
    else if 9 <= k <= 13 then ([Y2], [])
    else ([], [])
  }

  function StallPipe(k: nat): seq<Option<Beat>> {
    if k == 2 then [Some(X(0)), None]
    else if 3 <= k <= 6 then [Some(X(k - 2)), Some(X(k - 3))]
    else if k == 7 then [None, Some(X(4))]
    else if k == 9 then [Some(Y1), None]
    else if k == 10 then [None, Some(Y1)]
    else if k == 14 then [Some(Y2), None]
    else if k == 15 then [None, Some(Y2)]
    else [None, None]
  }

  /** Output FIFO and output register of the k-th state. */
  function StallOutput(k: nat): (seq<Beat>, Option<Beat>) {
    if k < 4 then ([], None)
    else if k == 4 then ([X(0)], None)
    else if k == 5 then ([X(1)], Some(X(0)))
    else if k == 6 then ([X(1), X(2)], Some(X(0)))
    else if k == 7 then ([X(1), X(2), X(3)], Some(X(0)))
    else if k <= 10 then ([X(1), X(2), X(3), X(4)], Some(X(0)))
    else if k == 11 then ([X(2), X(3), X(4), Y1], Some(X(1)))
    else if k == 12 then ([X(3), X(4), Y1], Some(X(2)))
    else if k == 13 then ([X(4), Y1], Some(X(3)))
    else if k == 14 then ([Y1], Some(X(4)))
    else ([], Some(Y1))
  }

  function StallState(k: nat): State {
    State(StallMemory(k).0, StallMemory(k).1, k == 7, false, false, false, StallPipe(k),
          StallOutput(k).0, StallOutput(k).1, 9 <= k <= 12)
  }

  predicate Stalls(cfg: Config) {
    && cfg.Valid() && cfg.dropOversize && cfg.outputFifo
    && cfg.ramPipeline == 1 && cfg.halfDepth == 4 && cfg.depth >= 2
  }

  lemma StallFetches(cfg: Config, k: nat)
    requires Stalls(cfg) && k < 15
    ensures |StallPipe(k)| == |StallPipe(k + 1)| == 2 && StallPipe(k + 1)[1] == StallPipe(k)[0]
    ensures Fetched(cfg, StallState(k), StallInput(k).ready) == StallPipe(k + 1)[0]
  {
  }

  lemma StallPipes(cfg: Config, k: nat)
    requires Stalls(cfg) && k < 15
    ensures NextPipe(cfg, StallState(k), StallInput(k).ready) == StallPipe(k + 1)
  {
    StallFetches(cfg, k);
    ShiftTaking(StallPipe(k), Fetched(cfg, StallState(k), StallInput(k).ready));
    hide Shift, Fetched, StallPipe, StallMemory, StallOutput;
    assert StallPipe(k)[..1] == [StallPipe(k)[0]];
    assert StallPipe(k + 1) == [StallPipe(k + 1)[0]] + [StallPipe(k + 1)[1]];
  }

  lemma StallDrains(cfg: Config, k: nat)
    requires Stalls(cfg) && k < 15
    ensures
      var s, ready := StallState(k), StallInput(k).ready;
      NextQueue(cfg, s, ready) == StallOutput(k + 1).0 && NextOutput(cfg, s, ready) == StallOutput(k + 1).1
  {
    hide StallMemory;
  }

  lemma StallWrites(cfg: Config, k: nat)
    requires Stalls(cfg) && k < 15
    ensures
      var s, i := StallState(k), StallInput(k);
      var w := Write(cfg, s, i);
      && Rest(cfg, s, i.ready) + w.commit == StallMemory(k + 1).0 && w.pending == StallMemory(k + 1).1
      && !w.drop && !w.mark && !w.send
      && (if Accepts(cfg, s, i) then !i.beat.last else s.inFrame) == (k + 1 == 7)
  {
  }

  lemma StallStep(cfg: Config, k: nat)
    requires Stalls(cfg) && k < 15
    ensures Step(cfg, StallState(k), StallInput(k)) == StallState(k + 1)
  {
    StallPipes(cfg, k);
    StallDrains(cfg, k);
    StallWrites(cfg, k);
    hide Write, NextPipe, NextQueue, NextOutput, Rest, Accepts, StallMemory, StallPipe;
  }

  function StallInputs(n: nat): seq<Input> {
    if n == 0 then [] else StallInputs(n - 1) + [StallInput(n - 1)]
  }

  lemma RunMore(cfg: Config, inputs: seq<Input>, i: Input)
    ensures Run(cfg, inputs + [i]) == Advance(cfg, Run(cfg, inputs), i)
  {
    assert (inputs + [i])[..|inputs|] == inputs;
    hide Advance;
  }

  lemma {:induction false} StallRun(cfg: Config, n: nat)
    requires Stalls(cfg) && n <= 15
    ensures Run(cfg, StallInputs(n)).state == StallState(n)
  {
    if n == 0 {
      assert Initial(cfg).pipe == [None, None];
    } else {
      hide Step, StallState, StallInput, Run;
      StallRun(cfg, n - 1);
      StallStep(cfg, n - 1);
      RunMore(cfg, StallInputs(n - 1), StallInput(n - 1));
    }
  }

  /** After a stall of the output and with one RAM pipeline register the first
      beat of the frame of two leaves, and the second is not there. */
  lemma StalledRefillGaps(cfg: Config)
    requires Stalls(cfg)
    ensures
      var s := Run(cfg, StallInputs(15)).state;
      && Offered(cfg, s) == Some(Y1) && !Y1.last
      && Offered(cfg, Step(cfg, s, StallInput(15))) == None
    ensures !HeldInside(cfg, Run(cfg, StallInputs(15)).state, StallInput(15))
  {
    StallRun(cfg, 15);
    hide Write, Run, NextPipe, StallInputs;
  }

  // Without DROP_OVERSIZE_FRAME: a frame that is sent in parts

  const CUT_BEAT := Beat(0, false, false)

  /** More beats than the memory holds, and then a pause inside the frame. */
  function CutInput(cfg: Config, k: nat): Input {
    Input(k <= cfg.depth, CUT_BEAT, true)
  }

  function CutInputs(cfg: Config, n: nat): seq<Input> {
    if n == 0 then [] else CutInputs(cfg, n - 1) + [CutInput(cfg, n - 1)]
  }

  function CutTrace(cfg: Config, n: nat): Trace {
    Run(cfg, CutInputs(cfg, n))
  }

  predicate SendsParts(cfg: Config) {
    cfg.Valid() && cfg.frameFifo && !cfg.dropOversize && cfg.Sized()
  }

  lemma CutMore(cfg: Config, n: nat)
    ensures CutTrace(cfg, n + 1) == Advance(cfg, CutTrace(cfg, n), CutInput(cfg, n))
  {
    hide Run, Advance, CutInput;
    RunMore(cfg, CutInputs(cfg, n), CutInput(cfg, n));
  }

  lemma CutStarts(cfg: Config)
    ensures CutTrace(cfg, 0).state == Initial(cfg) && CutTrace(cfg, 0).log.emitted == []
  {
  }

  lemma CutBounded(cfg: Config, n: nat)
    requires cfg.Sized()
    ensures
      var s := CutTrace(cfg, n).state;
      Bounded(cfg, s) && |s.outQueue| < cfg.OutputDepth()
  {
    SizingSuffices(cfg);
    RunBounded(cfg, CutInputs(cfg, n));
    NeverOverflows(cfg, CutInputs(cfg, n));
  }

  /** The state with the given beats in memory and nothing after it. */
  function InMemory(cfg: Config, committed: seq<Beat>, pending: seq<Beat>, send: bool): State {
    Initial(cfg).(committed := committed, pending := pending, send := send, inFrame := committed + pending != [])
  }

  lemma MemoryStays(cfg: Config, committed: seq<Beat>, pending: seq<Beat>, send: bool)
    requires cfg.halfDepth > 0 && committed == []
    ensures
      var s := InMemory(cfg, committed, pending, send);
      NextPipe(cfg, s, true) == s.pipe && AfterOutput(cfg, s, true) == s && Rest(cfg, s, true) == committed
      && Emitted(cfg, s, true) == []
  {
    var s := InMemory(cfg, committed, pending, send);
    ShiftTaking(s.pipe, None);
    assert [None] + s.pipe[..|s.pipe| - 1] == s.pipe;
  }

  /** One more beat goes into the memory. */
  lemma CutFillsOne(cfg: Config, n: nat)
    requires SendsParts(cfg) && n < cfg.depth && cfg.halfDepth > 0
    ensures
      var s := InMemory(cfg, [], seq(n, _ => CUT_BEAT), false);
      && Step(cfg, s, CutInput(cfg, n)) == InMemory(cfg, [], seq(n + 1, _ => CUT_BEAT), false)
      && Emitted(cfg, s, true) == []
  {
    hide NextPipe, Rest, Emitted, AfterOutput;
    MemoryStays(cfg, [], seq(n, _ => CUT_BEAT), false);
    assert seq(n + 1, _ => CUT_BEAT) == seq(n, _ => CUT_BEAT) + [CUT_BEAT];
  }

  lemma {:induction false} CutFills(cfg: Config, n: nat)
    requires SendsParts(cfg) && n <= cfg.depth
    ensures CutTrace(cfg, n).state == InMemory(cfg, [], seq(n, _ => CUT_BEAT), false)
    ensures CutTrace(cfg, n).log.emitted == []
  {
    hide CutTrace, Step, Emitted, Write, Accepts;
    SizingSuffices(cfg);
    if n == 0 {
      CutStarts(cfg);
    } else {
      CutFills(cfg, n - 1);
      CutMore(cfg, n - 1);
      CutFillsOne(cfg, n - 1);
    }
  }

  /** The full memory commits what it has of the frame. */
  lemma CutCommits(cfg: Config)
    requires SendsParts(cfg)
    ensures CutTrace(cfg, cfg.depth + 1).state == InMemory(cfg, seq(cfg.depth, _ => CUT_BEAT), [], true)
    ensures CutTrace(cfg, cfg.depth + 1).log.emitted == []
  {
    hide CutTrace, NextPipe, Rest, Emitted, AfterOutput;
    SizingSuffices(cfg);
    CutMore(cfg, cfg.depth);
    CutFills(cfg, cfg.depth);
    MemoryStays(cfg, [], seq(cfg.depth, _ => CUT_BEAT), false);
  }

  lemma WritesNothing(cfg: Config, s: State, n: nat)
    requires cfg.frameFifo && !cfg.dropOversize && n > cfg.depth
    ensures Write(cfg, s, CutInput(cfg, n)).commit == []
  {
  }

  /** No more follows. */
  lemma {:induction false} CutStored(cfg: Config, n: nat)
    requires SendsParts(cfg) && n > cfg.depth
    ensures StoredStream(CutTrace(cfg, n)) == seq(cfg.depth, _ => CUT_BEAT)
  {
    hide CutTrace, Advance, Write, CutInput, Bounded, PipeBeats;
    if n == cfg.depth + 1 {
      CutCommits(cfg);
      EmptyPipe(cfg.ramPipeline + 1);
    } else {
      hide StoredStream, InMemory;
      CutStored(cfg, n - 1);
      CutMore(cfg, n - 1);
      CutBounded(cfg, n - 1);
      StreamConserved(cfg, CutTrace(cfg, n - 1), CutInput(cfg, n - 1));
      WritesNothing(cfg, CutTrace(cfg, n - 1).state, n - 1);
    }
  }

  lemma CutOffers(cfg: Config, n: nat)
    requires SendsParts(cfg) && n > cfg.depth && Offered(cfg, CutTrace(cfg, n).state).Some?
    ensures Offered(cfg, CutTrace(cfg, n).state) == Some(CUT_BEAT)
  {
    CutStored(cfg, n);
    var s := CutTrace(cfg, n).state;
    hide CutTrace;
    assert Offered(cfg, s).value in InFlight(s);
    assert Offered(cfg, s).value in StoredStream(CutTrace(cfg, n));
  }

  lemma PipeTakes(cfg: Config, s: State, i: Input)
    requires i.ready && s.pipe != []
    ensures Step(cfg, s, i).pipe == [Fetched(cfg, s, true)] + s.pipe[..|s.pipe| - 1]
  {
    ShiftTaking(s.pipe, Fetched(cfg, s, true));
    hide Shift, Write;
  }

  lemma MemoryOffers(cfg: Config, s: State)
    requires s.committed != [] && !s.halfFull && None in s.pipe
    ensures Fetched(cfg, s, true).Some?
  {
  }

  lemma {:induction false} CutTravels(cfg: Config, j: nat)
    requires SendsParts(cfg) && j <= cfg.ramPipeline
    ensures |CutTrace(cfg, cfg.depth + 2 + j).state.pipe| == cfg.ramPipeline + 1
    ensures CutTrace(cfg, cfg.depth + 2 + j).state.pipe[j].Some?
  {
    hide CutTrace, Step, Fetched, PipeBeats;
    var n := cfg.depth + 1 + j;
    var s := CutTrace(cfg, n).state;
    CutMore(cfg, n);
    CutBounded(cfg, n);
    PipeTakes(cfg, s, CutInput(cfg, n));
    if j > 0 {
      CutTravels(cfg, j - 1);
    } else {
      CutCommits(cfg);
      assert s.pipe[0] == None;
      MemoryOffers(cfg, s);
    }
  }

  /** What has come through the pipeline comes through the output FIFO. */
  lemma OutputPasses(cfg: Config, s: State, i: Input)
    requires cfg.outputFifo && i.ready
    ensures |s.outQueue| < cfg.OutputDepth() && Top(s).Some? ==> Step(cfg, s, i).outQueue != []
    ensures s.outQueue != [] ==> Step(cfg, s, i).outReg.Some?
  {
    hide Write, NextPipe;
  }

  /** The first beat reaches the output. */
  lemma CutArrives(cfg: Config) returns (n: nat)
    requires SendsParts(cfg)
    ensures n > cfg.depth && Offered(cfg, CutTrace(cfg, n).state).Some?
  {
    hide CutTrace, Step, Bounded, Observe;
    n := cfg.depth + 2 + cfg.ramPipeline;
    CutTravels(cfg, cfg.ramPipeline);
    if cfg.outputFifo {
      CutBounded(cfg, n);
      CutMore(cfg, n);
      OutputPasses(cfg, CutTrace(cfg, n).state, CutInput(cfg, n));
      CutMore(cfg, n + 1);
      OutputPasses(cfg, CutTrace(cfg, n + 1).state, CutInput(cfg, n + 1));
      n := n + 2;
    }
  }

  /** Without a gap a beat would leave in every clock from then on. */
  lemma {:induction false} CutGoesOn(cfg: Config, n: nat, m: nat)
    requires SendsParts(cfg) && NeverGaps(cfg) && n > cfg.depth && Offered(cfg, CutTrace(cfg, n).state).Some?
    ensures Offered(cfg, CutTrace(cfg, n + m).state).Some? && |CutTrace(cfg, n + m).log.emitted| >= m
  {
    hide Step, Run, CutInputs, Offered, NeverGaps, CutTrace;
    if m > 0 {
      CutGoesOn(cfg, n, m - 1);
      CutOffers(cfg, n + m - 1);
      CutMore(cfg, n + m - 1);
      CutHeld(cfg, n + m - 1);
    }
  }

  lemma CutHeld(cfg: Config, n: nat)
    requires NeverGaps(cfg)
    ensures HeldInside(cfg, CutTrace(cfg, n).state, CutInput(cfg, n))
  {
    hide HeldInside, CutInputs, Run;
  }

  lemma OversizeGaps(cfg: Config)
    requires SendsParts(cfg)
    ensures !NeverGaps(cfg)
  {
    hide NeverGaps, CutTrace;
    var n := CutArrives(cfg);
    if NeverGaps(cfg) {
      CutGoesOn(cfg, n, cfg.depth + 1);
      CutStored(cfg, n + cfg.depth + 1);
    }
  }

  // The exact condition

  lemma {:induction false} GoodBeatsSingle(cfg: Config, frames: seq<seq<Beat>>, verdicts: seq<Verdict>, b: Beat)
    requires |frames| == |verdicts| && cfg.depth == 1
    requires forall k :: 0 <= k < |frames| ==> IsFrame(frames[k]) && Fits(cfg, frames[k], verdicts[k])
    requires b in GoodBeats(frames, verdicts)
    ensures b.last
  {
    var n := |frames| - 1;
    assert IsFrame(frames[n]) && Fits(cfg, frames[n], verdicts[n]);
    if b in GoodBeats(frames[..n], verdicts[..n]) {
      GoodBeatsSingle(cfg, frames[..n], verdicts[..n], b);
    }
  }

  /** A memory of one word stores only frames of one beat. */
  lemma OneWordMemory(cfg: Config, inputs: seq<Input>)
    requires cfg.Valid() && cfg.dropOversize && cfg.Sized() && cfg.outputFifo && cfg.depth == 1
    ensures
      var s := Run(cfg, inputs).state;
      s.outReg.Some? ==> s.outReg.value.last
  {
    WholeFramesInOrderOrNotAtAll(cfg, inputs);
    var t := Run(cfg, inputs);
    hide Run, GoodBeats, Fits, IsFrame;
    if t.state.outReg.Some? {
      assert t.state.outReg.value in InFlight(t.state);
      GoodBeatsSingle(cfg, t.log.frames, t.log.verdicts, t.state.outReg.value);
    }
  }

  lemma OutputFifoHolds(cfg: Config, inputs: seq<Input>, i: Input)
    requires cfg.Valid() && cfg.dropOversize && cfg.Sized() && cfg.outputFifo
    requires cfg.ramPipeline != 1 || cfg.depth == 1
    ensures HeldInside(cfg, Run(cfg, inputs).state, i)
  {
    hide Run, Write, NextPipe, NextQueue;
    RoomUnlessOne(cfg);
    if cfg.ramPipeline != 1 {
      RunSupplied(cfg, inputs);
    } else {
      OneWordMemory(cfg, inputs);
    }
  }

  /** Main result: in frame mode tvalid never goes down within a frame in any run
      exactly if oversize frames are dropped and there is no output FIFO, or
      RAM_PIPELINE is not 1, or no frame of more than one beat fits the memory. */
  lemma NeverGapsExactly(cfg: Config)
    requires cfg.Valid() && cfg.frameFifo && cfg.Sized()
    ensures NeverGaps(cfg) <==>
              cfg.dropOversize && (!cfg.outputFifo || cfg.ramPipeline != 1 || cfg.depth == 1)
  {
    if !cfg.dropOversize {
      OversizeGaps(cfg);
    } else if !cfg.outputFifo || cfg.ramPipeline != 1 || cfg.depth == 1 {
      forall inputs: seq<Input>, i: Input
        ensures HeldInside(cfg, Run(cfg, inputs).state, i)
      {
        if cfg.outputFifo {
          OutputFifoHolds(cfg, inputs, i);
        } else {
          NoGapInsideFrame(cfg, inputs, i);
        }
      }
    } else {
      assert Pow2(3) == 8 by {
        assert Pow2(1) == 2 && Pow2(2) == 4;
      }
      StalledRefillGaps(cfg);
    }
  }
}
