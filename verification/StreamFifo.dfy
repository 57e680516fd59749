/** The AXI-Stream FIFO seen as queues: what one clock of axis_fifo does to
    the beats it holds, without memory, pointers or bit tests. */
module StreamFifo {
  import opened Common

  type Payload = int

  /** One stream beat; `bad` is the outcome of the bad-frame test on tuser. */
  datatype Beat = Beat(data: Payload, last: bool, bad: bool)

  /** The parameters. `halfDepth` is half the number of words of the output FIFO. */
  datatype Config = Config(
    depth: nat,
    ramPipeline: nat,
    frameFifo: bool,
    dropOversize: bool,
    dropBad: bool,
    dropWhenFull: bool,
    markWhenFull: bool,
    outputFifo: bool,
    halfDepth: nat)
  {
    /** The parameter combinations that survive the configuration checks. */
    predicate Valid() {
      && depth > 0
      && (dropOversize ==> frameFifo)
      && (dropBad ==> dropOversize)
      && (dropWhenFull ==> dropOversize)
      && (markWhenFull ==> !frameFifo)
    }

    /** OUTPUT_FIFO_ADDR_WIDTH as it is derived from RAM_PIPELINE. */
    function OutputAddrWidth(): nat {
      if ramPipeline < 2 then 3 else Clog2(ramPipeline * 2 + 7)
    }

    /** The output FIFO has the size that the address width gives it. */
    predicate Sized() {
      OutputDepth() == Pow2(OutputAddrWidth())
    }

    function OutputDepth(): nat {
      2 * halfDepth
    }
  }

  /** Signals sampled at a clock edge: s_axis_tvalid, the input beat, m_axis_tready. */
  datatype Input = Input(valid: bool, beat: Beat, ready: bool)

  datatype Pulses = Pulses(good: bool, bad: bool, overflow: bool)

  const NO_PULSE := Pulses(false, false, false)

  datatype State = State(
    committed: seq<Beat>,
    pending: seq<Beat>,
    inFrame: bool,
    drop: bool,
    mark: bool,
    send: bool,
    pipe: seq<Option<Beat>>,
    outQueue: seq<Beat>,
    outReg: Option<Beat>,
    halfFull: bool)

  function Initial(cfg: Config): State {
    State([], [], false, false, false, false, seq(cfg.ramPipeline + 1, _ => None), [], None, false)
  }

  predicate Full(cfg: Config, s: State) {
    |s.committed| + |s.pending| == cfg.depth
  }

  predicate FullFrame(cfg: Config, s: State) {
    |s.pending| == cfg.depth
  }

  predicate InputReady(cfg: Config, s: State) {
    if cfg.frameFifo then
      !Full(cfg, s) || (FullFrame(cfg, s) && cfg.dropOversize) || cfg.dropWhenFull
    else
      !Full(cfg, s) || cfg.markWhenFull
  }

  predicate Accepts(cfg: Config, s: State, i: Input) {
    InputReady(cfg, s) && i.valid
  }

  /** The word presented to the memory: while marking, the beat closes a bad frame. */
  function Stored(s: State, b: Beat): Beat {
    Beat(b.data, b.last || s.mark, s.mark || b.bad)
  }

  /** What the write process leaves behind: the beats it commits and its registers. */
  datatype Written = Written(
    commit: seq<Beat>,
    pending: seq<Beat>,
    drop: bool,
    mark: bool,
    send: bool,
    pulses: Pulses)

  function WriteFrame(cfg: Config, s: State, i: Input): Written {
    if Accepts(cfg, s, i) then
      if (Full(cfg, s) && cfg.dropWhenFull) || (FullFrame(cfg, s) && cfg.dropOversize) || s.drop then
        if i.beat.last then
          Written([], [], false, s.mark, s.send, NO_PULSE.(overflow := true))
        else
          Written([], s.pending, true, s.mark, s.send, NO_PULSE)
      else
        var stored := s.pending + [Stored(s, i.beat)];
        if i.beat.last || (!cfg.dropOversize && (FullFrame(cfg, s) || s.send)) then
          if i.beat.last && cfg.dropBad && i.beat.bad then
            Written([], [], s.drop, s.mark, !i.beat.last, NO_PULSE.(bad := true))
          else
            Written(stored, [], s.drop, s.mark, !i.beat.last, NO_PULSE.(good := i.beat.last))
        else
          Written([], stored, s.drop, s.mark, s.send, NO_PULSE)
    else if i.valid && FullFrame(cfg, s) && !cfg.dropOversize then
      Written(s.pending, [], s.drop, s.mark, true, NO_PULSE)
    else
      Written([], s.pending, s.drop, s.mark, s.send, NO_PULSE)
  }

  function WriteStream(cfg: Config, s: State, i: Input): Written {
    var store := s.pending + [Stored(s, i.beat)];
    if Accepts(cfg, s, i) then
      if s.drop && cfg.markWhenFull then
        if i.beat.last then
          if !Full(cfg, s) && s.mark then
            Written(store, [], false, false, s.send, NO_PULSE.(overflow := true))
          else
            Written([], s.pending, false, s.mark, s.send, NO_PULSE.(overflow := true))
        else
          Written([], s.pending, s.drop, s.mark, s.send, NO_PULSE)
      else if (Full(cfg, s) || s.mark) && cfg.markWhenFull then
        Written([], s.pending, !i.beat.last, s.mark || s.inFrame, s.send, NO_PULSE.(overflow := i.beat.last))
      else
        Written(store, [], s.drop, s.mark, s.send, NO_PULSE)
    else if !Full(cfg, s) && !s.drop && s.mark && cfg.markWhenFull then
      Written(store, [], s.drop, false, s.send, NO_PULSE)
    else
      Written([], s.pending, s.drop, s.mark, s.send, NO_PULSE)
  }

  function Write(cfg: Config, s: State, i: Input): Written {
    if cfg.frameFifo then WriteFrame(cfg, s, i) else WriteStream(cfg, s, i)
  }

  /** The read pipeline as a chain of one-place buffers, memory side first: a
      stage takes from its predecessor when it is empty or its successor takes. */
  function Shift(pipe: seq<Option<Beat>>, take: bool, head: Option<Beat>): (r: seq<Option<Beat>>)
    ensures |r| == |pipe|
  {
    if pipe == [] then []
    else
      var n := |pipe| - 1;
      var takes := take || pipe[n].None?;
      Shift(pipe[..n], takes, head)
      + [if !takes then pipe[n] else if n == 0 then head else pipe[n - 1]]
  }

  /** Whether the memory side of the chain takes a new word. */
  predicate Fetches(pipe: seq<Option<Beat>>, take: bool) {
    take || None in pipe
  }

  predicate PipeReady(cfg: Config, s: State, ready: bool) {
    cfg.outputFifo || ready
  }

  predicate Pops(cfg: Config, s: State, ready: bool) {
    && Fetches(s.pipe, PipeReady(cfg, s, ready))
    && s.committed != []
    && (cfg.outputFifo ==> !s.halfFull)
  }

  function Fetched(cfg: Config, s: State, ready: bool): Option<Beat> {
    if Pops(cfg, s, ready) then Some(s.committed[0]) else None
  }

  function Top(s: State): Option<Beat> {
    if s.pipe == [] then None else s.pipe[|s.pipe| - 1]
  }

  /** The beat on m_axis, if m_axis_tvalid. */
  function Offered(cfg: Config, s: State): Option<Beat> {
    if cfg.outputFifo then s.outReg else Top(s)
  }

  function AsSeq(b: Option<Beat>): seq<Beat> {
    if b.Some? then [b.value] else []
  }

  function Emitted(cfg: Config, s: State, ready: bool): seq<Beat> {
    if ready then AsSeq(Offered(cfg, s)) else []
  }

  predicate LoadsOutput(cfg: Config, s: State, ready: bool) {
    cfg.outputFifo && s.outQueue != [] && (s.outReg.None? || ready)
  }

  /** The committed beats left after this clock's fetch. */
  function Rest(cfg: Config, s: State, ready: bool): seq<Beat> {
    if Pops(cfg, s, ready) then s.committed[1..] else s.committed
  }

  function NextPipe(cfg: Config, s: State, ready: bool): seq<Option<Beat>> {
    Shift(s.pipe, PipeReady(cfg, s, ready), Fetched(cfg, s, ready))
  }

  function NextQueue(cfg: Config, s: State, ready: bool): seq<Beat> {
    (if LoadsOutput(cfg, s, ready) then s.outQueue[1..] else s.outQueue)
    + (if cfg.outputFifo && |s.outQueue| != cfg.OutputDepth() then AsSeq(Top(s)) else [])
  }

  function NextOutput(cfg: Config, s: State, ready: bool): Option<Beat> {
    if LoadsOutput(cfg, s, ready) then Some(s.outQueue[0])
    else if cfg.outputFifo && !ready then s.outReg
    else None
  }

  /** The state with the output FIFO advanced. */
  function AfterOutput(cfg: Config, s: State, ready: bool): State {
    s.(outQueue := NextQueue(cfg, s, ready),
       outReg := NextOutput(cfg, s, ready),
       halfFull := cfg.outputFifo && |s.outQueue| >= cfg.halfDepth)
  }

  lemma NoOutputFifo(cfg: Config, s: State, ready: bool)
    requires !cfg.outputFifo && s.outReg == None && !s.halfFull
    ensures AfterOutput(cfg, s, ready) == s
  {
  }

  /** State r with memory and pipeline read; the read process sampled state s. */
  function AfterRead(cfg: Config, s: State, ready: bool, r: State): State {
    r.(committed := Rest(cfg, s, ready), pipe := NextPipe(cfg, s, ready))
  }

  /** State r with the write process advanced; the process sampled state s. */
  function AfterWrite(cfg: Config, s: State, i: Input, r: State): State {
    var w := Write(cfg, s, i);
    r.(committed := r.committed + w.commit,
       pending := w.pending,
       inFrame := if Accepts(cfg, s, i) then !i.beat.last else s.inFrame,
       drop := w.drop,
       mark := w.mark,
       send := w.send)
  }

  /** One clock: all processes sample the state before it. */
  function Step(cfg: Config, s: State, i: Input): State {
    AfterWrite(cfg, s, i, AfterRead(cfg, s, i.ready, AfterOutput(cfg, s, i.ready)))
  }

  /** The beats inside the pipeline in the order in which they will leave it. */
  function PipeBeats(pipe: seq<Option<Beat>>): seq<Beat> {
    if pipe == [] then [] else AsSeq(pipe[|pipe| - 1]) + PipeBeats(pipe[..|pipe| - 1])
  }

  /** Everything fetched from memory and not yet delivered, oldest first. */
  function InFlight(s: State): seq<Beat> {
    Flight(s.outReg, s.outQueue, s.pipe)
  }

  function Flight(outReg: Option<Beat>, outQueue: seq<Beat>, pipe: seq<Option<Beat>>): seq<Beat> {
    AsSeq(outReg) + outQueue + PipeBeats(pipe)
  }

  function Delivered(pipe: seq<Option<Beat>>, take: bool): seq<Beat>
    requires pipe != []
  {
    if take then AsSeq(pipe[|pipe| - 1]) else []
  }

  function Entering(pipe: seq<Option<Beat>>, take: bool, head: Option<Beat>): seq<Beat> {
    if Fetches(pipe, take) then AsSeq(head) else []
  }

  lemma PipeBeatsTop(front: seq<Option<Beat>>, top: Option<Beat>)
    ensures PipeBeats(front + [top]) == AsSeq(top) + PipeBeats(front)
  {
    assert (front + [top])[..|front|] == front;
  }

  lemma ShiftTop(front: seq<Option<Beat>>, top: Option<Beat>, take: bool, head: Option<Beat>)
    requires front != []
    ensures
      var takes := take || top.None?;
      && Delivered(front + [top], take) + PipeBeats(Shift(front + [top], take, head))
         == AsSeq(top) + (Delivered(front, takes) + PipeBeats(Shift(front, takes, head)))
      && Entering(front + [top], take, head) == Entering(front, takes, head)
  {
    var takes := take || top.None?;
    var moved := Shift(front, takes, head);
    var newTop := if takes then front[|front| - 1] else top;
    assert (front + [top])[..|front|] == front;
    assert Shift(front + [top], take, head) == moved + [newTop];
    hide Shift, PipeBeats;
    PipeBeatsTop(moved, newTop);
  }

  lemma PipeBeatsSingle(x: Option<Beat>)
    ensures PipeBeats([x]) == AsSeq(x)
  {
    PipeBeatsTop([], x);
    assert [] + [x] == [x];
  }

  lemma ShiftSingle(top: Option<Beat>, take: bool, head: Option<Beat>)
    ensures Delivered([top], take) + PipeBeats(Shift([top], take, head))
            == PipeBeats([top]) + Entering([top], take, head)
  {
    var newTop := if take || top.None? then head else top;
    assert Shift([top], take, head) == [newTop] by {
      assert [top][..0] == [];
    }
    hide Shift, PipeBeats;
    PipeBeatsSingle(top);
    PipeBeatsSingle(newTop);
  }

  /** A clock of the pipeline neither loses, duplicates nor reorders a beat. */
  lemma {:induction false} ShiftConserves(pipe: seq<Option<Beat>>, take: bool, head: Option<Beat>)
    requires pipe != []
    ensures Delivered(pipe, take) + PipeBeats(Shift(pipe, take, head))
            == PipeBeats(pipe) + Entering(pipe, take, head)
  {
    hide Shift, PipeBeats, Delivered, Entering;
    var n := |pipe| - 1;
    var front, top := pipe[..n], pipe[n];
    assert pipe == front + [top];
    if n == 0 {
      ShiftSingle(top, take, head);
    } else {
      var takes := take || top.None?;
      PipeBeatsTop(front, top);
      ShiftTop(front, top, take, head);
      ShiftConserves(front, takes, head);
      Associate(AsSeq(top), PipeBeats(front), Entering(front, takes, head));
    }
  }

  /** Stage j moves exactly when the output takes or some stage from j up is empty. */
  predicate Moves(pipe: seq<Option<Beat>>, take: bool, j: nat)
    requires j < |pipe|
  {
    take || None in pipe[j..]
  }

  lemma MovesBelow(pipe: seq<Option<Beat>>, take: bool, j: nat)
    requires j < |pipe| - 1
    ensures Moves(pipe, take, j) == Moves(pipe[..|pipe| - 1], take || pipe[|pipe| - 1].None?, j)
  {
    assert pipe[j..] == pipe[..|pipe| - 1][j..] + [pipe[|pipe| - 1]];
  }

  /** The recursive chain is the bit test on the valid flags, stage by stage. */
  lemma {:induction false} ShiftAt(pipe: seq<Option<Beat>>, take: bool, head: Option<Beat>, j: nat)
    requires j < |pipe|
    ensures Shift(pipe, take, head)[j]
            == if !Moves(pipe, take, j) then pipe[j] else if j == 0 then head else pipe[j - 1]
  {
    var n := |pipe| - 1;
    var takes := take || pipe[n].None?;
    if j < n {
      MovesBelow(pipe, take, j);
      ShiftAt(pipe[..n], takes, head, j);
      hide Moves;
    } else {
      assert pipe[j..] == [pipe[n]];
    }
  }

  /** What an observer of the ports records: the frames that went in (complete
      ones and the one in progress), the status pulses, the beats that came out. */
  datatype Verdict = Good | Bad | Overflow

  datatype Log = Log(
    frames: seq<seq<Beat>>,
    partial: seq<Beat>,
    verdicts: seq<Verdict>,
    emitted: seq<Beat>)

  function Verdicts(p: Pulses): seq<Verdict> {
    (if p.good then [Good] else []) + (if p.bad then [Bad] else []) + (if p.overflow then [Overflow] else [])
  }

  function Observe(cfg: Config, s: State, i: Input, log: Log): Log {
    var partial := if Accepts(cfg, s, i) then log.partial + [i.beat] else log.partial;
    var ends := Accepts(cfg, s, i) && i.beat.last;
    Log(
      if ends then log.frames + [partial] else log.frames,
      if ends then [] else partial,
      log.verdicts + Verdicts(Write(cfg, s, i).pulses),
      log.emitted + Emitted(cfg, s, i.ready))
  }

  datatype Trace = Trace(state: State, log: Log)

  function Advance(cfg: Config, t: Trace, i: Input): Trace {
    Trace(Step(cfg, t.state, i), Observe(cfg, t.state, i, t.log))
  }

  function Run(cfg: Config, inputs: seq<Input>): Trace {
    if inputs == [] then Trace(Initial(cfg), Log([], [], [], []))
    else Advance(cfg, Run(cfg, inputs[..|inputs| - 1]), inputs[|inputs| - 1])
  }

  /** For each complete frame, and for the frame in progress, whether a beat of it was
      accepted while there was no room for it. */
  datatype Shortage = Shortage(complete: seq<bool>, open: bool)

  /** The memory holds its size in words, or the closing beat of a cut frame is pending. */
  predicate NoRoom(cfg: Config, s: State) {
    |s.committed| + |s.pending| == cfg.depth || s.mark
  }

  function Shortages(cfg: Config, inputs: seq<Input>): Shortage {
    if inputs == [] then Shortage([], false)
    else
      var n := |inputs| - 1;
      NextShortage(cfg, Run(cfg, inputs[..n]).state, inputs[n], Shortages(cfg, inputs[..n]))
  }

  function NextShortage(cfg: Config, s: State, i: Input, before: Shortage): Shortage {
    if !Accepts(cfg, s, i) then before
    else if i.beat.last then Shortage(before.complete + [before.open || NoRoom(cfg, s)], false)
    else before.(open := before.open || NoRoom(cfg, s))
  }

  /** Everything ever committed to the memory, oldest first. */
  function StoredStream(t: Trace): seq<Beat> {
    t.log.emitted + InFlight(t.state) + t.state.committed
  }
}
