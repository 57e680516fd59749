/** axis_fifo with its registers and memories. Every clock moves the queues that
    the registers stand for exactly as StreamFifo.Step says. */
module AxisFifo {
  import opened Common
  import opened StreamFifo
  import opened FrameMemory
  import OutputFifo

  class Fifo {
    const cfg: Config
    const main: Memory
    var sFrame: bool
    var dropFrame: bool
    var markFrame: bool
    var sendFrame: bool
    var status: Pulses
    var pipeValid: seq<bool>
    var pipeData: seq<Beat>
    // The output FIFO; every word pushed into it is committed at once.
    const output: Memory
    var outHalfFull: bool
    var outValid: bool
    var outData: Beat

    ghost predicate Valid()
      reads this, main, main.mem, output, output.mem
    {
      && cfg.Valid() && cfg.halfDepth > 0
      && main != output && main.mem != output.mem
      && main.Valid() && main.size == cfg.depth
      && output.Valid() && output.size == cfg.OutputDepth() && output.pending == []
      && |pipeValid| == |pipeData| == cfg.ramPipeline + 1
      && (!cfg.outputFifo ==> !outValid && !outHalfFull)
    }

    /** The queues and flags that the registers stand for. */
    ghost function Abs(): State
      requires |pipeValid| == |pipeData|
      reads this, main, output
    {
      State(main.committed, main.pending, sFrame, dropFrame, markFrame, sendFrame,
            Stages(pipeValid, pipeData),
            output.committed, if outValid then Some(outData) else None, outHalfFull)
    }

    constructor (cfg: Config)
      requires cfg.Valid() && cfg.Sized()
      ensures Valid() && this.cfg == cfg
      ensures fresh(main) && fresh(main.mem) && fresh(output) && fresh(output.mem)
      ensures Abs() == Initial(cfg)
      ensures status == NO_PULSE
    {
      OutputFifo.SizingSuffices(cfg);
      var idle := Beat(0, false, false);
      this.cfg := cfg;
      main := new Memory(cfg.depth, idle);
      output := new Memory(cfg.OutputDepth(), idle);
      sFrame, dropFrame, markFrame, sendFrame := false, false, false, false;
      status := NO_PULSE;
      pipeValid, pipeData := seq(cfg.ramPipeline + 1, _ => false), seq(cfg.ramPipeline + 1, _ => idle);
      outHalfFull, outValid, outData := false, false, idle;
    }

    predicate SReady()
      requires Valid()
      reads this, main, main.mem, output, output.mem
      ensures SReady() == InputReady(cfg, Abs())
    {
      if cfg.frameFifo then
        !main.Full() || (main.FullFrame() && cfg.dropOversize) || cfg.dropWhenFull
      else
        !main.Full() || cfg.markWhenFull
    }

    /** s is the state at the start of the clock, as the write process samples
        it; the read process may have advanced the read pointer since. */
    ghost predicate Samples(s: State)
      reads this, main
    {
      && main.size == cfg.depth
      && s.pending == main.pending
      && |main.committed| <= |s.committed|
      && |s.committed| + |s.pending| <= cfg.depth
      && s.inFrame == sFrame && s.drop == dropFrame && s.mark == markFrame && s.send == sendFrame
    }

    /** The "store it" branch of frame mode. */
    method StoreFrameBeat(i: Input, fullFrame: bool, ghost s: State) returns (send: bool, pulses: Pulses)
      requires main.Valid() && Samples(s) && cfg.frameFifo
      requires fullFrame == FullFrame(cfg, s)
      requires Accepts(cfg, s, i) && !Full(cfg, s) && !s.drop
      modifies main, main.mem
      ensures main.Valid()
      ensures
        var w := WriteFrame(cfg, s, i);
        && main.committed == old(main.committed) + w.commit
        && main.pending == w.pending
        && send == w.send && pulses == w.pulses
    {
      send, pulses := sendFrame, NO_PULSE;
      main.Store(Beat(i.beat.data, i.beat.last || markFrame, markFrame || i.beat.bad));
      if i.beat.last || (!cfg.dropOversize && (fullFrame || sendFrame)) {
        send := !i.beat.last;
        if i.beat.last && cfg.dropBad && i.beat.bad {
          main.Rollback();
          pulses := pulses.(bad := true);
        } else {
          main.Commit();
          pulses := pulses.(good := i.beat.last);
        }
      }
    }

    method WriteFrameProcess(i: Input, full: bool, fullFrame: bool, ready: bool, ghost s: State)
      returns (drop: bool, send: bool, pulses: Pulses)
      requires main.Valid() && Samples(s) && cfg.frameFifo
      requires full == Full(cfg, s) && fullFrame == FullFrame(cfg, s) && ready == InputReady(cfg, s)
      modifies main, main.mem
      ensures main.Valid()
      ensures
        var w := WriteFrame(cfg, s, i);
        && main.committed == old(main.committed) + w.commit
        && main.pending == w.pending
        && drop == w.drop && markFrame == w.mark && send == w.send && pulses == w.pulses
    {
      drop, send, pulses := dropFrame, sendFrame, NO_PULSE;
      if ready && i.valid {
        if (full && cfg.dropWhenFull) || (fullFrame && cfg.dropOversize) || dropFrame {
          drop := true;
          if i.beat.last {
            main.Rollback();
            drop := false;
            pulses := pulses.(overflow := true);
          }
        } else {
          send, pulses := StoreFrameBeat(i, fullFrame, s);
        }
      } else if i.valid && fullFrame && !cfg.dropOversize {
        send := true;
        main.Commit();
      }
    }

    method WriteStreamProcess(i: Input, full: bool, ready: bool, ghost s: State)
      returns (drop: bool, mark: bool, pulses: Pulses)
      requires main.Valid() && Samples(s) && !cfg.frameFifo
      requires full == Full(cfg, s) && ready == InputReady(cfg, s)
      modifies main, main.mem
      ensures main.Valid()
      ensures
        var w := WriteStream(cfg, s, i);
        && main.committed == old(main.committed) + w.commit
        && main.pending == w.pending
        && drop == w.drop && mark == w.mark && sendFrame == w.send && pulses == w.pulses
    {
      drop, mark, pulses := dropFrame, markFrame, NO_PULSE;
      var word := Beat(i.beat.data, i.beat.last || markFrame, markFrame || i.beat.bad);
      if ready && i.valid {
        if dropFrame && cfg.markWhenFull {
          if i.beat.last {
            if !full && markFrame {
              mark := false;
              main.Store(word);
              main.Commit();
            }
            drop := false;
            pulses := pulses.(overflow := true);
          }
        } else if (full || markFrame) && cfg.markWhenFull {
          drop := true;
          mark := markFrame || sFrame;
          if i.beat.last {
            drop := false;
            pulses := pulses.(overflow := true);
          }
        } else {
          main.Store(word);
          main.Commit();
        }
      } else if !full && !dropFrame && markFrame && cfg.markWhenFull {
        mark := false;
        main.Store(word);
        main.Commit();
      }
    }

    /** One clock of the read logic against the memory. */
    method ReadProcess(take: bool, pipeReady: bool)
      requires main.Valid() && |pipeValid| == |pipeData| > 0
      modifies main`rdPtr, main`committed, this`pipeValid, this`pipeData
      ensures main.Valid() && |pipeValid| == |pipeData| == old(|pipeValid|)
      ensures
        var stages := Stages(old(pipeValid), old(pipeData));
        var committed := old(main.committed);
        var fetch := Fetches(stages, take) && committed != [] && pipeReady;
        && Stages(pipeValid, pipeData) == Shift(stages, take, if fetch then Some(committed[0]) else None)
        && main.committed == (if fetch then committed[1..] else committed)
    {
      var bubble := exists k :: 0 <= k < |pipeValid| && !pipeValid[k];
      var fetch := (take || bubble) && !main.Empty() && pipeReady;
      StageEmpty(pipeValid, pipeData, 0);
      assert Stages(pipeValid, pipeData)[0..] == Stages(pipeValid, pipeData);
      pipeValid, pipeData := ShiftStages(pipeValid, pipeData, take, fetch, main.Front());
      if fetch {
        main.Advance();
      }
    }

    /** The output register takes the oldest word of the output FIFO. */
    method LoadOutput(ready: bool) returns (valid: bool, word: Beat)
      requires output.Valid() && output.pending == []
      modifies output
      ensures output.Valid() && output.pending == []
      ensures
        var queue := old(output.committed);
        if queue != [] && (!outValid || ready) then
          output.committed == queue[1..] && valid && word == queue[0]
        else
          output.committed == queue && valid == (outValid && !ready) && word == outData
    {
      valid, word := outValid && !ready, outData;
      if !output.Empty() && (!outValid || ready) {
        word := output.Front();
        valid := true;
        output.Advance();
      }
    }

    method PushOutput(word: Beat)
      requires output.Valid() && output.pending == [] && |output.committed| < output.size
      modifies output, output.mem
      ensures output.Valid() && output.pending == []
      ensures output.committed == old(output.committed) + [word]
    {
      output.Store(word);
      output.Commit();
    }

    /** One clock of the output FIFO, fed by the last pipeline stage. */
    method OutputProcess(topValid: bool, top: Beat, ready: bool)
      returns (halfFull: bool, valid: bool, word: Beat)
      requires output.Valid() && output.pending == []
      modifies output, output.mem
      ensures output.Valid() && output.pending == []
      ensures
        var queue := old(output.committed);
        var load := queue != [] && (!outValid || ready);
        && output.committed == (if load then queue[1..] else queue)
                               + (if |queue| != output.size && topValid then [top] else [])
        && valid == (load || (outValid && !ready))
        && word == (if load then queue[0] else outData)
        && halfFull == (|queue| >= cfg.halfDepth)
    {
      var full := output.Full();
      halfFull := output.Count() >= cfg.halfDepth;
      valid, word := LoadOutput(ready);
      if !full && topValid {
        PushOutput(top);
      }
    }

    method OutputSide(ready: bool)
      requires main != output && output.Valid() && output.pending == [] && output.size == cfg.OutputDepth()
      requires cfg.outputFifo && |pipeValid| == |pipeData| == cfg.ramPipeline + 1
      modifies output, output.mem, this`outHalfFull, this`outValid, this`outData
      ensures output.Valid() && output.pending == []
      ensures Abs() == AfterOutput(cfg, old(Abs()), ready)
    {
      assert Top(Abs()) == if pipeValid[cfg.ramPipeline] then Some(pipeData[cfg.ramPipeline]) else None;
      outHalfFull, outValid, outData := OutputProcess(pipeValid[cfg.ramPipeline], pipeData[cfg.ramPipeline], ready);
    }

    method ReadSide(ready: bool, pipeReady: bool, ghost s: State)
      requires main != output && main.Valid() && |pipeValid| == |pipeData| == cfg.ramPipeline + 1
      requires s.pipe == Stages(pipeValid, pipeData) && s.committed == main.committed
      requires pipeReady == (cfg.outputFifo ==> !s.halfFull)
      modifies main`rdPtr, main`committed, this`pipeValid, this`pipeData
      ensures main.Valid() && |pipeValid| == |pipeData| == cfg.ramPipeline + 1
      ensures Abs() == AfterRead(cfg, s, ready, old(Abs()))
    {
      ReadProcess(cfg.outputFifo || ready, pipeReady);
    }

    /** The write process in frame mode, sampling s, the state before the clock. */
    method WriteFrameSide(i: Input, full: bool, fullFrame: bool, ready: bool, ghost s: State)
      requires main != output && main.Valid() && Samples(s) && cfg.frameFifo && |pipeValid| == |pipeData|
      requires full == Full(cfg, s) && fullFrame == FullFrame(cfg, s) && ready == InputReady(cfg, s)
      modifies main, main.mem, this`sFrame, this`dropFrame, this`sendFrame, this`status
      ensures main.Valid()
      ensures Abs() == AfterWrite(cfg, s, i, old(Abs()))
      ensures status == Write(cfg, s, i).pulses
    {
      hide WriteFrame, InputReady, FullFrame, Full;
      dropFrame, sendFrame, status := WriteFrameProcess(i, full, fullFrame, ready, s);
      sFrame := if ready && i.valid then !i.beat.last else sFrame;
    }

    /** The write process outside frame mode. */
    method WriteStreamSide(i: Input, full: bool, ready: bool, ghost s: State)
      requires main != output && main.Valid() && Samples(s) && !cfg.frameFifo && |pipeValid| == |pipeData|
      requires full == Full(cfg, s) && ready == InputReady(cfg, s)
      modifies main, main.mem, this`sFrame, this`dropFrame, this`markFrame, this`status
      ensures main.Valid()
      ensures Abs() == AfterWrite(cfg, s, i, old(Abs()))
      ensures status == Write(cfg, s, i).pulses
    {
      hide WriteStream, InputReady, Full;
      dropFrame, markFrame, status := WriteStreamProcess(i, full, ready, s);
      sFrame := if ready && i.valid then !i.beat.last else sFrame;
    }

    /** One clock edge. The processes sample the registers as they were before it. */
    method Clock(i: Input)
      requires Valid()
      modifies this, main, main.mem, output, output.mem
      ensures Valid()
      ensures Abs() == Step(cfg, old(Abs()), i)
      ensures status == Write(cfg, old(Abs()), i).pulses
    {
      hide Write, NextQueue, NextOutput, NextPipe;
      ghost var s := Abs();
      var full, fullFrame, ready := main.Full(), main.FullFrame(), SReady();
      var pipeReady := !cfg.outputFifo || !outHalfFull;
      if cfg.outputFifo {
        OutputSide(i.ready);
      } else {
        NoOutputFifo(cfg, s, i.ready);
      }
      ReadSide(i.ready, pipeReady, s);
      if cfg.frameFifo {
        WriteFrameSide(i, full, fullFrame, ready, s);
      } else {
        WriteStreamSide(i, full, ready, s);
      }
    }
  }

  function Stages(valid: seq<bool>, data: seq<Beat>): seq<Option<Beat>>
    requires |valid| == |data|
  {
    seq(|valid|, j requires 0 <= j < |valid| => if valid[j] then Some(data[j]) else None)
  }

  /** What stage j holds after a clock, read off the valid bits. */
  ghost function Loaded(valid: seq<bool>, data: seq<Beat>, take: bool, head: Option<Beat>, j: nat): Option<Beat>
    requires |valid| == |data| && j < |valid|
  {
    if !take && forall k :: j <= k < |valid| ==> valid[k] then Stages(valid, data)[j]
    else if j == 0 then head
    else Stages(valid, data)[j - 1]
  }

  lemma LoadedIsShift(valid: seq<bool>, data: seq<Beat>, take: bool, head: Option<Beat>, stages: seq<Option<Beat>>)
    requires |valid| == |data| == |stages|
    requires forall j :: 0 <= j < |valid| ==> stages[j] == Loaded(valid, data, take, head, j)
    ensures stages == Shift(Stages(valid, data), take, head)
  {
    forall j | 0 <= j < |valid|
      ensures stages[j] == Shift(Stages(valid, data), take, head)[j]
    {
      StageEmpty(valid, data, j);
      ShiftAt(Stages(valid, data), take, head, j);
    }
  }

  /** The pipeline registers of one clock: the loop runs from the output towards
      the memory, and every right-hand side is a value from before the clock. */
  method ShiftStages(valid: seq<bool>, data: seq<Beat>, take: bool, fetch: bool, word: Beat)
    returns (valid': seq<bool>, data': seq<Beat>)
    requires |valid| == |data| > 0
    ensures |valid'| == |data'| == |valid|
    ensures Stages(valid', data') == Shift(Stages(valid, data), take, if fetch then Some(word) else None)
  {
    var n := |valid|;
    ghost var head := if fetch then Some(word) else None;
    valid', data' := valid, data;
    if take {
      valid' := valid'[n - 1 := false];
    }
    var j := n - 1;
    while j > 0
      invariant 0 <= j < n
      invariant |valid'| == |data'| == n
      invariant forall k :: 0 <= k < j ==> valid'[k] == valid[k]
      invariant forall k :: 0 <= k <= j ==> data'[k] == data[k]
      invariant valid'[j] == valid[j] || take || exists k :: j < k < n && !valid[k]
      invariant forall k :: j < k < n ==> Stages(valid', data')[k] == Loaded(valid, data, take, head, k)
    {
      if take || exists k :: j <= k < n && !valid[k] {
        valid' := valid'[j := valid[j - 1]];
        data' := data'[j := data[j - 1]];
        valid' := valid'[j - 1 := false];
      }
      j := j - 1;
    }
    if take || exists k :: 0 <= k < n && !valid[k] {
      data' := data'[0 := word];
      valid' := valid'[0 := fetch];
    }
    LoadedIsShift(valid, data, take, head, Stages(valid', data'));
  }

  /** A bubble at or above stage j, in the bits and in the stages. */
  lemma StageEmpty(valid: seq<bool>, data: seq<Beat>, j: nat)
    requires |valid| == |data| && j < |valid|
    ensures None in Stages(valid, data)[j..] <==> exists k :: j <= k < |valid| && !valid[k]
  {
    var tail := Stages(valid, data)[j..];
    if k :| j <= k < |valid| && !valid[k] {
      assert tail[k - j] == None;
    }
  }
}
