/** Frame mode with DROP_OVERSIZE_FRAME: every input frame leaves whole and in
    order, or not at all, and gets exactly one verdict. */
module FrameMode {
  import opened Common
  import opened StreamFifo
  import opened OutputFifo

  predicate Applies(cfg: Config) {
    cfg.Valid() && cfg.dropOversize && cfg.ramPipeline + 2 < cfg.halfDepth
  }

  /** The frames that pulsed good_frame, one after the other. */
  function GoodBeats(frames: seq<seq<Beat>>, verdicts: seq<Verdict>): seq<Beat>
    requires |frames| == |verdicts|
  {
    if frames == [] then []
    else
      var n := |frames| - 1;
      GoodBeats(frames[..n], verdicts[..n]) + (if verdicts[n] == Good then frames[n] else [])
  }

  /** A closed frame: its last beat, and no other, carries tlast. */
  predicate IsFrame(f: seq<Beat>) {
    f != [] && f[|f| - 1].last && IsOpen(f[..|f| - 1])
  }

  predicate IsOpen(f: seq<Beat>) {
    forall k :: 0 <= k < |f| ==> !f[k].last
  }

  /** What a frame's verdict says about the frame. */
  predicate Fits(cfg: Config, f: seq<Beat>, v: Verdict)
    requires f != []
  {
    match v
    case Good => |f| <= cfg.depth && !(cfg.dropBad && f[|f| - 1].bad)
    case Bad => |f| <= cfg.depth && cfg.dropBad && f[|f| - 1].bad
    case Overflow => cfg.dropWhenFull || |f| > cfg.depth
  }

  predicate Closed(s: seq<Beat>) {
    s == [] || s[|s| - 1].last
  }

  ghost predicate WriteInv(cfg: Config, s: State, log: Log) {
    Coherent(cfg, s.committed, s.pending, s.mark, s.drop, log.partial)
  }

  /** The write registers against the frame in progress: they hold it in full
      unless it is being dropped, and then there was a reason to. */
  ghost predicate Coherent(cfg: Config, committed: seq<Beat>, pending: seq<Beat>, mark: bool, drop: bool,
                           partial: seq<Beat>) {
    && !mark
    && |committed| + |pending| <= cfg.depth
    && Closed(committed)
    && IsOpen(partial)
    && (!drop ==> pending == partial)
    && (drop ==> partial != [] && (cfg.dropWhenFull || |partial| > cfg.depth == |pending|))
  }

  ghost predicate LogInv(cfg: Config, log: Log, stored: seq<Beat>) {
    && |log.frames| == |log.verdicts|
    && (forall k :: 0 <= k < |log.frames| ==> IsFrame(log.frames[k]))
    && (forall k :: 0 <= k < |log.frames| ==> log.frames[k] != [] && Fits(cfg, log.frames[k], log.verdicts[k]))
    && stored == GoodBeats(log.frames, log.verdicts)
  }

  ghost predicate Inv(cfg: Config, t: Trace) {
    Bounded(cfg, t.state) && WriteInv(cfg, t.state, t.log) && LogInv(cfg, t.log, StoredStream(t))
  }

  /** A frame that ends gets exactly one verdict, which fits it, and its beats are
      committed exactly when the verdict is good; nothing else is ever committed. */
  lemma VerdictOfFrame(cfg: Config, s: State, i: Input, log: Log) returns (v: Verdict)
    requires Applies(cfg) && WriteInv(cfg, s, log)
    ensures
      var w := WriteFrame(cfg, s, i);
      var f := log.partial + [i.beat];
      if Accepts(cfg, s, i) && i.beat.last then
        Verdicts(w.pulses) == [v] && Fits(cfg, f, v) && w.commit == if v == Good then f else []
      else
        Verdicts(w.pulses) == [] && w.commit == []
  {
    var w := WriteFrame(cfg, s, i);
    assert Stored(s, i.beat) == i.beat;
    v := if w.pulses.good then Good else if w.pulses.bad then Bad else Overflow;
  }

  /** The registers after a clock stand for the frame in progress after it. */
  lemma RegistersKept(cfg: Config, s: State, i: Input, log: Log)
    requires Applies(cfg) && WriteInv(cfg, s, log)
    ensures
      var w := Write(cfg, s, i);
      Coherent(cfg, Rest(cfg, s, i.ready) + w.commit, w.pending, w.mark, w.drop, Observe(cfg, s, i, log).partial)
  {
    var w := WriteFrame(cfg, s, i);
    assert Stored(s, i.beat) == i.beat;
    assert Closed(Rest(cfg, s, i.ready)) && |Rest(cfg, s, i.ready)| <= |s.committed|;
    assert Closed(w.commit);
  }

  lemma WriteKept(cfg: Config, s: State, i: Input, log: Log)
    requires Applies(cfg) && WriteInv(cfg, s, log)
    ensures WriteInv(cfg, Step(cfg, s, i), Observe(cfg, s, i, log))
  {
    RegistersKept(cfg, s, i, log);
  }

  lemma GoodBeatsAppend(frames: seq<seq<Beat>>, verdicts: seq<Verdict>, f: seq<Beat>, v: Verdict)
    requires |frames| == |verdicts|
    ensures GoodBeats(frames + [f], verdicts + [v])
            == GoodBeats(frames, verdicts) + (if v == Good then f else [])
  {
    assert (frames + [f])[..|frames|] == frames && (verdicts + [v])[..|frames|] == verdicts;
  }

  lemma LogGrows(cfg: Config, log: Log, log': Log, stored: seq<Beat>, f: seq<Beat>, v: Verdict)
    requires LogInv(cfg, log, stored) && IsFrame(f) && Fits(cfg, f, v)
    requires log'.frames == log.frames + [f] && log'.verdicts == log.verdicts + [v]
    ensures LogInv(cfg, log', stored + if v == Good then f else [])
  {
    GoodBeatsAppend(log.frames, log.verdicts, f, v);
  }

  lemma LogKept(cfg: Config, t: Trace, i: Input)
    requires Applies(cfg) && Inv(cfg, t)
    ensures LogInv(cfg, Observe(cfg, t.state, i, t.log), StoredStream(t) + Write(cfg, t.state, i).commit)
  {
    var f := t.log.partial + [i.beat];
    var log' := Observe(cfg, t.state, i, t.log);
    var v := VerdictOfFrame(cfg, t.state, i, t.log);
    if Accepts(cfg, t.state, i) && i.beat.last {
      assert f[..|f| - 1] == t.log.partial;
      LogGrows(cfg, t.log, log', StoredStream(t), f, v);
    } else {
      assert log'.frames == t.log.frames && log'.verdicts == t.log.verdicts;
      assert StoredStream(t) + [] == StoredStream(t);
    }
  }

  lemma {:induction false} RunInv(cfg: Config, inputs: seq<Input>)
    requires Applies(cfg)
    ensures Inv(cfg, Run(cfg, inputs))
  {
    if inputs == [] {
      EmptyPipe(cfg.ramPipeline + 1);
    } else {
      var n := |inputs| - 1;
      RunInv(cfg, inputs[..n]);
      var t := Run(cfg, inputs[..n]);
      BoundKept(cfg, t.state, inputs[n]);
      WriteKept(cfg, t.state, inputs[n], t.log);
      LogKept(cfg, t, inputs[n]);
      StreamConserved(cfg, t, inputs[n]);
    }
  }

  /** Main result: for every interleaving of writes, stalls and reads, each
      complete input frame has exactly one verdict, and the output so far is a
      prefix of the good frames in order; what is missing is still inside. */
  lemma WholeFramesInOrderOrNotAtAll(cfg: Config, inputs: seq<Input>)
    requires cfg.Valid() && cfg.dropOversize && cfg.Sized()
    ensures
      var t := Run(cfg, inputs);
      && |t.log.verdicts| == |t.log.frames|
      && t.log.emitted <= GoodBeats(t.log.frames, t.log.verdicts)
      && GoodBeats(t.log.frames, t.log.verdicts) == StoredStream(t)
      && forall k :: 0 <= k < |t.log.frames| ==>
           && IsFrame(t.log.frames[k])
           && Fits(cfg, t.log.frames[k], t.log.verdicts[k])
  {
    SizingSuffices(cfg);
    RunInv(cfg, inputs);
  }

  // Which verdict a frame gets

  /** The verdict of a frame with or without a beat for which there was no room. */
  function VerdictOf(cfg: Config, f: seq<Beat>, short: bool): Verdict
    requires f != []
  {
    if short then Overflow else if cfg.dropBad && f[|f| - 1].bad then Bad else Good
  }

  ghost predicate Explained(cfg: Config, s: State, log: Log, short: Shortage) {
    && (s.drop <==> short.open)
    && |log.frames| == |log.verdicts| == |short.complete|
    && forall k :: 0 <= k < |log.frames| ==>
         log.frames[k] != [] && log.verdicts[k] == VerdictOf(cfg, log.frames[k], short.complete[k])
  }

  lemma ExplainsVerdict(cfg: Config, s: State, i: Input, f: seq<Beat>, open: bool)
    requires cfg.Valid() && cfg.dropOversize && (s.drop <==> open) && !s.mark
    requires |s.committed| + |s.pending| <= cfg.depth && f != [] && f[|f| - 1] == i.beat
    ensures
      var w, short := WriteFrame(cfg, s, i), open || NoRoom(cfg, s);
      if !Accepts(cfg, s, i) then w.drop == s.drop && Verdicts(w.pulses) == []
      else if i.beat.last then !w.drop && Verdicts(w.pulses) == [VerdictOf(cfg, f, short)]
      else w.drop == short && Verdicts(w.pulses) == []
  {
  }

  lemma ExplainedKept(cfg: Config, s: State, i: Input, log: Log, short: Shortage)
    requires Applies(cfg) && WriteInv(cfg, s, log) && Explained(cfg, s, log, short)
    ensures Explained(cfg, Step(cfg, s, i), Observe(cfg, s, i, log), NextShortage(cfg, s, i, short))
  {
    hide AfterRead, AfterOutput;
    ExplainsVerdict(cfg, s, i, log.partial + [i.beat], short.open);
    hide WriteFrame, Accepts, NoRoom;
  }

  /** A frame overflows exactly if one of its beats was accepted while the memory held
      its size in words; else it is bad exactly if bad frames are dropped and its last
      beat is marked so. */
  lemma {:induction false} OverflowExactly(cfg: Config, inputs: seq<Input>)
    requires cfg.Valid() && cfg.dropOversize && cfg.Sized()
    ensures
      var log, short := Run(cfg, inputs).log, Shortages(cfg, inputs);
      && |log.frames| == |log.verdicts| == |short.complete|
      && forall k :: 0 <= k < |log.frames| ==>
           log.frames[k] != [] && log.verdicts[k] == VerdictOf(cfg, log.frames[k], short.complete[k])
  {
    ExplainedAlways(cfg, inputs);
  }

  lemma {:induction false} ExplainedAlways(cfg: Config, inputs: seq<Input>)
    requires cfg.Valid() && cfg.dropOversize && cfg.Sized()
    ensures Explained(cfg, Run(cfg, inputs).state, Run(cfg, inputs).log, Shortages(cfg, inputs))
  {
    if inputs != [] {
      hide Explained, Step, Observe, NextShortage;
      var n := |inputs| - 1;
      ExplainedAlways(cfg, inputs[..n]);
      SizingSuffices(cfg);
      RunInv(cfg, inputs[..n]);
      var t := Run(cfg, inputs[..n]);
      ExplainedKept(cfg, t.state, inputs[n], t.log, Shortages(cfg, inputs[..n]));
    }
  }

  /** The verdict the frame alone determines when frames are not dropped for lack of room. */
  function Judged(cfg: Config, f: seq<Beat>): Verdict
    requires f != []
  {
    if |f| > cfg.depth then Overflow else if cfg.dropBad && f[|f| - 1].bad then Bad else Good
  }

  /** Without DROP_WHEN_FULL stalls and reads have no say in which frames survive:
      a frame is dropped as oversize exactly when it is longer than the memory. */
  lemma VerdictsIndependentOfTiming(cfg: Config, inputs: seq<Input>, k: nat)
    requires cfg.Valid() && cfg.dropOversize && cfg.Sized() && !cfg.dropWhenFull
    requires k < |Run(cfg, inputs).log.frames|
    ensures
      var log := Run(cfg, inputs).log;
      && k < |log.verdicts|
      && log.frames[k] != []
      && log.verdicts[k] == Judged(cfg, log.frames[k])
  {
    WholeFramesInOrderOrNotAtAll(cfg, inputs);
  }
}
