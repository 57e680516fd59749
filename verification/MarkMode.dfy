/** Stream mode with MARK_WHEN_FULL: s_axis_tready never drops, and a frame that
    does not fit is either lost whole or cut and closed by one bad last beat. */
module MarkMode {
  import opened Common
  import opened StreamFifo
  import opened OutputFifo
  import opened FrameMode

  predicate Marking(cfg: Config) {
    cfg.Valid() && cfg.markWhenFull && cfg.ramPipeline + 2 < cfg.halfDepth
  }

  /** One closed stretch of the stored stream: input frame `frame` in full, or
      its first `kept` beats followed by a closing beat that is marked bad. */
  datatype Segment =
    | Whole(frame: nat)
    | Cut(frame: nat, kept: nat, closing: Beat)

  predicate Fitting(frames: seq<seq<Beat>>, g: Segment) {
    && g.frame < |frames|
    && (g.Cut? ==> 0 < g.kept < |frames[g.frame]| && g.closing.last && g.closing.bad)
  }

  function Beats(frames: seq<seq<Beat>>, g: Segment): seq<Beat>
    requires Fitting(frames, g)
  {
    match g
    case Whole(f) => frames[f]
    case Cut(f, kept, closing) => frames[f][..kept] + [closing]
  }

  /** Segments of strictly later frames follow each other; none is repeated. */
  predicate Ordered(frames: seq<seq<Beat>>, segments: seq<Segment>) {
    && (forall k :: 0 <= k < |segments| ==> Fitting(frames, segments[k]))
    && (forall k :: 0 < k < |segments| ==> segments[k - 1].frame < segments[k].frame)
  }

  function Stream(frames: seq<seq<Beat>>, segments: seq<Segment>): seq<Beat>
    requires Ordered(frames, segments)
  {
    if segments == [] then []
    else
      var n := |segments| - 1;
      Stream(frames, segments[..n]) + Beats(frames, segments[n])
  }

  function WholeCount(segments: seq<Segment>): nat {
    if segments == [] then 0
    else
      var n := |segments| - 1;
      WholeCount(segments[..n]) + (if segments[n].Whole? then 1 else 0)
  }

  /** The unclosed end of the stored stream: a proper prefix of frame `frame`. */
  datatype Tail = Tail(frame: nat, kept: nat)

  /** All frames seen so far, the one in progress last. */
  function Seen(log: Log): seq<seq<Beat>> {
    log.frames + [log.partial]
  }

  function TailBeats(log: Log, tail: Tail): seq<Beat>
    requires tail.frame <= |log.frames| && tail.kept <= |Seen(log)[tail.frame]|
  {
    Seen(log)[tail.frame][..tail.kept]
  }

  /** What the flags say about the unclosed end: while marking it is a nonempty
      proper prefix of a frame that overflowed; otherwise it is the frame in
      progress, or nothing while that frame is dropped from its first beat. */
  ghost predicate TailFits(s: State, log: Log, tail: Tail) {
    && tail.frame <= |log.frames|
    && tail.kept <= |Seen(log)[tail.frame]|
    && (s.mark ==> 0 < tail.kept < |Seen(log)[tail.frame]| && (tail.frame == |log.frames| ==> s.drop))
    && (!s.mark ==> tail.frame == |log.frames| && tail.kept == if s.drop then 0 else |log.partial|)
  }

  ghost predicate Parses(s: State, log: Log, stored: seq<Beat>, segments: seq<Segment>, tail: Tail) {
    && TailFits(s, log, tail)
    && Ordered(log.frames, segments)
    && (forall k :: 0 <= k < |segments| ==> segments[k].frame < tail.frame)
    && stored == Stream(log.frames, segments) + TailBeats(log, tail)
    && |log.verdicts| + WholeCount(segments) == |log.frames|
  }

  ghost predicate Flags(cfg: Config, s: State, log: Log) {
    && s.pending == []
    && |s.committed| <= cfg.depth
    && (s.inFrame <==> log.partial != [])
    && (s.drop ==> s.inFrame)
    && (s.mark && !s.drop ==> !s.inFrame)
  }

  lemma FlagsKept(cfg: Config, s: State, i: Input, log: Log)
    requires Marking(cfg) && Flags(cfg, s, log)
    ensures Flags(cfg, Step(cfg, s, i), Observe(cfg, s, i, log))
  {
  }

  lemma {:induction false} StreamExtends(frames: seq<seq<Beat>>, more: seq<seq<Beat>>, segments: seq<Segment>)
    requires Ordered(frames, segments)
    ensures Ordered(frames + more, segments)
    ensures Stream(frames + more, segments) == Stream(frames, segments)
  {
    assert forall k :: 0 <= k < |segments| ==> Fitting(frames, segments[k]) ==> Fitting(frames + more, segments[k]);
    if segments != [] {
      StreamExtends(frames, more, segments[..|segments| - 1]);
    }
  }

  lemma StreamAppend(frames: seq<seq<Beat>>, segments: seq<Segment>, g: Segment)
    requires Ordered(frames, segments) && Fitting(frames, g)
    requires forall k :: 0 <= k < |segments| ==> segments[k].frame < g.frame
    ensures Ordered(frames, segments + [g])
    ensures Stream(frames, segments + [g]) == Stream(frames, segments) + Beats(frames, g)
    ensures WholeCount(segments + [g]) == WholeCount(segments) + (if g.Whole? then 1 else 0)
  {
    assert (segments + [g])[..|segments|] == segments;
  }

  function NextTail(cfg: Config, s: State, i: Input, log: Log, tail: Tail): Tail {
    var w := Write(cfg, s, i);
    var log' := Observe(cfg, s, i, log);
    if w.mark then tail
    else Tail(|log'.frames|, if w.drop then 0 else |log'.partial|)
  }

  lemma TailKept(cfg: Config, s: State, i: Input, log: Log, tail: Tail)
    requires Marking(cfg) && Flags(cfg, s, log) && TailFits(s, log, tail)
    ensures TailFits(Step(cfg, s, i), Observe(cfg, s, i, log), NextTail(cfg, s, i, log, tail))
    ensures tail.frame < |Seen(Observe(cfg, s, i, log))|
    ensures tail.kept <= |Seen(Observe(cfg, s, i, log))[tail.frame]|
    ensures Seen(Observe(cfg, s, i, log))[tail.frame][..tail.kept] == TailBeats(log, tail)
  {
  }

  /** The frames complete after the clock still read the old segments alike. */
  lemma FramesGrow(cfg: Config, s: State, i: Input, log: Log, segments: seq<Segment>)
    requires Ordered(log.frames, segments)
    ensures Ordered(Observe(cfg, s, i, log).frames, segments)
    ensures Stream(Observe(cfg, s, i, log).frames, segments) == Stream(log.frames, segments)
  {
    StreamExtends(log.frames, [log.partial + [i.beat]], segments);
  }

  /** The segment a clock closes, if any. */
  function Closing(cfg: Config, s: State, i: Input, log: Log, tail: Tail): seq<Segment> {
    var w := Write(cfg, s, i);
    if w.commit == [] then []
    else if s.mark then [Cut(tail.frame, tail.kept, w.commit[0])]
    else if i.beat.last then [Whole(|log.frames|)]
    else []
  }

  /** The parse before and after a clock that commits `commit`: either the tail
      takes it, or it closes one segment that starts at the tail. */
  ghost predicate Extends(log: Log, log': Log, commit: seq<Beat>, added: seq<Segment>, tail: Tail, tail': Tail) {
    && tail.frame <= |log.frames| && tail.kept <= |Seen(log)[tail.frame]|
    && tail'.frame <= |log'.frames| && tail'.kept <= |Seen(log')[tail'.frame]|
    && tail.frame <= tail'.frame
    && match |added|
       case 0 =>
         && TailBeats(log', tail') == TailBeats(log, tail) + commit
         && |log'.verdicts| - |log.verdicts| == |log'.frames| - |log.frames|
       case 1 =>
         && Fitting(log'.frames, added[0])
         && tail.frame == added[0].frame < tail'.frame
         && Beats(log'.frames, added[0]) + TailBeats(log', tail') == TailBeats(log, tail) + commit
         && |log'.verdicts| - |log.verdicts| + (if added[0].Whole? then 1 else 0) == |log'.frames| - |log.frames|
       case _ => false
  }

  /** A clock that closes no segment: the tail takes what is committed. */
  lemma TailTakes(cfg: Config, s: State, i: Input, log: Log, tail: Tail)
    requires Marking(cfg) && Flags(cfg, s, log) && TailFits(s, log, tail)
    requires Closing(cfg, s, i, log, tail) == []
    ensures
      var log', tail' := Observe(cfg, s, i, log), NextTail(cfg, s, i, log, tail);
      && tail'.frame <= |log'.frames| && tail'.kept <= |Seen(log')[tail'.frame]|
      && TailBeats(log', tail') == TailBeats(log, tail) + Write(cfg, s, i).commit
  {
    TailKept(cfg, s, i, log, tail);
    var w := Write(cfg, s, i);
    assert w.commit == [] || w.commit == [i.beat];
    assert TailBeats(log, tail) + [] == TailBeats(log, tail);
  }

  /** And a frame that ends in it pulses overflow. */
  lemma TailCounts(cfg: Config, s: State, i: Input, log: Log, tail: Tail)
    requires Marking(cfg) && Flags(cfg, s, log) && TailFits(s, log, tail)
    requires Closing(cfg, s, i, log, tail) == []
    ensures
      var log', tail' := Observe(cfg, s, i, log), NextTail(cfg, s, i, log, tail);
      tail.frame <= tail'.frame && |log'.verdicts| - |log.verdicts| == |log'.frames| - |log.frames|
  {
    hide Seen;
  }

  lemma TailGrows(cfg: Config, s: State, i: Input, log: Log, tail: Tail)
    requires Marking(cfg) && Flags(cfg, s, log) && TailFits(s, log, tail)
    requires Closing(cfg, s, i, log, tail) == []
    ensures Extends(log, Observe(cfg, s, i, log), Write(cfg, s, i).commit, [], tail, NextTail(cfg, s, i, log, tail))
  {
    TailTakes(cfg, s, i, log, tail);
    TailCounts(cfg, s, i, log, tail);
    hide Write, Observe, NextTail, TailBeats, Seen, Closing, Flags;
  }

  lemma ClosedBeats(cfg: Config, s: State, i: Input, log: Log, tail: Tail, g: Segment)
    requires Marking(cfg) && Flags(cfg, s, log) && TailFits(s, log, tail)
    requires Closing(cfg, s, i, log, tail) == [g]
    ensures
      var log', tail' := Observe(cfg, s, i, log), NextTail(cfg, s, i, log, tail);
      && Fitting(log'.frames, g) && tail.frame == g.frame < tail'.frame <= |log'.frames| && tail'.kept == 0
      && Beats(log'.frames, g) == TailBeats(log, tail) + Write(cfg, s, i).commit
  {
    TailKept(cfg, s, i, log, tail);
    hide Step;
  }

  lemma ClosedCounts(cfg: Config, s: State, i: Input, log: Log, tail: Tail, g: Segment)
    requires Marking(cfg) && Flags(cfg, s, log) && TailFits(s, log, tail)
    requires Closing(cfg, s, i, log, tail) == [g]
    ensures
      var log' := Observe(cfg, s, i, log);
      |log'.verdicts| - |log.verdicts| + (if g.Whole? then 1 else 0) == |log'.frames| - |log.frames|
  {
    hide Seen;
  }

  lemma SegmentCloses(cfg: Config, s: State, i: Input, log: Log, tail: Tail, g: Segment)
    requires Marking(cfg) && Flags(cfg, s, log) && TailFits(s, log, tail)
    requires Closing(cfg, s, i, log, tail) == [g]
    ensures Extends(log, Observe(cfg, s, i, log), Write(cfg, s, i).commit, [g], tail, NextTail(cfg, s, i, log, tail))
  {
    ClosedBeats(cfg, s, i, log, tail, g);
    ClosedCounts(cfg, s, i, log, tail, g);
    hide Write, Observe, NextTail, Closing, Flags, Beats;
  }

  /** The stream and the parse grow together. */
  lemma StreamGrows(log: Log, log': Log, stored: seq<Beat>, commit: seq<Beat>,
                    segments: seq<Segment>, added: seq<Segment>, tail: Tail, tail': Tail)
    requires Extends(log, log', commit, added, tail, tail')
    requires Ordered(log.frames, segments) && Ordered(log'.frames, segments)
    requires forall k :: 0 <= k < |segments| ==> segments[k].frame < tail.frame
    requires Stream(log'.frames, segments) == Stream(log.frames, segments)
    requires stored == Stream(log.frames, segments) + TailBeats(log, tail)
    ensures Ordered(log'.frames, segments + added)
    ensures stored + commit == Stream(log'.frames, segments + added) + TailBeats(log', tail')
    ensures WholeCount(segments + added) == WholeCount(segments) + WholeCount(added)
  {
    Associate(Stream(log.frames, segments), TailBeats(log, tail), commit);
    if added == [] {
      assert segments + added == segments;
    } else {
      assert added == [added[0]] && WholeCount(added) == if added[0].Whole? then 1 else 0;
      StreamAppend(log'.frames, segments, added[0]);
      Associate(Stream(log.frames, segments), Beats(log'.frames, added[0]), TailBeats(log', tail'));
    }
  }

  lemma ParseKept(cfg: Config, s: State, i: Input, log: Log, stored: seq<Beat>, segments: seq<Segment>, tail: Tail)
    requires Marking(cfg) && Flags(cfg, s, log) && Parses(s, log, stored, segments, tail)
    ensures Parses(Step(cfg, s, i), Observe(cfg, s, i, log), stored + Write(cfg, s, i).commit,
                   segments + Closing(cfg, s, i, log, tail), NextTail(cfg, s, i, log, tail))
  {
    var log', tail' := Observe(cfg, s, i, log), NextTail(cfg, s, i, log, tail);
    var added := Closing(cfg, s, i, log, tail);
    TailKept(cfg, s, i, log, tail);
    if added == [] {
      TailGrows(cfg, s, i, log, tail);
    } else {
      SegmentCloses(cfg, s, i, log, tail, added[0]);
    }
    FramesGrow(cfg, s, i, log, segments);
    StreamGrows(log, log', stored, Write(cfg, s, i).commit, segments, added, tail, tail');
  }

  // Which frames are stored whole

  /** The flag says that the frame in progress has met a shortage, and exactly the
      frames that have met none are segments in full. */
  ghost predicate Sorted(s: State, segments: seq<Segment>, short: Shortage) {
    && (s.drop <==> short.open)
    && forall k :: 0 <= k < |short.complete| ==> (Whole(k) in segments <==> !short.complete[k])
  }

  lemma SortedKept(cfg: Config, s: State, i: Input, log: Log, segments: seq<Segment>, tail: Tail, short: Shortage)
    requires Marking(cfg) && Flags(cfg, s, log) && Sorted(s, segments, short)
    requires |short.complete| == |log.frames|
    requires forall k :: 0 <= k < |segments| ==> segments[k].frame < |log.frames|
    ensures
      var short' := NextShortage(cfg, s, i, short);
      && Sorted(Step(cfg, s, i), segments + Closing(cfg, s, i, log, tail), short')
      && |short'.complete| == |Observe(cfg, s, i, log).frames|
  {
    hide NextPipe, NextQueue, NextOutput, Rest;
    var added, short' := Closing(cfg, s, i, log, tail), NextShortage(cfg, s, i, short);
    assert Whole(|log.frames|) !in segments;
    ClosesWhole(cfg, s, i, log, tail, short.open);
    hide Closing, Write;
    forall k | 0 <= k < |short'.complete|
      ensures Whole(k) in segments + added <==> !short'.complete[k]
    {
    }
  }

  /** A clock closes a whole frame exactly if it accepts a last beat for which there is
      room, as there was for all beats before it. */
  lemma ClosesWhole(cfg: Config, s: State, i: Input, log: Log, tail: Tail, open: bool)
    requires Marking(cfg) && Flags(cfg, s, log) && (s.drop <==> open)
    ensures
      var closing := Closing(cfg, s, i, log, tail);
      var ends := Accepts(cfg, s, i) && i.beat.last;
      && (forall k: nat :: Whole(k) in closing <==> ends && !open && !NoRoom(cfg, s) && k == |log.frames|)
      && Verdicts(Write(cfg, s, i).pulses) == (if ends && (open || NoRoom(cfg, s)) then [Overflow] else [])
      && (Write(cfg, s, i).drop <==> NextShortage(cfg, s, i, Shortage([], open)).open)
  {
  }

  lemma {:induction false} RunSorts(cfg: Config, inputs: seq<Input>) returns (segments: seq<Segment>, tail: Tail)
    requires Marking(cfg)
    ensures
      var t := Run(cfg, inputs);
      && Bounded(cfg, t.state) && Flags(cfg, t.state, t.log)
      && Parses(t.state, t.log, StoredStream(t), segments, tail)
      && Sorted(t.state, segments, Shortages(cfg, inputs))
      && |Shortages(cfg, inputs).complete| == |t.log.frames|
  {
    if inputs == [] {
      segments, tail := [], Tail(0, 0);
      ParsesAtStart(cfg);
    } else {
      var n := |inputs| - 1;
      var t := Run(cfg, inputs[..n]);
      segments, tail := RunSorts(cfg, inputs[..n]);
      assert forall k :: 0 <= k < |segments| ==> segments[k].frame < |t.log.frames|;
      hide Bounded, Flags, Parses, StoredStream, Closing, NextTail, Step, Observe, Write, Sorted, NextShortage;
      BoundKept(cfg, t.state, inputs[n]);
      FlagsKept(cfg, t.state, inputs[n], t.log);
      StreamConserved(cfg, t, inputs[n]);
      ParseKept(cfg, t.state, inputs[n], t.log, StoredStream(t), segments, tail);
      SortedKept(cfg, t.state, inputs[n], t.log, segments, tail, Shortages(cfg, inputs[..n]));
      segments, tail := segments + Closing(cfg, t.state, inputs[n], t.log, tail),
                        NextTail(cfg, t.state, inputs[n], t.log, tail);
    }
  }

  /** Which frames are stored whole: exactly those that met no shortage, that is, whose
      beats all came while the memory had room and no mark was pending. */
  lemma WholeExactlyWithRoom(cfg: Config, inputs: seq<Input>) returns (segments: seq<Segment>, tail: Tail)
    requires cfg.Valid() && cfg.markWhenFull && cfg.Sized()
    ensures
      var t, short := Run(cfg, inputs), Shortages(cfg, inputs);
      && Parses(t.state, t.log, StoredStream(t), segments, tail)
      && |short.complete| == |t.log.frames|
      && forall k :: 0 <= k < |t.log.frames| ==> (Whole(k) in segments <==> !short.complete[k])
  {
    SizingSuffices(cfg);
    segments, tail := RunSorts(cfg, inputs);
  }

  /** The last beat of a frame pulses overflow exactly if the frame met a shortage. */
  lemma PulsesExactly(cfg: Config, inputs: seq<Input>, i: Input)
    requires cfg.Valid() && cfg.markWhenFull && cfg.Sized()
    ensures
      var s, short := Run(cfg, inputs).state, Shortages(cfg, inputs);
      && Accepts(cfg, s, i) == i.valid
      && Verdicts(Write(cfg, s, i).pulses)
         == if i.valid && i.beat.last && (short.open || NoRoom(cfg, s)) then [Overflow] else []
  {
    SizingSuffices(cfg);
    var segments, tail := RunSorts(cfg, inputs);
    hide Run;
    ClosesWhole(cfg, Run(cfg, inputs).state, i, Run(cfg, inputs).log, tail, Shortages(cfg, inputs).open);
    hide Write;
  }

  lemma RunStarts(cfg: Config)
    ensures
      var t := Run(cfg, []);
      t.state == Initial(cfg) && t.log == Log([], [], [], []) && StoredStream(t) == []
  {
    EmptyPipe(cfg.ramPipeline + 1);
  }

  lemma ParsesAtStart(cfg: Config)
    requires Marking(cfg)
    ensures
      var t := Run(cfg, []);
      Bounded(cfg, t.state) && Flags(cfg, t.state, t.log) && Parses(t.state, t.log, StoredStream(t), [], Tail(0, 0))
  {
    hide Run, StoredStream, PipeBeats;
    RunStarts(cfg);
    EmptyPipe(cfg.ramPipeline + 1);
    assert Stream([], []) == [] && WholeCount([]) == 0;
    assert Seen(Run(cfg, []).log) == [[]];
  }

  /** Main result: in every run the stored stream is a sequence of whole input
      frames and of cut frames closed by a bad last beat, in input order, then
      an unclosed end; and s_axis_tready is never low. There are as many overflow
      pulses as complete input frames that are not stored whole. */
  lemma FramingSurvivesOverflow(cfg: Config, inputs: seq<Input>)
    requires cfg.Valid() && cfg.markWhenFull && cfg.Sized()
    ensures
      var t := Run(cfg, inputs);
      && InputReady(cfg, t.state)
      && exists segments, tail :: Parses(t.state, t.log, StoredStream(t), segments, tail)
  {
    SizingSuffices(cfg);
    var segments, tail := RunSorts(cfg, inputs);
  }

  /** With neither dropping nor marking configured, nothing is lost: what was
      accepted is what leaves, in order. */
  lemma {:induction false} Lossless(cfg: Config, inputs: seq<Input>)
    requires cfg.ramPipeline + 2 < cfg.halfDepth
    requires cfg.Valid() && !cfg.dropOversize && !cfg.markWhenFull
    ensures
      var t := Run(cfg, inputs);
      && Bounded(cfg, t.state)
      && !t.state.mark && !t.state.drop
      && |t.state.committed| + |t.state.pending| <= cfg.depth
      && StoredStream(t) + t.state.pending == Accepted(cfg, inputs)
  {
    if inputs == [] {
      EmptyPipe(cfg.ramPipeline + 1);
    } else {
      var n := |inputs| - 1;
      Lossless(cfg, inputs[..n]);
      var t, i := Run(cfg, inputs[..n]), inputs[n];
      BoundKept(cfg, t.state, i);
      StreamConserved(cfg, t, i);
      LosslessClock(cfg, t.state, i);
      var w := Write(cfg, t.state, i);
      Associate(StoredStream(t), w.commit, w.pending);
      Associate(StoredStream(t), t.state.pending, if Accepts(cfg, t.state, i) then [i.beat] else []);
    }
  }

  lemma LosslessClock(cfg: Config, s: State, i: Input)
    requires cfg.Valid() && !cfg.dropOversize && !cfg.markWhenFull
    requires !s.mark && !s.drop && |s.committed| + |s.pending| <= cfg.depth
    ensures
      var w, s' := Write(cfg, s, i), Step(cfg, s, i);
      && !w.mark && !w.drop
      && |s'.committed| + |s'.pending| <= cfg.depth
      && w.commit + w.pending == s.pending + (if Accepts(cfg, s, i) then [i.beat] else [])
  {
    assert Stored(s, i.beat) == i.beat;
  }

  function Accepted(cfg: Config, inputs: seq<Input>): seq<Beat> {
    if inputs == [] then []
    else
      var n := |inputs| - 1;
      Accepted(cfg, inputs[..n])
      + (if Accepts(cfg, Run(cfg, inputs[..n]).state, inputs[n]) then [inputs[n].beat] else [])
  }
}
