/** The read request path: channels ask the tree arbiter; a rising grant sends the
    granted channel's request through the pipelined multiplexer into a FIFO, from
    where it is transmitted and then acknowledged to the channel. */
module MrdReqMux {
  import opened Common
  import TreeArbiter
  import MuxPipeline
  import FifoCore

  datatype Config<P> = Config(channels: nat, selectWidth: nat, zero: P)

  /** A FIFO entry: the grant vector of the clock in which it was captured, and one
      channel's length, address and tag. */
  datatype Word<P> = Word(grant: seq<bool>, payload: P)

  datatype State<P> = State(
    nodes: seq<bool>, grant: seq<bool>, sel: nat,              // tree arbiter
    ackD: seq<bool>, weDelay: seq<bool>, stages: seq<seq<Word<P>>>,
    queue: seq<Word<P>>, dav: bool, rd: Word<P>,               // request FIFO
    fifoRe: bool, wait: bool, txReq: bool, tx: P, curr: seq<bool>, ack: seq<bool>)

  /** Request and payload of every channel, and the transmitter's done pulse. */
  datatype Inputs<P> = Inputs(req: seq<bool>, payload: seq<P>, txDone: bool)

  const FIFO_CAPACITY: nat := 63

  /** The arbiter's width: the number of channels rounded up to a power of two, at least 16. */
  function Rounded(channels: nat, width: nat): (r: nat)
    requires width > 0
    ensures channels <= r && width <= r
    decreases channels - width
  {
    if width < channels then Rounded(channels, 2 * width) else width
  }

  predicate ValidConfig<P>(cfg: Config<P>) {
    1 <= cfg.channels <= Pow2(MuxPipeline.LEVELS)
  }

  predicate Shaped<P>(cfg: Config<P>, st: State<P>) {
    && ValidConfig(cfg)
    && |st.nodes| == Rounded(cfg.channels, 16) - 1
    && |st.grant| == |st.ackD| == |st.ack| == cfg.channels
    && |st.weDelay| == MuxPipeline.LEVELS + 1 && MuxPipeline.Sized(st.stages)
  }

  predicate InputsFit<P>(cfg: Config<P>, st: State<P>, i: Inputs<P>) {
    |i.req| == |i.payload| == cfg.channels && (i.txDone ==> st.txReq)
  }

  /** bm_req: the unused leaves never ask. */
  function Padded(req: seq<bool>, width: nat): (r: seq<bool>)
    requires |req| <= width
    ensures |r| == width
  {
    req + seq(width - |req|, _ => false)
  }

  predicate Rises<P>(st: State<P>)
    requires |st.grant| == |st.ackD|
  {
    exists c :: 0 <= c < |st.grant| && st.grant[c] && !st.ackD[c]
  }

  function MuxInput<P>(cfg: Config<P>, grant: seq<bool>, payload: seq<P>): (r: seq<Word<P>>)
    requires |payload| == cfg.channels
    ensures |r| == Pow2(MuxPipeline.LEVELS)
  {
    seq(Pow2(MuxPipeline.LEVELS), c requires 0 <= c < Pow2(MuxPipeline.LEVELS) =>
      if c < cfg.channels then Word(grant, payload[c]) else Word(seq(cfg.channels, _ => false), cfg.zero))
  }

  predicate ArbiterStep<P>(cfg: Config<P>, st: State<P>, i: Inputs<P>, st': State<P>)
    requires Shaped(cfg, st) && |i.req| == cfg.channels
  {
    var req := Padded(i.req, Rounded(cfg.channels, 16));
    && st'.nodes == TreeArbiter.Next(st.nodes, req)
    && |st'.grant| == cfg.channels
    && (forall c :: 0 <= c < cfg.channels ==> st'.grant[c] == TreeArbiter.GrantsLeaf(st.nodes, req, true, c))
    && st'.sel == TreeArbiter.Chosen(st.nodes) % Pow2(cfg.selectWidth)
  }

  ghost predicate PipeStep<P>(cfg: Config<P>, st: State<P>, i: Inputs<P>, st': State<P>)
    requires Shaped(cfg, st) && |i.payload| == cfg.channels
  {
    && st'.ackD == st.grant
    && st'.weDelay == [Rises(st)] + st.weDelay[..MuxPipeline.LEVELS]
    && st'.stages == MuxPipeline.Next(st.stages, MuxInput(cfg, st.grant, i.payload), st.sel)
  }

  ghost predicate BackStep<P>(cfg: Config<P>, st: State<P>, i: Inputs<P>, st': State<P>)
    requires Shaped(cfg, st)
  {
    && st'.queue == FifoCore.NextQueue(FIFO_CAPACITY, st.queue, st.weDelay[MuxPipeline.LEVELS],
                                       st.stages[MuxPipeline.LEVELS][0], st.fifoRe)
    && st'.dav == (st.fifoRe && st.queue != [])
    && (st'.dav ==> st'.rd == st.queue[0])
    && st'.fifoRe == (!st.wait && st.queue != [])
    && st'.wait == ((st.wait || st.queue != []) && !i.txDone)
    && st'.txReq == ((st.dav || st.txReq) && !i.txDone)
    && st'.tx == (if st.dav then st.rd.payload else st.tx)
    && st'.curr == (if st.dav then st.rd.grant else st.curr)
    && st'.ack == (if i.txDone then st.curr else seq(cfg.channels, _ => false))
  }

  /** One clock of the request path. */
  ghost predicate Next<P>(cfg: Config<P>, st: State<P>, i: Inputs<P>, st': State<P>)
    requires Shaped(cfg, st) && InputsFit(cfg, st, i)
  {
    ArbiterStep(cfg, st, i, st') && PipeStep(cfg, st, i, st') && BackStep(cfg, st, i, st')
  }

  /** A channel holds its request and payload until it is acknowledged, and then
      takes the request back for at least one clock. */
  ghost predicate ClientsHold<P>(st: State<P>, i: Inputs<P>, i': Inputs<P>) {
    && |i'.req| == |i'.payload| == |i.req| == |i.payload| == |st.ack|
    && forall c :: 0 <= c < |i.req| && i.req[c] ==>
         if st.ack[c] then !i'.req[c] else i'.req[c] && i'.payload[c] == i.payload[c]
  }

  // One request at a time

  /** Where the one request in the path is: w is the granted channel, e its FIFO entry. */
  datatype Phase<P> =
    | Quiet
    | Risen(w: nat)
    | InPipe(w: nat, e: Word<P>, k: nat)
    | Queued(w: nat, e: Word<P>)
    | Reading(w: nat, e: Word<P>)
    | Arrived(w: nat, e: Word<P>)
    | Sending(w: nat, e: Word<P>)
    | Acked(w: nat, e: Word<P>)

  predicate Only(v: seq<bool>, w: nat) {
    forall c :: 0 <= c < |v| ==> (v[c] <==> c == w)
  }

  predicate NoneSet(v: seq<bool>) {
    forall c :: 0 <= c < |v| ==> !v[c]
  }

  /** Channel w holds its request, the grant and the index. */
  predicate Holding<P>(cfg: Config<P>, st: State<P>, i: Inputs<P>, w: nat)
    requires Shaped(cfg, st) && |i.req| == cfg.channels
  {
    && w < cfg.channels && Only(st.grant, w) && i.req[w]
    && TreeArbiter.Chosen(st.nodes) == w
    && st.sel == w % Pow2(cfg.selectWidth)
  }

  ghost predicate BackEmpty<P>(st: State<P>) {
    st.queue == [] && !st.fifoRe && !st.dav && !st.wait && !st.txReq
  }

  /** The entry that a rising grant of w captures: the payload of the channel that
      the select output, cut to its width, names. */
  function Entry<P>(cfg: Config<P>, payload: seq<P>, w: nat): Word<P>
    requires w < |payload| == cfg.channels
  {
    ModBound(w, Pow2(cfg.selectWidth));
    Word(seq(cfg.channels, c => c == w), payload[w % Pow2(cfg.selectWidth)])
  }

  lemma ModBound(x: nat, p: nat)
    requires p > 0
    ensures x % p <= x
  {
  }

  ghost predicate AtStage<P>(st: State<P>, e: Word<P>, k: nat)
    requires MuxPipeline.Sized(st.stages)
  {
    && 1 <= k <= MuxPipeline.LEVELS + 1
    && Only(st.weDelay, k - 1)
    && MuxPipeline.Shr(st.sel, k - 1) < |st.stages[k - 1]|
    && st.stages[k - 1][MuxPipeline.Shr(st.sel, k - 1)] == e
  }

  ghost predicate InPhase<P>(cfg: Config<P>, st: State<P>, i: Inputs<P>, ph: Phase<P>)
    requires Shaped(cfg, st) && |i.req| == |i.payload| == cfg.channels
  {
    match ph
    case Quiet =>
      && NoneSet(st.weDelay) && BackEmpty(st) && NoneSet(st.ack)
      && forall c :: 0 <= c < cfg.channels && st.grant[c] ==> st.ackD[c] && !i.req[c]
    case Risen(w) =>
      && Holding(cfg, st, i, w) && !st.ackD[w]
      && NoneSet(st.weDelay) && BackEmpty(st) && NoneSet(st.ack)
    case InPipe(w, e, k) =>
      && Holding(cfg, st, i, w) && st.ackD == st.grant && e.grant == st.grant
      && AtStage(st, e, k) && BackEmpty(st) && NoneSet(st.ack)
    case _ =>
      && Holding(cfg, st, i, ph.w) && st.ackD == st.grant && ph.e.grant == st.grant
      && NoneSet(st.weDelay) && AtBack(st, ph)
  }

  /** The registers behind the pipeline when they hold the request. */
  ghost predicate AtBack<P>(st: State<P>, ph: Phase<P>) {
    match ph
    case Queued(w, e) => st.queue == [e] && !st.fifoRe && !st.dav && !st.wait && !st.txReq && NoneSet(st.ack)
    case Reading(w, e) => st.queue == [e] && st.fifoRe && !st.dav && st.wait && !st.txReq && NoneSet(st.ack)
    case Arrived(w, e) =>
      st.queue == [] && !st.fifoRe && st.dav && st.rd == e && st.wait && !st.txReq && NoneSet(st.ack)
    case Sending(w, e) => st.queue == [] && !st.fifoRe && !st.dav && st.wait && st.txReq && st.tx == e.payload
                          && st.curr == e.grant && NoneSet(st.ack)
    case Acked(w, e) => BackEmpty(st) && st.ack == e.grant
    case _ => BackEmpty(st) && NoneSet(st.ack)
  }

  lemma PaddedFits<P>(cfg: Config<P>, st: State<P>, req: seq<bool>)
    requires Shaped(cfg, st) && |req| == cfg.channels
    ensures TreeArbiter.Fits(st.nodes, Padded(req, Rounded(cfg.channels, 16)))
    ensures forall c :: 0 <= c < cfg.channels ==> Padded(req, Rounded(cfg.channels, 16))[c] == req[c]
    ensures forall c :: cfg.channels <= c < Rounded(cfg.channels, 16) ==> !Padded(req, Rounded(cfg.channels, 16))[c]
  {
  }

  /** The next grant vector is empty or names one requesting channel, which the
      nodes keep pointing at. */
  lemma NextGrant<P>(cfg: Config<P>, st: State<P>, i: Inputs<P>, st': State<P>)
    requires Shaped(cfg, st) && |i.req| == cfg.channels && ArbiterStep(cfg, st, i, st')
    ensures
      var w := TreeArbiter.Chosen(st.nodes);
      if w < cfg.channels && i.req[w]
      then Only(st'.grant, w) && TreeArbiter.Chosen(st'.nodes) == w && st'.sel == w % Pow2(cfg.selectWidth)
      else NoneSet(st'.grant)
  {
    hide TreeArbiter.GrantsLeaf, TreeArbiter.Descend, TreeArbiter.NextState, Rounded, Padded;
    PaddedFits(cfg, st, i.req);
    var req := Padded(i.req, Rounded(cfg.channels, 16));
    var w := TreeArbiter.Chosen(st.nodes);
    forall c | 0 <= c < cfg.channels
      ensures st'.grant[c] <==> i.req[c] && w == c
    {
      TreeArbiter.GrantIsExclusive(st.nodes, req, true, c);
    }
    if w < cfg.channels && i.req[w] {
      TreeArbiter.PathHolds(st.nodes, req, 0);
    }
  }

  lemma HoldingKept<P>(cfg: Config<P>, st: State<P>, i: Inputs<P>, st': State<P>, i': Inputs<P>, w: nat)
    requires Shaped(cfg, st) && InputsFit(cfg, st, i) && Shaped(cfg, st') && |i'.req| == cfg.channels
    requires ArbiterStep(cfg, st, i, st') && ClientsHold(st, i, i')
    requires Holding(cfg, st, i, w)
    ensures Only(st'.grant, w) && TreeArbiter.Chosen(st'.nodes) == w && st'.sel == st.sel && st'.grant == st.grant
    ensures if st.ack[w] then !i'.req[w] else Holding(cfg, st', i', w)
  {
    NextGrant(cfg, st, i, st');
    assert st'.grant == st.grant by {
      assert forall c :: 0 <= c < cfg.channels ==> st'.grant[c] == st.grant[c];
    }
  }

  lemma NoRise<P>(st: State<P>)
    requires |st.grant| == |st.ackD| && forall c :: 0 <= c < |st.grant| && st.grant[c] ==> st.ackD[c]
    ensures !Rises(st)
  {
  }

  lemma DelayMoves<P>(cfg: Config<P>, st: State<P>, i: Inputs<P>, st': State<P>)
    requires Shaped(cfg, st) && InputsFit(cfg, st, i) && PipeStep(cfg, st, i, st')
    ensures NoneSet(st.weDelay) && !Rises(st) ==> NoneSet(st'.weDelay)
    ensures NoneSet(st.weDelay) && Rises(st) ==> Only(st'.weDelay, 0)
    ensures Only(st.weDelay, MuxPipeline.LEVELS) && !Rises(st) ==> NoneSet(st'.weDelay)
  {
  }

  // What the next phase is, phase by phase

  lemma FromQuiet<P>(cfg: Config<P>, st: State<P>, i: Inputs<P>, st': State<P>, i': Inputs<P>) returns (ph': Phase<P>)
    requires Shaped(cfg, st) && InputsFit(cfg, st, i) && Shaped(cfg, st') && |i'.req| == |i'.payload| == cfg.channels
    requires Next(cfg, st, i, st') && ClientsHold(st, i, i')
    requires InPhase(cfg, st, i, Quiet)
    ensures InPhase(cfg, st', i', ph') && (ph' == Quiet || ph'.Risen?)
  {
    hide TreeArbiter.Descend, TreeArbiter.GrantsLeaf, Rounded, MuxPipeline.Next, Pow2, FifoCore.NextQueue;
    NextGrant(cfg, st, i, st');
    NoRise(st);
    DelayMoves(cfg, st, i, st');
    BackStaysEmpty(cfg, st, i, st');
    var w := TreeArbiter.Chosen(st.nodes);
    ph' := if w < cfg.channels && i.req[w] then Risen(w) else Quiet;
    hide MuxPipeline.Sized, BackEmpty, ArbiterStep, BackStep, Rises;
  }

  lemma BackStaysEmpty<P>(cfg: Config<P>, st: State<P>, i: Inputs<P>, st': State<P>)
    requires Shaped(cfg, st) && InputsFit(cfg, st, i) && BackStep(cfg, st, i, st')
    requires BackEmpty(st) && !st.weDelay[MuxPipeline.LEVELS]
    ensures BackEmpty(st') && NoneSet(st'.ack)
  {
  }

  /** The input register takes the entry of a rising grant. */
  lemma Captured<P>(cfg: Config<P>, st: State<P>, i: Inputs<P>, st': State<P>, w: nat)
    requires Shaped(cfg, st) && |i.payload| == cfg.channels && PipeStep(cfg, st, i, st')
    requires w < cfg.channels && Only(st.grant, w) && st.sel == w % Pow2(cfg.selectWidth)
    ensures st.sel < |st'.stages[0]| && st'.stages[0][st.sel] == Entry(cfg, i.payload, w)
    ensures Entry(cfg, i.payload, w).grant == st.grant
  {
    ModBound(w, Pow2(cfg.selectWidth));
    hide Pow2;
    assert st.grant == seq(cfg.channels, c => c == w);
    assert st'.stages[0] == MuxInput(cfg, st.grant, i.payload);
  }

  lemma FromRisen<P>(cfg: Config<P>, st: State<P>, i: Inputs<P>, st': State<P>, i': Inputs<P>, w: nat)
    requires Shaped(cfg, st) && InputsFit(cfg, st, i) && Shaped(cfg, st') && |i'.req| == |i'.payload| == cfg.channels
    requires Next(cfg, st, i, st') && ClientsHold(st, i, i')
    requires InPhase(cfg, st, i, Risen(w))
    ensures w < cfg.channels && InPhase(cfg, st', i', InPipe(w, Entry(cfg, i.payload, w), 1))
  {
    hide TreeArbiter.Descend, Rounded, Pow2, MuxPipeline.Next, MuxPipeline.Sized, TreeArbiter.GrantsLeaf;
    HoldingKept(cfg, st, i, st', i', w);
    DelayMoves(cfg, st, i, st');
    BackStaysEmpty(cfg, st, i, st');
    Captured(cfg, st, i, st', w);
    assert MuxPipeline.Shr(st.sel, 0) == st.sel;
    assert Rises(st);
    hide Holding, BackEmpty, ArbiterStep, Entry;
  }

  lemma WordAdvances<P>(cfg: Config<P>, st: State<P>, i: Inputs<P>, st': State<P>, e: Word<P>, k: nat)
    requires Shaped(cfg, st) && |i.payload| == cfg.channels && PipeStep(cfg, st, i, st')
    requires AtStage(st, e, k) && k <= MuxPipeline.LEVELS && !Rises(st) && st'.sel == st.sel < Pow2(MuxPipeline.LEVELS)
    ensures MuxPipeline.Sized(st'.stages) && AtStage(st', e, k + 1)
  {
    hide MuxPipeline.Next, MuxPipeline.Sized, Pow2;
    DelayAdvances(cfg, st, i, st', k - 1);
    MuxPipeline.WordMoves(st.stages, MuxInput(cfg, st.grant, i.payload), st.sel, k - 1);
  }

  lemma DelayAdvances<P>(cfg: Config<P>, st: State<P>, i: Inputs<P>, st': State<P>, k: nat)
    requires Shaped(cfg, st) && |i.payload| == cfg.channels && PipeStep(cfg, st, i, st')
    requires k < MuxPipeline.LEVELS && Only(st.weDelay, k) && !Rises(st)
    ensures Only(st'.weDelay, k + 1)
  {
  }

  lemma SelBound<P>(cfg: Config<P>, st: State<P>, w: nat)
    requires ValidConfig(cfg) && w < cfg.channels && st.sel == w % Pow2(cfg.selectWidth)
    ensures st.sel < Pow2(MuxPipeline.LEVELS)
  {
    ModBound(w, Pow2(cfg.selectWidth));
  }

  lemma LastStage<P>(st: State<P>, e: Word<P>, k: nat)
    requires MuxPipeline.Sized(st.stages) && |st.weDelay| == MuxPipeline.LEVELS + 1
    requires AtStage(st, e, k) && k > MuxPipeline.LEVELS && st.sel < Pow2(MuxPipeline.LEVELS)
    ensures Only(st.weDelay, MuxPipeline.LEVELS) && st.weDelay[MuxPipeline.LEVELS]
    ensures st.stages[MuxPipeline.LEVELS][0] == e
  {
    MuxPipeline.ShrBound(st.sel, MuxPipeline.LEVELS, MuxPipeline.LEVELS);
  }

  lemma ThroughPipe<P>(cfg: Config<P>, st: State<P>, i: Inputs<P>, st': State<P>, i': Inputs<P>, w: nat, e: Word<P>,
                       k: nat)
    requires Shaped(cfg, st) && InputsFit(cfg, st, i) && Shaped(cfg, st') && |i'.req| == |i'.payload| == cfg.channels
    requires Next(cfg, st, i, st') && ClientsHold(st, i, i')
    requires InPhase(cfg, st, i, InPipe(w, e, k)) && k <= MuxPipeline.LEVELS
    ensures InPhase(cfg, st', i', InPipe(w, e, k + 1))
  {
    hide TreeArbiter.Descend, Rounded, MuxPipeline.Next, MuxPipeline.Sized, TreeArbiter.GrantsLeaf, FifoCore.NextQueue;
    HoldingKept(cfg, st, i, st', i', w);
    NoRise(st);
    SelBound(cfg, st, w);
    hide Pow2, Holding, Entry, Rises;
    WordAdvances(cfg, st, i, st', e, k);
    BackStaysEmpty(cfg, st, i, st');
    hide ArbiterStep, BackEmpty, AtStage, BackStep;
  }

  lemma OutOfPipe<P>(cfg: Config<P>, st: State<P>, i: Inputs<P>, st': State<P>, i': Inputs<P>, w: nat, e: Word<P>,
                     k: nat)
    requires Shaped(cfg, st) && InputsFit(cfg, st, i) && Shaped(cfg, st') && |i'.req| == |i'.payload| == cfg.channels
    requires Next(cfg, st, i, st') && ClientsHold(st, i, i')
    requires InPhase(cfg, st, i, InPipe(w, e, k)) && k > MuxPipeline.LEVELS
    ensures InPhase(cfg, st', i', Queued(w, e))
  {
    hide TreeArbiter.Descend, Rounded, MuxPipeline.Next, MuxPipeline.Sized, TreeArbiter.GrantsLeaf, FifoCore.NextQueue;
    HoldingKept(cfg, st, i, st', i', w);
    NoRise(st);
    SelBound(cfg, st, w);
    hide Pow2, Holding, Entry, Rises;
    DelayMoves(cfg, st, i, st');
    LastStage(st, e, k);
    FifoTakes(cfg, st, i, st', e);
    hide ArbiterStep, BackEmpty, BackStep;
  }

  lemma FifoTakes<P>(cfg: Config<P>, st: State<P>, i: Inputs<P>, st': State<P>, e: Word<P>)
    requires Shaped(cfg, st) && InputsFit(cfg, st, i) && BackStep(cfg, st, i, st')
    requires BackEmpty(st) && st.weDelay[MuxPipeline.LEVELS] && st.stages[MuxPipeline.LEVELS][0] == e
    ensures st'.queue == [e] && !st'.fifoRe && !st'.dav && !st'.wait && !st'.txReq && NoneSet(st'.ack)
  {
  }

  function AfterBack<P>(st: State<P>, i: Inputs<P>, ph: Phase<P>): Phase<P>
    requires ph.Queued? || ph.Reading? || ph.Arrived? || ph.Sending? || ph.Acked?
  {
    match ph
    case Queued(w, e) => Reading(w, e)
    case Reading(w, e) => Arrived(w, e)
    case Arrived(w, e) => Sending(w, e)
    case Sending(w, e) => if i.txDone then Acked(w, e) else ph
    case Acked(_, _) => Quiet
  }

  /** Nothing more enters the FIFO while a request is behind the pipeline. */
  lemma QueueOnlyRead<P>(cfg: Config<P>, st: State<P>, i: Inputs<P>, st': State<P>)
    requires Shaped(cfg, st) && BackStep(cfg, st, i, st') && !st.weDelay[MuxPipeline.LEVELS]
    ensures st'.queue == if st.fifoRe && st.queue != [] then st.queue[1..] else st.queue
  {
  }

  lemma BackMoves<P>(cfg: Config<P>, st: State<P>, i: Inputs<P>, st': State<P>, ph: Phase<P>)
    requires Shaped(cfg, st) && InputsFit(cfg, st, i) && BackStep(cfg, st, i, st') && !st.weDelay[MuxPipeline.LEVELS]
    requires ph.Queued? || ph.Reading? || ph.Arrived? || ph.Sending? || ph.Acked?
    requires AtBack(st, ph)
    ensures AtBack(st', AfterBack(st, i, ph))
  {
    hide FifoCore.NextQueue;
    QueueOnlyRead(cfg, st, i, st');
  }

  lemma FromBack<P>(cfg: Config<P>, st: State<P>, i: Inputs<P>, st': State<P>, i': Inputs<P>, ph: Phase<P>)
    requires Shaped(cfg, st) && InputsFit(cfg, st, i) && Shaped(cfg, st') && |i'.req| == |i'.payload| == cfg.channels
    requires Next(cfg, st, i, st') && ClientsHold(st, i, i')
    requires ph.Queued? || ph.Reading? || ph.Arrived? || ph.Sending? || ph.Acked?
    requires InPhase(cfg, st, i, ph)
    ensures InPhase(cfg, st', i', AfterBack(st, i, ph))
  {
    hide TreeArbiter.Descend, Rounded, MuxPipeline.Next, MuxPipeline.Sized, TreeArbiter.GrantsLeaf,
         FifoCore.NextQueue, Pow2;
    BackMoves(cfg, st, i, st', ph);
    HoldingKept(cfg, st, i, st', i', ph.w);
    NoRise(st);
    DelayMoves(cfg, st, i, st');
    hide ArbiterStep, Entry, Rises, BackStep;
  }

  lemma StaysShaped<P>(cfg: Config<P>, st: State<P>, i: Inputs<P>, st': State<P>, ph: Phase<P>)
    requires Shaped(cfg, st) && InputsFit(cfg, st, i) && InPhase(cfg, st, i, ph)
    requires Next(cfg, st, i, st')
    ensures Shaped(cfg, st')
  {
    hide TreeArbiter.Descend, Rounded, TreeArbiter.GrantsLeaf, FifoCore.NextQueue, Pow2, AtStage;
    PaddedFits(cfg, st, i.req);
  }

  /** The phase after any clock. */
  lemma PhaseMoves<P>(cfg: Config<P>, st: State<P>, i: Inputs<P>, st': State<P>, i': Inputs<P>, ph: Phase<P>)
    returns (ph': Phase<P>)
    requires Shaped(cfg, st) && InputsFit(cfg, st, i) && InPhase(cfg, st, i, ph)
    requires Next(cfg, st, i, st') && ClientsHold(st, i, i')
    ensures Shaped(cfg, st') && |i'.req| == |i'.payload| == cfg.channels
    ensures InPhase(cfg, st', i', ph')
    ensures
      match ph
      case Quiet => ph' == Quiet || ph'.Risen?
      case Risen(w) => w < cfg.channels && ph' == InPipe(w, Entry(cfg, i.payload, w), 1)
      case InPipe(w, e, k) => ph' == if k <= MuxPipeline.LEVELS then InPipe(w, e, k + 1) else Queued(w, e)
      case _ => ph' == AfterBack(st, i, ph)
  {
    StaysShaped(cfg, st, i, st', ph);
    match ph {
      case Quiet => ph' := FromQuiet(cfg, st, i, st', i');
      case Risen(w) =>
        FromRisen(cfg, st, i, st', i', w);
        ph' := InPipe(w, Entry(cfg, i.payload, w), 1);
      case InPipe(w, e, k) =>
        if k <= MuxPipeline.LEVELS {
          ThroughPipe(cfg, st, i, st', i', w, e, k);
        } else {
          OutOfPipe(cfg, st, i, st', i', w, e, k);
        }
        ph' := if k <= MuxPipeline.LEVELS then InPipe(w, e, k + 1) else Queued(w, e);
      case _ =>
        FromBack(cfg, st, i, st', i', ph);
        ph' := AfterBack(st, i, ph);
    }
  }

  // Whole runs

  /** A clock with a rising grant: the channels that rise and all payloads offered. */
  datatype Grant<P> = Grant(rise: seq<bool>, payload: seq<P>)

  /** What happened so far: grants, FIFO writes, words handed to the transmitter,
      and acknowledge vectors. */
  datatype Log<P> = Log(granted: seq<Grant<P>>, pushed: seq<Word<P>>, sent: seq<Word<P>>, acked: seq<seq<bool>>)

  function RiseVector<P>(st: State<P>): seq<bool>
    requires |st.grant| == |st.ackD|
  {
    seq(|st.grant|, c requires 0 <= c < |st.grant| => st.grant[c] && !st.ackD[c])
  }

  function NextLog<P>(cfg: Config<P>, st: State<P>, i: Inputs<P>, log: Log<P>): Log<P>
    requires Shaped(cfg, st)
  {
    Log(log.granted + Listed(if Rises(st) then Some(Grant(RiseVector(st), i.payload)) else None),
        log.pushed + Listed(if st.weDelay[MuxPipeline.LEVELS] then Some(st.stages[MuxPipeline.LEVELS][0]) else None),
        log.sent + Listed(if st.dav then Some(st.rd) else None),
        log.acked + Listed(if i.txDone then Some(st.curr) else None))
  }

  /** e is the FIFO entry of grant g: one channel rose, and e holds its grant bit and
      the payload of the channel that the index names. */
  ghost predicate Answers<P>(cfg: Config<P>, g: Grant<P>, e: Word<P>) {
    && |g.rise| == |g.payload| == cfg.channels
    && exists w :: 0 <= w < cfg.channels && Only(g.rise, w) && e == Entry(cfg, g.payload, w)
  }

  ghost predicate Paired<P>(cfg: Config<P>, granted: seq<Grant<P>>, pushed: seq<Word<P>>) {
    |pushed| <= |granted| && forall k :: 0 <= k < |pushed| ==> Answers(cfg, granted[k], pushed[k])
  }

  predicate AckedFor<P>(sent: seq<Word<P>>, acked: seq<seq<bool>>) {
    |acked| <= |sent| && forall k :: 0 <= k < |acked| ==> acked[k] == sent[k].grant
  }

  predicate BehindPipe<P>(ph: Phase<P>) {
    ph.Queued? || ph.Reading? || ph.Arrived?
  }

  ghost predicate LogInv<P>(cfg: Config<P>, log: Log<P>, ph: Phase<P>) {
    && Paired(cfg, log.granted, log.pushed)
    && |log.granted| == |log.pushed| + (if ph.InPipe? then 1 else 0)
    && (ph.InPipe? ==> Answers(cfg, log.granted[|log.granted| - 1], ph.e))
    && log.pushed == log.sent + (if BehindPipe(ph) then [ph.e] else [])
    && AckedFor(log.sent, log.acked)
    && |log.sent| == |log.acked| + (if ph.Sending? then 1 else 0)
    && (ph.Sending? ==> log.sent[|log.sent| - 1] == ph.e)
  }

  /** Each event belongs to one phase. */
  lemma Events<P>(cfg: Config<P>, st: State<P>, i: Inputs<P>, ph: Phase<P>)
    requires Shaped(cfg, st) && InputsFit(cfg, st, i) && InPhase(cfg, st, i, ph)
    ensures Rises(st) <==> ph.Risen?
    ensures ph.Risen? ==>
              ph.w < cfg.channels && Answers(cfg, Grant(RiseVector(st), i.payload), Entry(cfg, i.payload, ph.w))
    ensures st.weDelay[MuxPipeline.LEVELS] <==> ph.InPipe? && ph.k == MuxPipeline.LEVELS + 1
    ensures st.weDelay[MuxPipeline.LEVELS] ==> st.stages[MuxPipeline.LEVELS][0] == ph.e
    ensures ph.InPipe? ==> 1 <= ph.k <= MuxPipeline.LEVELS + 1
    ensures st.dav <==> ph.Arrived?
    ensures st.dav ==> st.rd == ph.e
    ensures i.txDone ==> ph.Sending? && st.curr == ph.e.grant
    ensures |st.queue| <= 1
  {
    hide TreeArbiter.Descend, Rounded, Entry;
    if ph.Risen? {
      assert Only(RiseVector(st), ph.w);
    } else {
      NoRise(st);
    }
    if ph.InPipe? && ph.k == MuxPipeline.LEVELS + 1 {
      SelBound(cfg, st, ph.w);
      MuxPipeline.ShrBound(st.sel, MuxPipeline.LEVELS, MuxPipeline.LEVELS);
    }
  }

  lemma PairedGrows<P>(cfg: Config<P>, granted: seq<Grant<P>>, pushed: seq<Word<P>>, g: Option<Grant<P>>,
                       e: Option<Word<P>>)
    requires Paired(cfg, granted, pushed)
    requires e.Some? ==> |pushed| < |granted| && Answers(cfg, granted[|pushed|], e.value)
    ensures Paired(cfg, granted + Listed(g), pushed + Listed(e))
  {
    hide Answers;
  }

  lemma LogInvKept<P>(cfg: Config<P>, st: State<P>, i: Inputs<P>, ph: Phase<P>, ph': Phase<P>, log: Log<P>)
    requires Shaped(cfg, st) && InputsFit(cfg, st, i) && InPhase(cfg, st, i, ph) && |i.payload| == cfg.channels
    requires LogInv(cfg, log, ph)
    requires
      match ph
      case Quiet => ph' == Quiet || ph'.Risen?
      case Risen(w) => w < cfg.channels && ph' == InPipe(w, Entry(cfg, i.payload, w), 1)
      case InPipe(w, e, k) => ph' == if k <= MuxPipeline.LEVELS then InPipe(w, e, k + 1) else Queued(w, e)
      case _ => ph' == AfterBack(st, i, ph)
    ensures LogInv(cfg, NextLog(cfg, st, i, log), ph')
  {
    hide Rises, Answers, Entry, RiseVector, InPhase;
    Events(cfg, st, i, ph);
    PairedGrows(cfg, log.granted, log.pushed,
                if Rises(st) then Some(Grant(RiseVector(st), i.payload)) else None,
                if st.weDelay[MuxPipeline.LEVELS] then Some(st.stages[MuxPipeline.LEVELS][0]) else None);
    hide Paired;
  }

  datatype Run<P> = Run(states: seq<State<P>>, inputs: seq<Inputs<P>>, logs: seq<Log<P>>)

  ghost predicate StepAt<P>(cfg: Config<P>, run: Run<P>, k: nat)
    requires |run.states| == |run.inputs| == |run.logs| && k + 1 < |run.states|
  {
    var st, i := run.states[k], run.inputs[k];
    && Shaped(cfg, st) && InputsFit(cfg, st, i)
    && Next(cfg, st, i, run.states[k + 1])
    && ClientsHold(st, i, run.inputs[k + 1])
    && run.logs[k + 1] == NextLog(cfg, st, i, run.logs[k])
  }

  ghost predicate Start<P>(cfg: Config<P>, st: State<P>, i: Inputs<P>) {
    && Shaped(cfg, st) && |i.req| == |i.payload| == cfg.channels
    && NoneSet(st.grant) && NoneSet(st.weDelay) && NoneSet(st.ack) && BackEmpty(st)
  }

  ghost predicate IsRun<P>(cfg: Config<P>, run: Run<P>) {
    && |run.states| == |run.inputs| == |run.logs| > 0
    && Start(cfg, run.states[0], run.inputs[0]) && run.logs[0] == Log([], [], [], [])
    && forall k :: 0 <= k < |run.states| - 1 ==> StepAt(cfg, run, k)
  }

  lemma {:induction false} RunHasPhase<P>(cfg: Config<P>, run: Run<P>, k: nat) returns (ph: Phase<P>)
    requires IsRun(cfg, run) && k < |run.states|
    ensures Shaped(cfg, run.states[k]) && |run.inputs[k].req| == |run.inputs[k].payload| == cfg.channels
    ensures InPhase(cfg, run.states[k], run.inputs[k], ph)
    ensures LogInv(cfg, run.logs[k], ph)
  {
    hide Shaped, InPhase, LogInv, Next, NextLog;
    if k == 0 {
      ph := Quiet;
      StartIsQuiet(cfg, run.states[0], run.inputs[0]);
    } else {
      var before := RunHasPhase(cfg, run, k - 1);
      assert StepAt(cfg, run, k - 1);
      ph := PhaseMoves(cfg, run.states[k - 1], run.inputs[k - 1], run.states[k], run.inputs[k], before);
      LogInvKept(cfg, run.states[k - 1], run.inputs[k - 1], before, ph, run.logs[k - 1]);
    }
  }

  lemma StartIsQuiet<P>(cfg: Config<P>, st: State<P>, i: Inputs<P>)
    requires Start(cfg, st, i)
    ensures InPhase(cfg, st, i, Quiet) && LogInv(cfg, Log([], [], [], []), Quiet)
  {
  }

  /** Main result. In every run of channels that hold their requests: each FIFO write
      answers one grant, in order, and at most one grant waits for its write; what
      is transmitted is what was written, and what is acknowledged is the channel
      of what was transmitted; and the FIFO holds at most one word. */
  lemma OneEntryPerGrant<P>(cfg: Config<P>, run: Run<P>, k: nat)
    requires IsRun(cfg, run) && k < |run.states|
    ensures
      var log := run.logs[k];
      && Paired(cfg, log.granted, log.pushed) && |log.granted| <= |log.pushed| + 1
      && log.sent <= log.pushed && |log.pushed| <= |log.sent| + 1
      && AckedFor(log.sent, log.acked) && |log.sent| <= |log.acked| + 1
    ensures |run.states[k].queue| <= 1
  {
    var ph := RunHasPhase(cfg, run, k);
    hide LogInv, TreeArbiter.Descend, Rounded;
    assert |run.states[k].queue| <= 1;
    LogInvMeans(cfg, run.logs[k], ph);
  }

  lemma LogInvMeans<P>(cfg: Config<P>, log: Log<P>, ph: Phase<P>)
    requires LogInv(cfg, log, ph)
    ensures Paired(cfg, log.granted, log.pushed) && |log.granted| <= |log.pushed| + 1
    ensures log.sent <= log.pushed && |log.pushed| <= |log.sent| + 1
    ensures AckedFor(log.sent, log.acked) && |log.sent| <= |log.acked| + 1
  {
  }

  /** j clocks after a grant rises its entry is in stage j of the pipeline. */
  lemma {:induction false} RiseTravels<P>(cfg: Config<P>, run: Run<P>, k: nat, w: nat, j: nat)
    requires IsRun(cfg, run) && k + j < |run.states| && 1 <= j <= MuxPipeline.LEVELS + 1
    requires Shaped(cfg, run.states[k]) && |run.inputs[k].req| == |run.inputs[k].payload| == cfg.channels
    requires InPhase(cfg, run.states[k], run.inputs[k], Risen(w)) && LogInv(cfg, run.logs[k], Risen(w))
    ensures w < cfg.channels
    ensures Shaped(cfg, run.states[k + j]) && |run.inputs[k + j].req| == |run.inputs[k + j].payload| == cfg.channels
    ensures
      var ph := InPipe(w, Entry(cfg, run.inputs[k].payload, w), j);
      InPhase(cfg, run.states[k + j], run.inputs[k + j], ph) && LogInv(cfg, run.logs[k + j], ph)
    ensures run.logs[k + j].pushed == run.logs[k].pushed
  {
    hide Shaped, InPhase, LogInv, Next, Entry;
    var before;
    if j == 1 {
      before := Risen(w);
    } else {
      RiseTravels(cfg, run, k, w, j - 1);
      before := InPipe(w, Entry(cfg, run.inputs[k].payload, w), j - 1);
    }
    var n := k + j - 1;
    assert StepAt(cfg, run, n);
    var ph := PhaseMoves(cfg, run.states[n], run.inputs[n], run.states[n + 1], run.inputs[n + 1], before);
    LogInvKept(cfg, run.states[n], run.inputs[n], before, ph, run.logs[n]);
    Events(cfg, run.states[n], run.inputs[n], before);
  }

  lemma PushedAtEnd<P>(cfg: Config<P>, run: Run<P>, n: nat, w: nat, e: Word<P>)
    requires IsRun(cfg, run) && n + 1 < |run.states|
    requires Shaped(cfg, run.states[n]) && |run.inputs[n].req| == |run.inputs[n].payload| == cfg.channels
    requires InPhase(cfg, run.states[n], run.inputs[n], InPipe(w, e, MuxPipeline.LEVELS + 1))
    ensures run.logs[n + 1].pushed == run.logs[n].pushed + [e]
  {
    assert StepAt(cfg, run, n);
    Events(cfg, run.states[n], run.inputs[n], InPipe(w, e, MuxPipeline.LEVELS + 1));
    hide InPhase, Shaped, Next;
  }

  lemma RiseHasPhase<P>(cfg: Config<P>, run: Run<P>, k: nat) returns (w: nat)
    requires IsRun(cfg, run) && k + 1 < |run.states| && Shaped(cfg, run.states[k]) && Rises(run.states[k])
    ensures w < cfg.channels && |run.inputs[k].req| == |run.inputs[k].payload| == cfg.channels
    ensures InPhase(cfg, run.states[k], run.inputs[k], Risen(w)) && LogInv(cfg, run.logs[k], Risen(w))
    ensures Only(RiseVector(run.states[k]), w)
  {
    var ph := RunHasPhase(cfg, run, k);
    assert StepAt(cfg, run, k);
    Events(cfg, run.states[k], run.inputs[k], ph);
    w := ph.w;
    OnlyRises(cfg, run.states[k], run.inputs[k], w);
    hide InPhase, LogInv, Next;
  }

  /** Alignment of grant, multiplexer and write enable: the entry of the channel w
      whose grant rises in clock k is written in clock k+10, and no other from k on. */
  lemma EveryRiseIsPushed<P>(cfg: Config<P>, run: Run<P>, k: nat) returns (w: nat)
    requires IsRun(cfg, run) && k + MuxPipeline.LEVELS + 2 < |run.states|
    requires Shaped(cfg, run.states[k]) && Rises(run.states[k])
    ensures w < cfg.channels == |run.inputs[k].payload| && Only(RiseVector(run.states[k]), w)
    ensures run.logs[k + MuxPipeline.LEVELS + 2].pushed == run.logs[k].pushed + [Entry(cfg, run.inputs[k].payload, w)]
  {
    hide InPhase, LogInv, Entry, Rises, RiseVector, StepAt;
    w := RiseHasPhase(cfg, run, k);
    RiseTravels(cfg, run, k, w, MuxPipeline.LEVELS + 1);
    PushedAtEnd(cfg, run, k + MuxPipeline.LEVELS + 1, w, Entry(cfg, run.inputs[k].payload, w));
  }

  lemma OnlyRises<P>(cfg: Config<P>, st: State<P>, i: Inputs<P>, w: nat)
    requires Shaped(cfg, st) && |i.req| == |i.payload| == cfg.channels && InPhase(cfg, st, i, Risen(w))
    ensures Only(RiseVector(st), w)
  {
  }

  // Whose payload is written

  /** The word carries grant bit and payload of the channel that rose. */
  ghost predicate OwnWord<P>(g: Grant<P>, e: Word<P>) {
    exists w :: 0 <= w < |g.payload| == |g.rise| && Only(g.rise, w) && e == Word(g.rise, g.payload[w])
  }

  ghost predicate PushesOwn<P>(log: Log<P>) {
    |log.pushed| <= |log.granted| && forall k :: 0 <= k < |log.pushed| ==> OwnWord(log.granted[k], log.pushed[k])
  }

  lemma ModCases(x: nat, p: nat)
    requires p > 0
    ensures x % p == x <==> x < p
  {
  }

  lemma OneHot(v: seq<bool>, w: nat)
    requires w < |v| && Only(v, w)
    ensures v == seq(|v|, c => c == w)
  {
  }

  /** An entry is the channel's own word if its number fits the select output. */
  lemma AnswersOwn<P>(cfg: Config<P>, g: Grant<P>, e: Word<P>)
    requires Answers(cfg, g, e) && cfg.channels <= Pow2(cfg.selectWidth)
    ensures OwnWord(g, e)
  {
    var w :| 0 <= w < cfg.channels && Only(g.rise, w) && e == Entry(cfg, g.payload, w);
    hide Pow2;
    ModCases(w, Pow2(cfg.selectWidth));
    OneHot(g.rise, w);
    assert e == Word(g.rise, g.payload[w]);
  }

  lemma SelectableChannelsPushOwn<P>(cfg: Config<P>, run: Run<P>, k: nat)
    requires IsRun(cfg, run) && k < |run.states| && cfg.channels <= Pow2(cfg.selectWidth)
    ensures PushesOwn(run.logs[k])
  {
    OneEntryPerGrant(cfg, run, k);
    var log := run.logs[k];
    hide IsRun, OwnWord, Answers;
    forall j | 0 <= j < |log.pushed|
      ensures OwnWord(log.granted[j], log.pushed[j])
    {
      AnswersOwn(cfg, log.granted[j], log.pushed[j]);
    }
  }

  // A run in which one channel asks and nothing is ever transmitted

  /** The inputs stay the same and no channel is acknowledged. */
  ghost predicate Steady<P>(cfg: Config<P>, run: Run<P>, i: Inputs<P>) {
    && IsRun(cfg, run) && !i.txDone && |i.req| == |i.payload| == cfg.channels
    && (forall k :: 0 <= k < |run.inputs| ==> run.inputs[k] == i)
    && (forall k :: 0 <= k < |run.states| ==> NoneSet(run.states[k].ack))
  }

  function Reset<P>(cfg: Config<P>): State<P>
    requires ValidConfig(cfg)
  {
    var none := seq(cfg.channels, _ => false);
    var nothing := Word(none, cfg.zero);
    State(seq(Rounded(cfg.channels, 16) - 1, _ => false), none, 0,
          none, seq(MuxPipeline.LEVELS + 1, _ => false),
          seq(MuxPipeline.LEVELS + 1, k requires 0 <= k <= MuxPipeline.LEVELS =>
            seq(Pow2(MuxPipeline.LEVELS - k), _ => nothing)),
          [], false, nothing, false, false, false, cfg.zero, none, none)
  }

  function After<P>(cfg: Config<P>, st: State<P>, i: Inputs<P>): State<P>
    requires Shaped(cfg, st) && InputsFit(cfg, st, i)
  {
    var req := Padded(i.req, Rounded(cfg.channels, 16));
    State(TreeArbiter.Next(st.nodes, req),
          seq(cfg.channels, c requires 0 <= c < cfg.channels => TreeArbiter.GrantsLeaf(st.nodes, req, true, c)),
          TreeArbiter.Chosen(st.nodes) % Pow2(cfg.selectWidth),
          st.grant, [Rises(st)] + st.weDelay[..MuxPipeline.LEVELS],
          MuxPipeline.Next(st.stages, MuxInput(cfg, st.grant, i.payload), st.sel),
          FifoCore.NextQueue(FIFO_CAPACITY, st.queue, st.weDelay[MuxPipeline.LEVELS],
                             st.stages[MuxPipeline.LEVELS][0], st.fifoRe),
          st.fifoRe && st.queue != [], if st.queue != [] then st.queue[0] else st.rd,
          !st.wait && st.queue != [], (st.wait || st.queue != []) && !i.txDone, (st.dav || st.txReq) && !i.txDone,
          if st.dav then st.rd.payload else st.tx, if st.dav then st.rd.grant else st.curr,
          if i.txDone then st.curr else seq(cfg.channels, _ => false))
  }

  lemma AfterIsNext<P>(cfg: Config<P>, st: State<P>, i: Inputs<P>)
    requires Shaped(cfg, st) && InputsFit(cfg, st, i)
    ensures Next(cfg, st, i, After(cfg, st, i))
  {
    hide TreeArbiter.GrantsLeaf, TreeArbiter.Descend, FifoCore.NextQueue, MuxPipeline.Next, MuxInput, Pow2, Rises;
  }

  lemma {:induction false} SteadyRun<P>(cfg: Config<P>, i: Inputs<P>, n: nat) returns (run: Run<P>)
    requires ValidConfig(cfg) && !i.txDone && |i.req| == |i.payload| == cfg.channels
    ensures Steady(cfg, run, i) && |run.states| == n + 1
  {
    if n == 0 {
      run := Run([Reset(cfg)], [i], [Log([], [], [], [])]);
    } else {
      run := SteadyRun(cfg, i, n - 1);
      var ph := RunHasPhase(cfg, run, n - 1);
      run := SteadyStep(cfg, run, i);
    }
  }

  lemma ExtendRun<P>(cfg: Config<P>, run: Run<P>, st': State<P>, i': Inputs<P>) returns (run': Run<P>)
    requires IsRun(cfg, run)
    requires
      var st, i := run.states[|run.states| - 1], run.inputs[|run.inputs| - 1];
      Shaped(cfg, st) && InputsFit(cfg, st, i) && Next(cfg, st, i, st') && ClientsHold(st, i, i')
    ensures IsRun(cfg, run')
    ensures run'.states == run.states + [st'] && run'.inputs == run.inputs + [i']
  {
    hide Shaped, NextLog, Start, Next, ClientsHold, InputsFit;
    var n := |run.states| - 1;
    run' := Run(run.states + [st'], run.inputs + [i'],
                run.logs + [NextLog(cfg, run.states[n], run.inputs[n], run.logs[n])]);
    forall k | 0 <= k < n + 1
      ensures StepAt(cfg, run', k)
    {
      if k < n {
        assert StepAt(cfg, run, k);
      }
    }
  }

  lemma SteadyStep<P>(cfg: Config<P>, run: Run<P>, i: Inputs<P>) returns (run': Run<P>)
    requires Steady(cfg, run, i) && Shaped(cfg, run.states[|run.states| - 1])
    ensures Steady(cfg, run', i) && |run'.states| == |run.states| + 1
  {
    hide After, Next, StepAt, Start;
    var st := run.states[|run.states| - 1];
    AfterIsNext(cfg, st, i);
    NotAcked(cfg, st, i, After(cfg, st, i));
    assert ClientsHold(st, i, i);
    hide Shaped, ClientsHold, NoneSet;
    run' := ExtendRun(cfg, run, After(cfg, st, i), i);
  }

  lemma NotAcked<P>(cfg: Config<P>, st: State<P>, i: Inputs<P>, st': State<P>)
    requires Shaped(cfg, st) && InputsFit(cfg, st, i) && Next(cfg, st, i, st') && !i.txDone
    ensures NoneSet(st'.ack)
  {
  }

  lemma SteadyAt<P>(cfg: Config<P>, run: Run<P>, i: Inputs<P>, k: nat)
    requires Steady(cfg, run, i) && k < |run.states|
    ensures Shaped(cfg, run.states[k]) && run.inputs[k] == i
    ensures k > 0 ==> Shaped(cfg, run.states[k - 1]) && InputsFit(cfg, run.states[k - 1], i)
                      && Next(cfg, run.states[k - 1], i, run.states[k])
    ensures k > 0 ==> run.logs[k] == NextLog(cfg, run.states[k - 1], i, run.logs[k - 1])
  {
    var ph := RunHasPhase(cfg, run, k);
    if k > 0 {
      assert StepAt(cfg, run, k - 1);
      assert run.inputs[k - 1] == i;
    }
    hide Shaped, InPhase, LogInv, Next, NextLog;
  }

  /** In a steady run only the one channel that asks is ever granted. */
  lemma SteadyGrant<P>(cfg: Config<P>, run: Run<P>, i: Inputs<P>, c: nat, k: nat)
    requires Steady(cfg, run, i) && c < cfg.channels && Only(i.req, c) && 0 < k < |run.states|
    ensures Shaped(cfg, run.states[k - 1]) && Shaped(cfg, run.states[k])
    ensures run.states[k].ackD == run.states[k - 1].grant
    ensures NoneSet(run.states[k].grant) || Only(run.states[k].grant, c)
    ensures TreeArbiter.Chosen(run.states[k - 1].nodes) == c ==> Only(run.states[k].grant, c)
    ensures run.states[k].nodes == TreeArbiter.Next(run.states[k - 1].nodes, Padded(i.req, Rounded(cfg.channels, 16)))
  {
    hide Shaped, InPhase, LogInv, IsRun, NextLog, TreeArbiter.Chosen, TreeArbiter.GrantsLeaf, MuxPipeline.Next,
         BackStep;
    SteadyAt(cfg, run, i, k);
    NextGrant(cfg, run.states[k - 1], i, run.states[k]);
  }

  lemma SteadyChosen<P>(cfg: Config<P>, run: Run<P>, i: Inputs<P>, c: nat)
    requires Steady(cfg, run, i) && c < cfg.channels && Only(i.req, c) && |run.states| > 3
    ensures Shaped(cfg, run.states[2]) && TreeArbiter.Chosen(run.states[2].nodes) == c
  {
    SteadyGrant(cfg, run, i, c, 1);
    SteadyGrant(cfg, run, i, c, 2);
    var req := Padded(i.req, Rounded(cfg.channels, 16));
    var nodes := run.states[0].nodes;
    PaddedFits(cfg, run.states[0], i.req);
    assert req[c];
    TreeArbiter.GrantedFromSecondClock(nodes, req, 2);
    assert run.states[2].nodes == TreeArbiter.After(nodes, req, 2) by {
      assert TreeArbiter.After(nodes, req, 1) == TreeArbiter.Next(TreeArbiter.After(nodes, req, 0), req);
    }
  }

  /** Within three clocks the channel's grant rises. */
  lemma SteadyRise<P>(cfg: Config<P>, run: Run<P>, i: Inputs<P>, c: nat) returns (k: nat)
    requires Steady(cfg, run, i) && c < cfg.channels && Only(i.req, c) && |run.states| > 3
    ensures 0 < k <= 3 && Shaped(cfg, run.states[k]) && Rises(run.states[k]) && Only(run.states[k].grant, c)
  {
    hide TreeArbiter.Chosen, Shaped;
    SteadyChosen(cfg, run, i, c);
    SteadyGrant(cfg, run, i, c, 1);
    SteadyGrant(cfg, run, i, c, 2);
    SteadyGrant(cfg, run, i, c, 3);
    k := if Only(run.states[1].grant, c) then 1 else if Only(run.states[2].grant, c) then 2 else 3;
    assert NoneSet(run.states[k - 1].grant);
    RisesNow(cfg, run.states[k], c);
  }

  lemma RisesNow<P>(cfg: Config<P>, st: State<P>, c: nat)
    requires Shaped(cfg, st) && c < cfg.channels && Only(st.grant, c) && NoneSet(st.ackD)
    ensures Rises(st)
  {
    assert st.grant[c] && !st.ackD[c];
  }

  lemma {:induction false} SteadyPayload<P>(cfg: Config<P>, run: Run<P>, i: Inputs<P>, k: nat, j: nat)
    requires Steady(cfg, run, i) && k < |run.states| && j < |run.logs[k].granted|
    ensures run.logs[k].granted[j].payload == i.payload
  {
    hide Shaped, Next, StepAt, Rises, Start, RiseVector;
    SteadyAt(cfg, run, i, k);
    if k > 0 && j < |run.logs[k - 1].granted| {
      SteadyPayload(cfg, run, i, k - 1, j);
    }
  }

  /** The entry of a channel that the select output cannot name is not its own word. */
  lemma ForeignEntry(cfg: Config<nat>, g: Grant<nat>, c: nat)
    requires Pow2(cfg.selectWidth) <= c < cfg.channels == |g.payload| && g.payload == seq(cfg.channels, m => m)
    ensures !OwnWord(g, Entry(cfg, g.payload, c))
  {
    hide Pow2;
    ModCases(c, Pow2(cfg.selectWidth));
    ModBound(c, Pow2(cfg.selectWidth));
    var e := Entry(cfg, g.payload, c);
    assert e.grant[c];
    assert e.payload == c % Pow2(cfg.selectWidth);
  }

  /** A channel whose number does not fit the select output: in some run its grant
      rises and another channel's payload is written. */
  lemma ForeignPayloadPushed(cfg: Config<nat>, c: nat) returns (run: Run<nat>, k: nat)
    requires ValidConfig(cfg) && Pow2(cfg.selectWidth) <= c < cfg.channels
    ensures IsRun(cfg, run) && k < |run.states| && !PushesOwn(run.logs[k])
  {
    hide Entry, OwnWord, Shaped, StepAt, Start, RiseVector, Rises, Pow2, Answers, AckedFor;
    var i := Inputs(seq(cfg.channels, m => m == c), seq(cfg.channels, m => m), false);
    run := SteadyRun(cfg, i, MuxPipeline.LEVELS + 6);
    var rise := SteadyRise(cfg, run, i, c);
    k := rise + MuxPipeline.LEVELS + 2;
    var w := EveryRiseIsPushed(cfg, run, rise);
    assert w == c by {
      RiseIsGranted(cfg, run.states[rise], w, c);
    }
    assert run.inputs[rise] == i by {
      SteadyAt(cfg, run, i, rise);
    }
    var j := |run.logs[rise].pushed|;
    OneEntryPerGrant(cfg, run, k);
    SteadyPayload(cfg, run, i, k, j);
    ForeignEntry(cfg, run.logs[k].granted[j], c);
    assert !OwnWord(run.logs[k].granted[j], run.logs[k].pushed[j]);
  }

  lemma RiseIsGranted<P>(cfg: Config<P>, st: State<P>, w: nat, c: nat)
    requires Shaped(cfg, st) && w < cfg.channels && c < cfg.channels
    requires Only(RiseVector(st), w) && Only(st.grant, c)
    ensures w == c
  {
    assert RiseVector(st)[w];
  }

  /** Main result on the select width: in all runs every FIFO write carries the
      payload of the channel whose grant rose, if and only if the select output
      can name all channels. */
  lemma PushesOwnExactly(cfg: Config<nat>)
    requires ValidConfig(cfg)
    ensures (forall run: Run<nat>, k: nat :: IsRun(cfg, run) && k < |run.states| ==> PushesOwn(run.logs[k]))
            <==> cfg.channels <= Pow2(cfg.selectWidth)
  {
    if cfg.channels <= Pow2(cfg.selectWidth) {
      forall run: Run<nat>, k: nat | IsRun(cfg, run) && k < |run.states|
        ensures PushesOwn(run.logs[k])
      {
        SelectableChannelsPushOwn(cfg, run, k);
      }
    } else {
      var run, k := ForeignPayloadPushed(cfg, Pow2(cfg.selectWidth));
    }
  }

  /** With the five select bits that the request path is built with: at most 32 channels. */
  lemma ThirtyTwoChannels(channels: nat)
    requires 1 <= channels <= Pow2(MuxPipeline.LEVELS)
    ensures
      var cfg := Config(channels, 5, 0);
      (forall run: Run<nat>, k: nat :: IsRun(cfg, run) && k < |run.states| ==> PushesOwn(run.logs[k]))
      <==> channels <= 32
  {
    assert Pow2(5) == 32;
    PushesOwnExactly(Config(channels, 5, 0));
  }
}
