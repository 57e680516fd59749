/** The read request path serves its channels: a request that is held is granted, its
    payload is handed to the transmitter a fixed number of clocks later and stays there
    until it is done, and then exactly that channel is acknowledged. */
module RequestService {
  import opened Common
  import opened MrdReqMux
  import TreeArbiter
  import MuxPipeline

  /** Clocks from the rise of a grant to the request of the transmitter. */
  const LATENCY: nat := MuxPipeline.LEVELS + 5

  /** One clock of a run from a phase behind the pipeline. */
  lemma RunMoves<P>(cfg: Config<P>, run: Run<P>, n: nat, ph: Phase<P>) returns (ph': Phase<P>)
    requires IsRun(cfg, run) && n + 1 < |run.states|
    requires Shaped(cfg, run.states[n]) && |run.inputs[n].req| == |run.inputs[n].payload| == cfg.channels
    requires InPhase(cfg, run.states[n], run.inputs[n], ph)
    ensures Shaped(cfg, run.states[n + 1]) && |run.inputs[n + 1].req| == |run.inputs[n + 1].payload| == cfg.channels
    ensures InPhase(cfg, run.states[n + 1], run.inputs[n + 1], ph')
    ensures
      match ph
      case Quiet => ph' == Quiet || ph'.Risen?
      case Risen(w) => w < cfg.channels && ph' == InPipe(w, Entry(cfg, run.inputs[n].payload, w), 1)
      case InPipe(w, e, k) => ph' == if k <= MuxPipeline.LEVELS then InPipe(w, e, k + 1) else Queued(w, e)
      case _ => ph' == AfterBack(run.states[n], run.inputs[n], ph)
  {
    hide Shaped, InPhase, Next;
    assert StepAt(cfg, run, n);
    ph' := PhaseMoves(cfg, run.states[n], run.inputs[n], run.states[n + 1], run.inputs[n + 1], ph);
  }

  /** The phase j clocks after a rise. */
  function PhaseAfter<P>(w: nat, e: Word<P>, j: nat): Phase<P>
    requires j <= LATENCY
  {
    if j == 0 then Risen(w)
    else if j <= MuxPipeline.LEVELS + 1 then InPipe(w, e, j)
    else if j == MuxPipeline.LEVELS + 2 then Queued(w, e)
    else if j == MuxPipeline.LEVELS + 3 then Reading(w, e)
    else if j == MuxPipeline.LEVELS + 4 then Arrived(w, e)
    else Sending(w, e)
  }

  lemma {:induction false} RiseMoves<P>(cfg: Config<P>, run: Run<P>, k: nat, w: nat, j: nat)
    requires IsRun(cfg, run) && k + j < |run.states| && j <= LATENCY
    requires Shaped(cfg, run.states[k]) && |run.inputs[k].req| == |run.inputs[k].payload| == cfg.channels
    requires InPhase(cfg, run.states[k], run.inputs[k], Risen(w))
    ensures w < cfg.channels && Shaped(cfg, run.states[k + j])
    ensures |run.inputs[k + j].req| == |run.inputs[k + j].payload| == cfg.channels
    ensures InPhase(cfg, run.states[k + j], run.inputs[k + j], PhaseAfter(w, Entry(cfg, run.inputs[k].payload, w), j))
  {
    if j == 0 {
      RiseInRange(cfg, run.states[k], run.inputs[k], w);
    } else {
      hide Shaped, InPhase, Entry, IsRun;
      RiseMoves(cfg, run, k, w, j - 1);
      var ph := RunMoves(cfg, run, k + j - 1, PhaseAfter(w, Entry(cfg, run.inputs[k].payload, w), j - 1));
    }
  }

  lemma RiseInRange<P>(cfg: Config<P>, st: State<P>, i: Inputs<P>, w: nat)
    requires Shaped(cfg, st) && |i.req| == |i.payload| == cfg.channels && InPhase(cfg, st, i, Risen(w))
    ensures w < cfg.channels
  {
  }

  /** What the transmitter and the channels see in a phase. */
  lemma PhaseShows<P>(cfg: Config<P>, st: State<P>, i: Inputs<P>, ph: Phase<P>)
    requires Shaped(cfg, st) && |i.req| == |i.payload| == cfg.channels && InPhase(cfg, st, i, ph)
    ensures st.txReq <==> ph.Sending?
    ensures ph.Sending? ==> st.tx == ph.e.payload && st.curr == ph.e.grant
    ensures if ph.Acked? then st.ack == ph.e.grant else NoneSet(st.ack)
  {
    hide Holding, AtStage, TreeArbiter.Descend;
  }

  /** The payload of the channel whose grant rises in clock k is offered to the
      transmitter fourteen clocks later, for the first time. */
  lemma RiseIsSent<P>(cfg: Config<P>, run: Run<P>, k: nat) returns (w: nat)
    requires IsRun(cfg, run) && k + LATENCY < |run.states| && Shaped(cfg, run.states[k]) && Rises(run.states[k])
    ensures w < cfg.channels == |run.inputs[k].payload| && Only(RiseVector(run.states[k]), w)
    ensures
      var st := run.states[k + LATENCY];
      st.txReq && st.tx == Entry(cfg, run.inputs[k].payload, w).payload && Only(st.curr, w)
    ensures forall j :: k <= j < k + LATENCY ==> !run.states[j].txReq
    ensures Shaped(cfg, run.states[k + LATENCY])
    ensures |run.inputs[k + LATENCY].req| == |run.inputs[k + LATENCY].payload| == cfg.channels
    ensures InPhase(cfg, run.states[k + LATENCY], run.inputs[k + LATENCY],
                    Sending(w, Entry(cfg, run.inputs[k].payload, w)))
  {
    assert |run.states| == |run.inputs|;
    hide InPhase, LogInv, Rises, RiseVector, IsRun, Shaped;
    w := RiseHasPhase(cfg, run, k);
    var e := Entry(cfg, run.inputs[k].payload, w);
    RiseMoves(cfg, run, k, w, LATENCY);
    PhaseShows(cfg, run.states[k + LATENCY], run.inputs[k + LATENCY], Sending(w, e));
    forall j | k <= j < k + LATENCY
      ensures !run.states[j].txReq
    {
      RiseMoves(cfg, run, k, w, j - k);
      PhaseShows(cfg, run.states[j], run.inputs[j], PhaseAfter(w, e, j - k));
    }
  }

  /** It is offered until the transmitter is done. */
  lemma {:induction false} SendingLasts<P>(cfg: Config<P>, run: Run<P>, n: nat, ph: Phase<P>, d: nat)
    requires IsRun(cfg, run) && n + d < |run.states| && ph.Sending?
    requires Shaped(cfg, run.states[n]) && |run.inputs[n].req| == |run.inputs[n].payload| == cfg.channels
    requires InPhase(cfg, run.states[n], run.inputs[n], ph)
    requires forall j :: n <= j < n + d ==> !run.inputs[j].txDone
    ensures Shaped(cfg, run.states[n + d])
    ensures |run.inputs[n + d].req| == |run.inputs[n + d].payload| == cfg.channels
    ensures InPhase(cfg, run.states[n + d], run.inputs[n + d], ph)
    ensures
      var st := run.states[n + d];
      st.txReq && st.tx == ph.e.payload && NoneSet(st.ack)
  {
    assert |run.states| == |run.inputs|;
    hide Shaped, InPhase, IsRun;
    if d > 0 {
      SendingLasts(cfg, run, n, ph, d - 1);
      var ph' := RunMoves(cfg, run, n + d - 1, ph);
    }
    PhaseShows(cfg, run.states[n + d], run.inputs[n + d], ph);
  }

  /** Main result on service: whatever the transmitter needs, d clocks here, when it is
      done exactly the channel whose payload it was given is acknowledged. */
  lemma RiseIsAcked<P>(cfg: Config<P>, run: Run<P>, k: nat, d: nat) returns (w: nat)
    requires IsRun(cfg, run) && k + LATENCY + d + 1 < |run.states|
    requires Shaped(cfg, run.states[k]) && Rises(run.states[k])
    requires forall j :: k + LATENCY <= j < k + LATENCY + d ==> !run.inputs[j].txDone
    requires run.inputs[k + LATENCY + d].txDone
    ensures w < cfg.channels == |run.inputs[k].payload| && Only(RiseVector(run.states[k]), w)
    ensures
      var st := run.states[k + LATENCY + d];
      st.txReq && st.tx == Entry(cfg, run.inputs[k].payload, w).payload
    ensures Only(run.states[k + LATENCY + d + 1].ack, w)
  {
    assert |run.states| == |run.inputs|;
    hide InPhase, LogInv, Rises, RiseVector, IsRun, Shaped;
    w := RiseIsSent(cfg, run, k);
    var ph := Sending(w, Entry(cfg, run.inputs[k].payload, w));
    SendingLasts(cfg, run, k + LATENCY, ph, d);
    var ph' := RunMoves(cfg, run, k + LATENCY + d, ph);
    PhaseShows(cfg, run.states[k + LATENCY + d + 1], run.inputs[k + LATENCY + d + 1], ph');
  }

  // Grants come

  lemma QuietMoves<P>(cfg: Config<P>, run: Run<P>, n: nat, w: nat)
    requires IsRun(cfg, run) && n + 1 < |run.states|
    requires Shaped(cfg, run.states[n]) && |run.inputs[n].req| == |run.inputs[n].payload| == cfg.channels
    requires InPhase(cfg, run.states[n], run.inputs[n], Quiet)
    requires TreeArbiter.Chosen(run.states[n].nodes) == w && w < cfg.channels && run.inputs[n].req[w]
    ensures Shaped(cfg, run.states[n + 1]) && Rises(run.states[n + 1])
  {
    hide TreeArbiter.Descend, TreeArbiter.GrantsLeaf, Rounded, MuxPipeline.Next, Pow2;
    assert StepAt(cfg, run, n);
    NextGrant(cfg, run.states[n], run.inputs[n], run.states[n + 1]);
    StaysShaped(cfg, run.states[n], run.inputs[n], run.states[n + 1], Quiet);
    assert run.states[n + 1].ackD == run.states[n].grant;
    assert run.states[n + 1].grant[w] && !run.states[n + 1].ackD[w];
  }

  lemma RisenRises<P>(cfg: Config<P>, st: State<P>, i: Inputs<P>, ph: Phase<P>)
    requires Shaped(cfg, st) && |i.req| == |i.payload| == cfg.channels && InPhase(cfg, st, i, ph) && ph.Risen?
    ensures Rises(st)
  {
    assert st.grant[ph.w] && !st.ackD[ph.w];
  }

  /** Requests that are held for three clocks while the path is free bring a grant. */
  lemma HeldRequestIsGranted<P>(cfg: Config<P>, run: Run<P>, k: nat) returns (j: nat)
    requires IsRun(cfg, run) && k + 3 < |run.states|
    requires Shaped(cfg, run.states[k]) && |run.inputs[k].req| == |run.inputs[k].payload| == cfg.channels
    requires InPhase(cfg, run.states[k], run.inputs[k], Quiet)
    requires run.inputs[k].req == run.inputs[k + 1].req == run.inputs[k + 2].req && true in run.inputs[k].req
    ensures k < j <= k + 3 && Shaped(cfg, run.states[j]) && Rises(run.states[j])
  {
    assert |run.states| == |run.inputs|;
    hide InPhase, Shaped, Rises, TreeArbiter.Chosen;
    var first := RunMoves(cfg, run, k, Quiet);
    if first.Risen? {
      RisenRises(cfg, run.states[k + 1], run.inputs[k + 1], first);
      j := k + 1;
    } else {
      var second := RunMoves(cfg, run, k + 1, Quiet);
      if second.Risen? {
        RisenRises(cfg, run.states[k + 2], run.inputs[k + 2], second);
        j := k + 2;
      } else {
        SettledChoice(cfg, run, k);
        QuietMoves(cfg, run, k + 2, TreeArbiter.Chosen(run.states[k + 2].nodes));
        j := k + 3;
      }
    }
  }

  lemma SettledChoice<P>(cfg: Config<P>, run: Run<P>, k: nat)
    requires IsRun(cfg, run) && k + 3 < |run.states|
    requires Shaped(cfg, run.states[k]) && |run.inputs[k].req| == cfg.channels
    requires run.inputs[k].req == run.inputs[k + 1].req == run.inputs[k + 2].req && true in run.inputs[k].req
    ensures
      var w := TreeArbiter.Chosen(run.states[k + 2].nodes);
      w < cfg.channels && run.inputs[k].req[w]
  {
    assert |run.states| == |run.inputs|;
    NodesMove(cfg, run, k);
    NodesMove(cfg, run, k + 1);
    hide IsRun, Shaped;
    PaddedFits(cfg, run.states[k], run.inputs[k].req);
    hide TreeArbiter.Chosen, Rounded, Padded, TreeArbiter.Next;
    var req, nodes := Padded(run.inputs[k].req, Rounded(cfg.channels, 16)), run.states[k].nodes;
    var c :| 0 <= c < cfg.channels && run.inputs[k].req[c];
    assert req[c];
    ChoiceAfterTwo(nodes, req);
  }

  lemma NodesMove<P>(cfg: Config<P>, run: Run<P>, k: nat)
    requires IsRun(cfg, run) && k + 1 < |run.states|
    ensures Shaped(cfg, run.states[k]) && |run.inputs[k].req| == cfg.channels
    ensures TreeArbiter.Fits(run.states[k].nodes, Padded(run.inputs[k].req, Rounded(cfg.channels, 16)))
    ensures run.states[k + 1].nodes
            == TreeArbiter.Next(run.states[k].nodes, Padded(run.inputs[k].req, Rounded(cfg.channels, 16)))
  {
    hide PipeStep, BackStep, Rounded, TreeArbiter.Chosen, TreeArbiter.GrantsLeaf, TreeArbiter.NextState;
    assert StepAt(cfg, run, k);
    PaddedFits(cfg, run.states[k], run.inputs[k].req);
  }

  lemma ChoiceAfterTwo(nodes: seq<bool>, req: seq<bool>)
    requires TreeArbiter.Fits(nodes, req) && true in req
    ensures
      var w := TreeArbiter.Chosen(TreeArbiter.Next(TreeArbiter.Next(nodes, req), req));
      w < |req| && req[w]
  {
    TreeArbiter.GrantedFromSecondClock(nodes, req, 2);
    hide TreeArbiter.Next, TreeArbiter.Chosen;
    assert TreeArbiter.After(nodes, req, 1) == TreeArbiter.Next(TreeArbiter.After(nodes, req, 0), req);
  }
}
