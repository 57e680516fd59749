/** The address stage with the reply register that answers addresses which do not
    decode, over whole runs: what its counters are worth while every address
    decodes, and what one address that does not decode does to them. */
module AddressIntake {
  import opened Common
  import opened CrossbarAddr
  import AddressMap
  import ThreadTable

  /** The decode error register: the ID to answer, and the beats after this one. A
      write is answered by one beat, a read by as many as were asked for. */
  datatype Reply = NoReply | Replying(id: nat, left: nat)

  /** What the response arbiter hands over in a clock: the last beat of a response to
      a request in flight, or a beat of the reply. */
  datatype Done = Nothing | Response(id: nat) | ReplyBeat

  datatype Offer = Offer(avalid: bool, aid: nat, aaddr: nat, alen: nat, nonsecure: bool,
                         mready: bool, wcReady: bool, done: Done)

  datatype State = State(stage: Stage, rows: seq<ThreadTable.Thread>, total: nat, reply: Reply,
                         flight: seq<ThreadTable.Request>)

  /** A reply completes with its last beat like a request would. */
  predicate ReplyEnds(s: State, i: Offer) {
    i.done.ReplyBeat? && s.reply.Replying? && s.reply.left == 0
  }

  /** What the address stage sees. */
  function ToStage(s: State, i: Offer): Inputs {
    Inputs(i.avalid, i.aid, i.aaddr, i.nonsecure, i.mready, i.wcReady, s.reply.NoReply?,
           i.done.Response? || ReplyEnds(s, i),
           if i.done.Response? then i.done.id else if s.reply.Replying? then s.reply.id else 0)
  }

  function NextReply(wcOutput: bool, s: State, i: Offer): Reply {
    match s.reply
    case Replying(id, left) =>
      if !i.done.ReplyBeat? then s.reply else if left > 0 then Replying(id, left - 1) else NoReply
    case NoReply =>
      if s.stage.rcValid then Replying(i.aid, if wcOutput then 0 else i.alen) else NoReply
  }

  predicate Shaped(cfg: Config, s: State) {
    && ValidConfig(cfg) && |s.rows| == Rows(cfg)
    && s.total < CounterValues(cfg.accept) && ThreadTable.InRange(s.rows, CounterValues(cfg.accept))
  }

  /** Addresses lie in the address space, and what is handed over is there. */
  predicate OfferFits(space: nat, s: State, i: Offer) {
    && i.aaddr < space
    && (i.done.Response? ==> i.done.id in ThreadTable.Ids(s.flight))
    && (i.done.ReplyBeat? ==> s.reply.Replying?)
  }

  /** A clock: the offer, the slot it decodes to, and whether a request starts. */
  datatype Edge = Edge(offer: Offer, hit: Option<(nat, nat)>, started: bool)

  /** One clock of all registers. Only responses end what is in flight. */
  predicate Next(cfg: Config, s: State, k: Edge, s': State)
    requires Shaped(cfg, s)
  {
    var i, values := ToStage(s, k.offer), CounterValues(cfg.accept);
    var r := Request(i, k.hit);
    && AddressMap.LastHit(cfg.amap, i.nonsecure, i.aaddr, |cfg.amap.secure|, 0, k.hit)
    && Decides(cfg, s.stage, s.rows, s.total, i, k.hit, k.started)
    && s'.stage == NextStage(cfg.wcOutput, s.stage, i, k.hit, k.started)
    && s'.rows == ThreadTable.NextRows(s.rows, k.started, r, i.cplValid, i.cplId, values)
    && s'.total == Counted(s.total, k.started, i.cplValid, values)
    && s'.reply == NextReply(cfg.wcOutput, s, k.offer)
    && s'.flight == ThreadTable.NextFlight(s.flight, k.started, r, k.offer.done.Response?,
                                           if k.offer.done.Response? then k.offer.done.id else 0)
  }

  /** If an address is looked at in this clock, it decodes. */
  predicate Decodes(s: State, k: Edge) {
    Looks(s.stage, ToStage(s, k.offer)) ==> k.hit.Some?
  }

  function Reset(cfg: Config): State {
    State(Stage(false, false, 0, 0, false, false, false, false),
          seq(Rows(cfg), _ => ThreadTable.Thread(0, 0, 0, 0)), 0, NoReply, [])
  }

  datatype Run = Run(states: seq<State>, clocks: seq<Edge>)

  predicate StepAt(cfg: Config, space: nat, run: Run, k: nat)
    requires |run.states| == |run.clocks| + 1 && k < |run.clocks|
  {
    && Shaped(cfg, run.states[k]) && OfferFits(space, run.states[k], run.clocks[k].offer)
    && Next(cfg, run.states[k], run.clocks[k], run.states[k + 1])
  }

  predicate IsRun(cfg: Config, space: nat, run: Run) {
    && |run.states| == |run.clocks| + 1 && run.states[0] == Reset(cfg)
    && forall k :: 0 <= k < |run.clocks| ==> StepAt(cfg, space, run, k)
  }

  /** The address stage and the reply register of one slave interface. */
  class Intake {
    const addr: Decoder
    var replyValid: bool
    var replyId: nat
    var replyLeft: nat
    // The requests admitted whose last response beat has not been handed over.
    ghost var flight: seq<ThreadTable.Request>

    ghost predicate Valid()
      reads this, addr
    {
      addr.Valid()
    }

    ghost function Abs(): State
      reads this, addr
    {
      State(addr.Control(), addr.threads, addr.transCount,
            if replyValid then Replying(replyId, replyLeft) else NoReply, flight)
    }

    constructor (cfg: Config)
      requires ValidConfig(cfg)
      ensures Valid() && fresh(addr) && addr.cfg == cfg && Abs() == Reset(cfg)
    {
      addr := new Decoder(cfg);
      replyValid, replyId, replyLeft := false, 0, 0;
      flight := [];
    }

    /** The reply register loads, counts its beats and empties. */
    method LoadReply(rcValid: bool, offer: Offer)
      modifies this`replyValid, this`replyId, this`replyLeft
      ensures (if replyValid then Replying(replyId, replyLeft) else NoReply) ==
                if old(replyValid) then
                  if !offer.done.ReplyBeat? then Replying(old(replyId), old(replyLeft))
                  else if old(replyLeft) > 0 then Replying(old(replyId), old(replyLeft) - 1)
                  else NoReply
                else if rcValid then Replying(offer.aid, if addr.cfg.wcOutput then 0 else offer.alen)
                else NoReply
    {
      if replyValid {
        if offer.done.ReplyBeat? {
          if replyLeft > 0 {
            replyLeft := replyLeft - 1;
          } else {
            replyValid := false;
          }
        }
      } else if rcValid {
        replyValid, replyId := true, offer.aid;
        replyLeft := if addr.cfg.wcOutput then 0 else offer.alen;
      }
    }

    method Clock(offer: Offer) returns (hit: Option<(nat, nat)>, started: bool)
      requires Valid()
      modifies this, addr
      ensures Valid() && Shaped(addr.cfg, old(Abs()))
      ensures Next(addr.cfg, old(Abs()), Edge(offer, hit, started), Abs())
      ensures started ==> Looks(old(Abs()).stage, ToStage(old(Abs()), offer)) && hit.Some?
    {
      hide AddressMap.LastHit, Decides, NextStage, ThreadTable.NextRows, ThreadTable.NextFlight, Counted, CounterValues;
      hide Decoder.Stepped, Request, Looks, ThreadTable.InRange, ValidConfig, Decoder.Tracking;
      var rcValid := addr.rcValid;
      var i := StageInputs(offer);
      hit, started := addr.Clock(i);
      LoadReply(rcValid, offer);
      flight := ThreadTable.NextFlight(flight, started, Request(i, hit), offer.done.Response?,
                                       if offer.done.Response? then offer.done.id else 0);
    }

    /** The wires into the address stage. */
    function StageInputs(offer: Offer): (i: Inputs)
      reads this, addr
      ensures i == ToStage(Abs(), offer)
    {
      var ends := replyValid && replyLeft == 0 && offer.done.ReplyBeat?;
      Inputs(offer.avalid, offer.aid, offer.aaddr, offer.nonsecure, offer.mready, offer.wcReady, !replyValid,
             offer.done.Response? || ends,
             if offer.done.Response? then offer.done.id else if replyValid then replyId else 0)
    }
  }

  // While every address decodes

  /** The counters stand for the requests in flight, and no error is under way. */
  ghost predicate Sound(cfg: Config, s: State) {
    && Shaped(cfg, s) && Tracked(cfg, s.rows, s.total, s.flight)
    && s.reply == NoReply && !s.stage.rcValid
  }

  lemma SoundKept(cfg: Config, space: nat, s: State, k: Edge, s': State)
    requires Sound(cfg, s) && OfferFits(space, s, k.offer) && Next(cfg, s, k, s') && Decodes(s, k)
    ensures Sound(cfg, s')
    ensures k.started <==> Starts(cfg, |s.rows|, s.flight, s.stage, ToStage(s, k.offer), k.hit)
  {
    hide AddressMap.LastHit, Tracked, Request, CounterValues, ThreadTable.InRange, ThreadTable.NextFlight, Starts;
    KeepsTracking(cfg, s.stage, s.rows, s.total, s.flight, ToStage(s, k.offer), k.hit, k.started);
    hide Decides, ThreadTable.NextRows, Counted;
  }

  /** Same-ID ordering over whole runs. As long as every address looked at decodes,
      in every state the active rows have different IDs, each counts the requests in
      flight with its ID, all of these went to the place the row records, the counts
      add up to the total, and the total is the number in flight, at most S_ACCEPT. */
  lemma {:induction false} DecodingRunIsTracked(cfg: Config, space: nat, run: Run, n: nat)
    requires ValidConfig(cfg) && IsRun(cfg, space, run) && n < |run.states|
    requires forall k :: 0 <= k < n ==> Decodes(run.states[k], run.clocks[k])
    ensures Sound(cfg, run.states[n])
    ensures ThreadTable.Sum(run.states[n].rows, |run.states[n].rows|) == run.states[n].total
  {
    if n == 0 {
      ResetIsSound(cfg);
    } else {
      DecodingRunIsTracked(cfg, space, run, n - 1);
      assert StepAt(cfg, space, run, n - 1);
      assert Decodes(run.states[n - 1], run.clocks[n - 1]);
      SoundKept(cfg, space, run.states[n - 1], run.clocks[n - 1], run.states[n]);
    }
    ThreadTable.CountsSumToFlight(run.states[n].rows, run.states[n].flight);
  }

  lemma ResetIsSound(cfg: Config)
    requires ValidConfig(cfg)
    ensures Sound(cfg, Reset(cfg))
  {
  }

  /** An address handed off: its ID and where the stage's registers send it. */
  datatype Sent = Sent(id: nat, select: nat, region: nat)

  /** The oldest address with this ID is answered. */
  function Answered(sent: seq<Sent>, id: nat): seq<Sent> {
    if sent == [] then []
    else if sent[0].id == id then sent[1..]
    else [sent[0]] + Answered(sent[1..], id)
  }

  /** The addresses handed off in the first n clocks and not yet answered, oldest first. */
  function Unanswered(run: Run, n: nat): seq<Sent>
    requires |run.states| == |run.clocks| + 1 && n < |run.states|
  {
    if n == 0 then []
    else
      var k, stage := run.clocks[n - 1], run.states[n].stage;
      var before := Unanswered(run, n - 1);
      (if k.offer.done.Response? then Answered(before, k.offer.done.id) else before)
      + (if k.started then [Sent(k.offer.aid, stage.select, stage.region)] else [])
  }

  /** The requests in flight are these addresses. */
  predicate Mirrors(flight: seq<ThreadTable.Request>, sent: seq<Sent>) {
    && |flight| == |sent|
    && forall k :: 0 <= k < |sent| ==> flight[k] == ThreadTable.Request(sent[k].id, sent[k].select, sent[k].region)
  }

  lemma {:induction false} RetireMirrors(flight: seq<ThreadTable.Request>, sent: seq<Sent>, id: nat)
    requires Mirrors(flight, sent)
    ensures Mirrors(ThreadTable.Retire(flight, id), Answered(sent, id))
  {
    if sent != [] && sent[0].id != id {
      RetireMirrors(flight[1..], sent[1..], id);
    }
  }

  lemma FlightMirrors(cfg: Config, s: State, k: Edge, s': State, sent: seq<Sent>)
    requires Shaped(cfg, s) && Next(cfg, s, k, s') && Mirrors(s.flight, sent)
    ensures
      Mirrors(s'.flight, (if k.offer.done.Response? then Answered(sent, k.offer.done.id) else sent)
                         + (if k.started then [Sent(k.offer.aid, s'.stage.select, s'.stage.region)] else []))
  {
    hide AddressMap.LastHit, ThreadTable.NextRows, ThreadTable.Admits, Looks, NextStage, Request;
    RequestIsHandedOff(cfg.wcOutput, s.stage, ToStage(s, k.offer), k.hit, k.started);
    if k.offer.done.Response? {
      RetireMirrors(s.flight, sent, k.offer.done.id);
    }
  }

  /** In every run the requests in flight are the addresses handed off and not yet
      answered, and each goes where the registers sent it. */
  lemma {:induction false} FlightIsUnanswered(cfg: Config, space: nat, run: Run, n: nat)
    requires IsRun(cfg, space, run) && n < |run.states|
    ensures Mirrors(run.states[n].flight, Unanswered(run, n))
  {
    if n > 0 {
      hide Mirrors, Next, OfferFits, Shaped;
      FlightIsUnanswered(cfg, space, run, n - 1);
      assert StepAt(cfg, space, run, n - 1);
      FlightMirrors(cfg, run.states[n - 1], run.clocks[n - 1], run.states[n], Unanswered(run, n - 1));
    } else {
      assert Unanswered(run, 0) == [];
    }
  }

  /** Same-ID ordering: as long as every address decodes, addresses with one ID that
      are on their way together were sent to one master interface and region. */
  lemma DecodingRunKeepsOrder(cfg: Config, space: nat, run: Run, n: nat, a: Sent, b: Sent)
    requires ValidConfig(cfg) && IsRun(cfg, space, run) && n < |run.states|
    requires forall k :: 0 <= k < n ==> Decodes(run.states[k], run.clocks[k])
    requires a in Unanswered(run, n) && b in Unanswered(run, n) && a.id == b.id
    ensures a.select == b.select && a.region == b.region
  {
    DecodingRunIsTracked(cfg, space, run, n);
    FlightIsUnanswered(cfg, space, run, n);
    hide IsRun, Unanswered;
    var q, r := ThreadTable.Request(a.id, a.select, a.region), ThreadTable.Request(b.id, b.select, b.region);
    assert q in run.states[n].flight && r in run.states[n].flight;
    ThreadTable.SameIdSamePlace(run.states[n].rows, run.states[n].flight, q, r);
  }

  /** And each was sent to a slot that serves its address. */
  lemma SentWhereServed(cfg: Config, space: nat, run: Run, k: nat)
    requires IsRun(cfg, space, run) && k < |run.clocks| && run.clocks[k].started
    ensures AddressMap.ValidMap(cfg.amap)
    ensures
      var offer, stage := run.clocks[k].offer, run.states[k + 1].stage;
      stage.avalid && AddressMap.Found(cfg.amap, offer.nonsecure, offer.aaddr, Some((stage.select, stage.region)))
  {
    assert StepAt(cfg, space, run, k);
    var s, c := run.states[k], run.clocks[k];
    hide ThreadTable.NextRows, ThreadTable.NextFlight, ThreadTable.Admits, AddressMap.LastHit, AddressMap.Found;
    RequestIsHandedOff(cfg.wcOutput, s.stage, ToStage(s, c.offer), c.hit, c.started);
    AddressMap.LastHitIsFound(cfg.amap, c.offer.nonsecure, c.offer.aaddr, c.hit);
  }

  /** When an address starts, told without the table. With its ID in flight it starts
      exactly if those requests went to the same place; with a new ID, exactly if fewer
      different IDs are in flight than S_THREADS and than S_ACCEPT. */
  lemma StartsExactly(cfg: Config, space: nat, s: State, k: Edge, s': State)
    requires Sound(cfg, s) && OfferFits(space, s, k.offer) && Next(cfg, s, k, s') && Decodes(s, k)
    ensures
      var id, ids := k.offer.aid, ThreadTable.Ids(s.flight);
      k.started <==>
      && !s.stage.decode && !s.stage.aready && k.offer.avalid
      && (|s.flight| < cfg.accept || k.offer.done.Response?)
      && (if id in ids
          then forall q :: q in s.flight && q.id == id ==> (q.dest, q.region) == k.hit.value
          else |ids| < cfg.threads && |ids| < cfg.accept)
  {
    SoundKept(cfg, space, s, k, s');
    hide Next, Tracked, ThreadTable.Ids, OfferFits;
  }

  // When an address does not decode

  /** Clock by clock: from a state in which the counters are right the total stays the
      number of requests in flight exactly if no reply to such an address ends. */
  lemma ReplyMiscounts(cfg: Config, space: nat, s: State, k: Edge, s': State)
    requires Shaped(cfg, s) && Tracked(cfg, s.rows, s.total, s.flight)
    requires OfferFits(space, s, k.offer) && Next(cfg, s, k, s')
    ensures s'.total == |s'.flight| <==> !ReplyEnds(s, k.offer)
  {
    hide AddressMap.LastHit, ThreadTable.Tracks, ThreadTable.Admits, ThreadTable.NextRows, ThreadTable.NextFlight,
         Request;
    var id := if k.offer.done.Response? then k.offer.done.id else 0;
    ThreadTable.CountPositive(s.flight, id);
    ThreadTable.NextCounts(s.flight, k.started, Request(ToStage(s, k.offer), k.hit), k.offer.done.Response?, id, id);
    assert CounterValues(cfg.accept) > 1;
    hide CounterValues, ThreadTable.CountId;
  }

  /** The total has wrapped around with nothing in flight. */
  predicate LockedOut(cfg: Config, s: State) {
    Shaped(cfg, s) && s.total >= cfg.accept && s.flight == [] && s.reply == NoReply && !s.stage.rcValid
  }

  lemma LockedOutKept(cfg: Config, space: nat, s: State, k: Edge, s': State)
    requires LockedOut(cfg, s) && OfferFits(space, s, k.offer) && Next(cfg, s, k, s') && Decodes(s, k)
    ensures !k.started && LockedOut(cfg, s')
  {
    hide AddressMap.LastHit, CounterValues, ThreadTable.Admits, ThreadTable.NextRow, ThreadTable.StartBits;
  }

  lemma {:induction false} NeverStartsAgain(cfg: Config, space: nat, run: Run, m: nat, n: nat)
    requires IsRun(cfg, space, run) && m <= n < |run.states| && LockedOut(cfg, run.states[m])
    requires forall k :: m <= k < n ==> Decodes(run.states[k], run.clocks[k])
    ensures LockedOut(cfg, run.states[n])
    ensures forall k :: m <= k < n ==> !run.clocks[k].started
    decreases n
  {
    if m < n {
      NeverStartsAgain(cfg, space, run, m, n - 1);
      assert StepAt(cfg, space, run, n - 1);
      assert Decodes(run.states[n - 1], run.clocks[n - 1]);
      LockedOutKept(cfg, space, run.states[n - 1], run.clocks[n - 1], run.states[n]);
    }
  }

  /** One address with ID 0 is offered until it is accepted, and its reply is handed over. */
  function ErrorOffer(nonsecure: bool, addr: nat, k: nat): Offer {
    Offer(k < 3, 0, addr, 0, nonsecure, false, true, if k == 2 then ReplyBeat else Nothing)
  }

  function ErrorState(cfg: Config, k: nat): State {
    var s := Reset(cfg);
    if k == 0 then s
    else if k == 1 then s.(stage := Stage(true, false, 0, 0, false, true, cfg.wcOutput, true))
    else if k == 2 then s.(stage := Stage(false, true, 0, 0, false, true, false, false), reply := Replying(0, 0))
    else s.(stage := Stage(false, false, 0, 0, false, true, false, false), total := CounterValues(cfg.accept) - 1)
  }

  function ErrorRun(cfg: Config, nonsecure: bool, addr: nat): Run {
    Run([ErrorState(cfg, 0), ErrorState(cfg, 1), ErrorState(cfg, 2), ErrorState(cfg, 3)],
        [Edge(ErrorOffer(nonsecure, addr, 0), None, false), Edge(ErrorOffer(nonsecure, addr, 1), None, false),
         Edge(ErrorOffer(nonsecure, addr, 2), None, false)])
  }

  predicate Undecodable(cfg: Config, nonsecure: bool, addr: nat)
    requires AddressMap.ValidMap(cfg.amap)
  {
    AddressMap.LastHit(cfg.amap, nonsecure, addr, |cfg.amap.secure|, 0, None)
  }

  lemma IdleRowsStay(cfg: Config, r: ThreadTable.Request, complete: bool)
    requires ValidConfig(cfg)
    ensures
      var rows := Reset(cfg).rows;
      && ThreadTable.InRange(rows, CounterValues(cfg.accept))
      && ThreadTable.NextRows(rows, false, r, complete, 0, CounterValues(cfg.accept)) == rows
  {
    hide CounterValues, ThreadTable.StartBits;
    var rows := Reset(cfg).rows;
    assert forall k :: 0 <= k < |rows| ==>
        ThreadTable.NextRows(rows, false, r, complete, 0, CounterValues(cfg.accept))[k] == rows[k];
  }

  lemma ErrorSteps(cfg: Config, space: nat, nonsecure: bool, addr: nat, k: nat)
    requires ValidConfig(cfg) && Undecodable(cfg, nonsecure, addr) && addr < space && k < 3
    ensures StepAt(cfg, space, ErrorRun(cfg, nonsecure, addr), k)
  {
    var s, i := ErrorState(cfg, k), ErrorOffer(nonsecure, addr, k);
    IdleRowsStay(cfg, Request(ToStage(s, i), None), k == 2);
    hide AddressMap.LastHit, ThreadTable.NextRows, ThreadTable.InRange, CounterValues, ThreadTable.Admits;
  }

  /** One address that does not decode, once answered, locks the interface out: in
      whatever way the run goes on, as long as every address decodes from then on,
      no request starts any more. */
  lemma UndecodableAddressLocksOut(cfg: Config, space: nat, nonsecure: bool, addr: nat) returns (run: Run)
    requires ValidConfig(cfg) && Undecodable(cfg, nonsecure, addr) && addr < space
    ensures IsRun(cfg, space, run) && |run.clocks| == 3
    ensures forall k :: 0 <= k < 3 && Looks(run.states[k].stage, ToStage(run.states[k], run.clocks[k].offer)) ==> k == 0
    ensures LockedOut(cfg, run.states[3])
            && !Tracked(cfg, run.states[3].rows, run.states[3].total, run.states[3].flight)
    ensures forall longer: Run, n: nat ::
              && IsRun(cfg, space, longer) && 3 <= n < |longer.clocks| && longer.states[3] == run.states[3]
              && (forall k :: 3 <= k <= n ==> Decodes(longer.states[k], longer.clocks[k]))
              ==> !longer.clocks[n].started
  {
    run := ErrorRun(cfg, nonsecure, addr);
    forall k | 0 <= k < 3
      ensures StepAt(cfg, space, run, k)
    {
      ErrorSteps(cfg, space, nonsecure, addr, k);
    }
    IdleRowsStay(cfg, Request(ToStage(run.states[0], run.clocks[0].offer), None), false);
    hide StepAt, CounterValues, ThreadTable.InRange;
    forall longer: Run, n: nat |
      && IsRun(cfg, space, longer) && 3 <= n < |longer.clocks| && longer.states[3] == run.states[3]
      && (forall k :: 3 <= k <= n ==> Decodes(longer.states[k], longer.clocks[k]))
      ensures !longer.clocks[n].started
    {
      NeverStartsAgain(cfg, space, longer, 3, n + 1);
    }
  }

  /** Every address of the space decodes, for every access. */
  ghost predicate EveryAddressDecodes(cfg: Config, space: nat)
    requires AddressMap.ValidMap(cfg.amap)
  {
    forall nonsecure: bool, addr: nat :: addr < space ==> !Undecodable(cfg, nonsecure, addr)
  }

  /** The counters stand for the requests in flight in every run. */
  ghost predicate AlwaysTracked(cfg: Config, space: nat) {
    forall run: Run, n: nat :: IsRun(cfg, space, run) && n < |run.states| ==>
      Tracked(cfg, run.states[n].rows, run.states[n].total, run.states[n].flight)
  }

  /** Main result: thread table and total are true to the requests in flight in all
      runs if and only if every address decodes. */
  lemma TrackedExactlyIfAllDecode(cfg: Config, space: nat)
    requires ValidConfig(cfg)
    ensures AlwaysTracked(cfg, space) <==> EveryAddressDecodes(cfg, space)
  {
    hide Tracked, Undecodable;
    if EveryAddressDecodes(cfg, space) {
      forall run: Run, n: nat | IsRun(cfg, space, run) && n < |run.states|
        ensures Tracked(cfg, run.states[n].rows, run.states[n].total, run.states[n].flight)
      {
        forall k | 0 <= k < n
          ensures Decodes(run.states[k], run.clocks[k])
        {
          assert StepAt(cfg, space, run, k);
          HitUnlessUndecodable(cfg, run.states[k], run.clocks[k], run.states[k + 1]);
        }
        DecodingRunIsTracked(cfg, space, run, n);
      }
    } else {
      var nonsecure: bool, addr: nat :| addr < space && Undecodable(cfg, nonsecure, addr);
      var run := UndecodableAddressLocksOut(cfg, space, nonsecure, addr);
    }
  }

  lemma HitUnlessUndecodable(cfg: Config, s: State, k: Edge, s': State)
    requires Shaped(cfg, s) && Next(cfg, s, k, s')
    ensures k.hit.None? ==> Undecodable(cfg, k.offer.nonsecure, k.offer.aaddr)
  {
  }
}
