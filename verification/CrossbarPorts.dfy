/** The registers of one slave and one master interface of the write crossbar,
    clocked as in the source, and tied to the clock steps of WriteRouting. */
module CrossbarPorts {
  import opened Common
  import opened WriteRouting
  import RoundRobin
  import AddressMap
  import CrossbarAddr
  import AddressIntake
  import ThreadTable
  import IssueLimit
  import ResponseRouting

  /** Without a decode error the address stage moves as WriteRouting has it. */
  lemma StageIsSlave(s: CrossbarAddr.Stage, i: CrossbarAddr.Inputs, hit: Option<(nat, nat)>, started: bool,
                     wsel: nat, wval: bool, lastTaken: bool)
    requires !s.decerr && !s.rcValid && i.wcReady == !wval
    requires CrossbarAddr.Looks(s, i) ==> hit.Some?
    requires started ==> CrossbarAddr.Looks(s, i)
    ensures
      var s' := CrossbarAddr.NextStage(true, s, i, hit, started);
      var routed := s.wcValid && !wval;
      && !s'.decerr && !s'.rcValid
      && Slave(s'.decode, s'.select, s'.avalid, s'.wcValid, if routed then s.select else wsel,
               routed || (wval && !lastTaken))
         == SlaveNext(Slave(s.decode, s.select, s.avalid, s.wcValid, wsel, wval),
                      if CrossbarAddr.Looks(s, i) then Some(hit.value.0) else None, started, i.mready, lastTaken)
  {
  }

  /** The registers of a slave interface as the write routing sees them. */
  function Seen(s: CrossbarAddr.Stage, r: Route): Slave {
    Slave(s.decode, s.select, s.avalid, s.wcValid, r.select, r.valid)
  }

  predicate NoError(s: CrossbarAddr.Stage, r: Route) {
    !s.decerr && !s.rcValid && !r.drop
  }

  lemma IntakeIsSlave(cfg: CrossbarAddr.Config, s: AddressIntake.State, k: AddressIntake.Edge, s': AddressIntake.State,
                      r: Route, lastTaken: bool)
    requires AddressIntake.Shaped(cfg, s) && AddressIntake.Next(cfg, s, k, s') && cfg.wcOutput
    requires NoError(s.stage, r) && k.offer.wcReady == !r.valid && AddressIntake.Decodes(s, k)
    requires k.started ==> CrossbarAddr.Looks(s.stage, AddressIntake.ToStage(s, k.offer))
    ensures
      var r' := NextRoute(r, s.stage.wcValid, s.stage.select, s.stage.decerr, lastTaken);
      && NoError(s'.stage, r')
      && Seen(s'.stage, r') == SlaveNext(Seen(s.stage, r), Decoded(s, k), k.started, k.offer.mready, lastTaken)
  {
    hide CrossbarAddr.Decides, AddressMap.LastHit, ThreadTable.NextRows, ThreadTable.NextFlight, Counted, SlaveNext;
    hide CrossbarAddr.NextStage;
    StageIsSlave(s.stage, AddressIntake.ToStage(s, k.offer), k.hit, k.started, r.select, r.valid, lastTaken);
  }

  /** The write command registers: a waiting command enters when they are free, and
      a last beat frees them. */
  datatype Route = Route(select: nat, drop: bool, valid: bool)

  function NextRoute(r: Route, wcValid: bool, wcSelect: nat, wcDecerr: bool, lastTaken: bool): Route {
    if wcValid && !r.valid then Route(wcSelect, wcDecerr, true)
    else Route(r.select, r.drop && !lastTaken, r.valid && !lastTaken)
  }

  /** One clock of a slave interface: the address stage with its counters and reply
      register, and the write routing, which takes and drops the data of an address
      that did not decode; while all addresses decode it is a step of the routing model. */
  predicate SlaveClocked(cfg: CrossbarAddr.Config, s: AddressIntake.State, r: Route, k: AddressIntake.Edge,
                         wvalid: bool, wready: bool, wlast: bool, s': AddressIntake.State, r': Route)
  {
    && AddressIntake.Shaped(cfg, s) && AddressIntake.Next(cfg, s, k, s')
    && r' == NextRoute(r, s.stage.wcValid, s.stage.select, s.stage.decerr, wvalid && (wready || r.drop) && wlast)
    && (NoError(s.stage, r) && AddressIntake.Decodes(s, k) ==>
          && NoError(s'.stage, r')
          && Seen(s'.stage, r') == SlaveNext(Seen(s.stage, r), Decoded(s, k), k.started, k.offer.mready,
                                             wvalid && wready && wlast))
  }

  /** The destination of an address that is looked at in this clock. */
  function Decoded(s: AddressIntake.State, k: AddressIntake.Edge): Option<nat> {
    if CrossbarAddr.Looks(s.stage, AddressIntake.ToStage(s, k.offer)) && k.hit.Some? then Some(k.hit.value.0) else None
  }

  class SlavePort {
    const intake: AddressIntake.Intake
    var wSelect: nat
    var wDrop: bool
    var wSelectValid: bool

    ghost predicate Valid()
      reads this, intake, intake.addr
    {
      intake.Valid() && intake.addr.cfg.wcOutput
    }

    /** No decode error is under way in the address stage or in the write routing. */
    ghost predicate Clean()
      reads this, intake, intake.addr
    {
      NoError(intake.Abs().stage, Routing())
    }

    ghost function Abs(): Slave
      reads this, intake, intake.addr
    {
      Seen(intake.Abs().stage, Routing())
    }

    function Routing(): Route
      reads this
    {
      Route(wSelect, wDrop, wSelectValid)
    }

    constructor (cfg: CrossbarAddr.Config)
      requires CrossbarAddr.ValidConfig(cfg) && cfg.wcOutput
      ensures Valid() && Clean() && Abs() == IDLE_SLAVE
      ensures fresh(intake) && fresh(intake.addr) && intake.addr.cfg == cfg
      ensures intake.Abs() == AddressIntake.Reset(cfg)
    {
      intake := new AddressIntake.Intake(cfg);
      wSelect, wDrop, wSelectValid := 0, false, false;
    }

    /** The write command is taken by a free select register. */
    predicate WcReady()
      reads this
    {
      !wSelectValid
    }

    /** int_s_axi_wready, from the ready wire of the selected master interface. */
    predicate WReadyOut(wready: bool)
      reads this
    {
      wready || wDrop
    }

    method LoadSelect(wcValid: bool, wcSelect: nat, wcDecerr: bool, lastTaken: bool)
      modifies this`wSelect, this`wDrop, this`wSelectValid
      ensures Routing() == NextRoute(old(Routing()), wcValid, wcSelect, wcDecerr, lastTaken)
    {
      if wcValid && !wSelectValid {
        wSelect, wDrop, wSelectValid := wcSelect, wcDecerr, true;
      } else {
        wDrop, wSelectValid := wDrop && !lastTaken, wSelectValid && !lastTaken;
      }
    }

    method Clock(offer: AddressIntake.Offer, wvalid: bool, wready: bool, wlast: bool)
      returns (hit: Option<(nat, nat)>, started: bool)
      requires Valid() && offer.wcReady == WcReady()
      modifies this, intake, intake.addr
      ensures Valid()
      ensures SlaveClocked(intake.addr.cfg, old(intake.Abs()), old(Routing()), AddressIntake.Edge(offer, hit, started),
                           wvalid, wready, wlast, intake.Abs(), Routing())
    {
      hide SlaveNext, CrossbarAddr.Looks, CrossbarAddr.Decoder.Valid, AddressIntake.Shaped, AddressIntake.Next,
           NextRoute;
      hide AddressIntake.ToStage, Seen, NoError;
      ghost var clean, route, before := Clean(), Routing(), intake.Abs();
      var lastTaken := wvalid && WReadyOut(wready) && wlast;
      var wcValid, wcSelect, wcDecerr := intake.addr.wcValid, intake.addr.select, intake.addr.decerr;
      hit, started := intake.Clock(offer);
      LoadSelect(wcValid, wcSelect, wcDecerr, lastTaken);
      if clean && AddressIntake.Decodes(before, AddressIntake.Edge(offer, hit, started)) {
        NotDropped(before.stage, route);
        IntakeIsSlave(intake.addr.cfg, before, AddressIntake.Edge(offer, hit, started), intake.Abs(), route, lastTaken);
      }
    }
  }

  lemma NotDropped(s: CrossbarAddr.Stage, r: Route)
    requires NoError(s, r)
    ensures !r.drop
  {
  }

  /** One clock of a master interface, with the limit from its register. */
  predicate MasterClocked(issue: nat, t: Master, reg: nat, wanted: seq<bool>, awReady: bool, lastTaken: bool,
                          complete: bool, t': Master, reg': nat)
  {
    && RoundRobin.InRange(ArbiterConfig(|wanted|), t.arb) && reg < CounterValues(issue)
    && MasterNext(t, wanted, IssueLimit.Limited(issue, reg, complete), awReady, lastTaken, t')
    && reg' == Counted(reg, Acked(t, wanted, awReady), complete, CounterValues(issue))
  }

  class MasterPort {
    const arb: RoundRobin.Arbiter
    const issue: nat
    var wSelect: nat
    var wSelectValid: bool
    var wSelectNew: bool
    var transCount: nat

    ghost predicate Valid()
      reads this, arb
    {
      && arb.Valid() && arb.cfg == ArbiterConfig(arb.cfg.ports)
      && transCount < CounterValues(issue)
    }

    ghost function Abs(): Master
      reads this, arb
    {
      Master(arb.Abs(), wSelect, wSelectValid, wSelectNew)
    }

    constructor (slaves: nat, issue: nat)
      requires slaves > 0
      ensures Valid() && fresh(arb) && arb.cfg.ports == slaves && this.issue == issue
      ensures Abs() == IdleMaster(slaves) && transCount == 0
    {
      arb := new RoundRobin.Arbiter(ArbiterConfig(slaves));
      this.issue := issue;
      wSelect, wSelectValid, wSelectNew, transCount := 0, false, true, 0;
    }

    predicate Limit(transComplete: bool)
      reads this
    {
      IssueLimit.Limited(issue, transCount, transComplete)
    }

    /** The next values of the write data routing registers. */
    method Route(wanted: seq<bool>, awReady: bool, lastTaken: bool)
      returns (select: nat, selectValid: bool, selectNew: bool, transStart: bool)
      requires Valid() && |wanted| == arb.cfg.ports
      ensures transStart == Acked(Abs(), wanted, awReady)
      ensures selectValid == RouteNext(Abs(), lastTaken)
      ensures select == if TakesRoute(Abs()) then Abs().arb.holder.value else wSelect
      ensures selectNew == (!TakesRoute(Abs()) && (wSelectNew || Abs().arb.holder.None? || transStart))
    {
      transStart := arb.grantValid && wanted[arb.grantEncoded] && awReady;
      select, selectValid := wSelect, wSelectValid && !lastTaken;
      selectNew := wSelectNew || !arb.grantValid || transStart;
      if arb.grantValid && !wSelectValid && wSelectNew {
        select, selectValid, selectNew := arb.grantEncoded, true, false;
      }
    }

    /** One clock: arbitration, write data routing and the in-flight count. */
    method Clock(wanted: seq<bool>, awReady: bool, lastTaken: bool, transComplete: bool)
      requires Valid() && |wanted| == arb.cfg.ports
      modifies this, arb
      ensures Valid()
      ensures MasterClocked(issue, old(Abs()), old(transCount), wanted, awReady, lastTaken, transComplete, Abs(),
                            transCount)
    {
      hide RoundRobin.Next, CounterValues, Requests, Acknowledges, RoundRobin.Position;
      hide Acked, RouteNext, TakesRoute, Counted;
      var limit := Limit(transComplete);
      var select, selectValid, selectNew, transStart := Route(wanted, awReady, lastTaken);
      var request, acknowledge := Vectors(wanted, limit, lastTaken, selectValid, awReady);
      arb.Clock(request, acknowledge);
      wSelect, wSelectValid, wSelectNew := select, selectValid, selectNew;
      transCount := Counted(transCount, transStart, transComplete, CounterValues(issue));
    }

    /** a_request and a_acknowledge, one bit per slave interface. */
    method Vectors(wanted: seq<bool>, limit: bool, ghost lastTaken: bool, selectValid: bool, awReady: bool)
      returns (request: seq<bool>, acknowledge: seq<bool>)
      requires Valid() && |wanted| == arb.cfg.ports && selectValid == RouteNext(Abs(), lastTaken)
      ensures |request| == |acknowledge| == |wanted|
      ensures request == Requests(Abs(), wanted, limit, lastTaken)
      ensures acknowledge == Acknowledges(Abs(), wanted, awReady)
    {
      request, acknowledge := [], [];
      for m := 0 to |wanted|
        invariant |request| == |acknowledge| == m
        invariant forall k :: 0 <= k < m ==>
                    request[k] == (wanted[k] && arb.Abs().holder != Some(k) && !limit && !selectValid)
        invariant forall k :: 0 <= k < m ==> acknowledge[k] == (arb.Abs().holder == Some(k) && wanted[k] && awReady)
      {
        request := request + [wanted[m] && !arb.grant[m] && !limit && !selectValid];
        acknowledge := acknowledge + [arb.grant[m] && wanted[m] && awReady];
      }
    }
  }

  /** Master interface of the read side: address arbiter and in-flight count. */
  class ReadMasterPort {
    const arb: RoundRobin.Arbiter
    const issue: nat
    var transCount: nat

    ghost predicate Valid()
      reads this, arb
    {
      arb.Valid() && arb.cfg == ArbiterConfig(arb.cfg.ports) && transCount < CounterValues(issue)
    }

    /** There are no write data routing registers; they stay in their reset state. */
    ghost function Abs(): Master
      reads this, arb
    {
      Master(arb.Abs(), 0, false, true)
    }

    constructor (slaves: nat, issue: nat)
      requires slaves > 0
      ensures Valid() && fresh(arb) && arb.cfg.ports == slaves && this.issue == issue
      ensures Abs() == IdleMaster(slaves) && transCount == 0
    {
      arb := new RoundRobin.Arbiter(ArbiterConfig(slaves));
      this.issue := issue;
      transCount := 0;
    }

    /** One clock of IssueLimit's read side, with the limit from the register. */
    method Clock(wanted: seq<bool>, arReady: bool, transComplete: bool)
      requires Valid() && |wanted| == arb.cfg.ports
      modifies this, arb
      ensures Valid()
      ensures RoundRobin.InRange(ArbiterConfig(|wanted|), old(Abs()).arb)
      ensures IssueLimit.ReadNext(old(Abs()), wanted, IssueLimit.Limited(issue, old(transCount), transComplete),
                                  arReady, Abs())
      ensures transCount == Counted(old(transCount), Acked(old(Abs()), wanted, arReady), transComplete,
                                    CounterValues(issue))
    {
      hide RoundRobin.Next, Counted, CounterValues, RoundRobin.Position;
      var limit := IssueLimit.Limited(issue, transCount, transComplete);
      var start := arb.grantValid && wanted[arb.grantEncoded] && arReady;
      var request, acknowledge := Vectors(wanted, limit, arReady);
      arb.Clock(request, acknowledge);
      transCount := Counted(transCount, start, transComplete, CounterValues(issue));
    }

    method Vectors(wanted: seq<bool>, limit: bool, arReady: bool) returns (request: seq<bool>, acknowledge: seq<bool>)
      requires Valid() && |wanted| == arb.cfg.ports
      ensures |request| == |acknowledge| == |wanted|
      ensures request == IssueLimit.ReadRequests(arb.Abs().holder, wanted, limit)
      ensures acknowledge == Acknowledges(Abs(), wanted, arReady)
    {
      request, acknowledge := [], [];
      for m := 0 to |wanted|
        invariant |request| == |acknowledge| == m
        invariant forall k :: 0 <= k < m ==> request[k] == (wanted[k] && arb.Abs().holder != Some(k) && !limit)
        invariant forall k :: 0 <= k < m ==> acknowledge[k] == (arb.Abs().holder == Some(k) && wanted[k] && arReady)
      {
        request := request + [wanted[m] && !arb.grant[m] && !limit];
        acknowledge := acknowledge + [arb.grant[m] && wanted[m] && arReady];
      }
    }
  }

  /** Slave interface of the read side: the response arbiter, whose grant lasts to
      the end of a burst. */
  class ReadResponsePort<W> {
    const arb: RoundRobin.Arbiter

    ghost predicate Valid()
      reads this, arb
    {
      arb.Valid() && arb.cfg.ports > 0
      && arb.cfg == RoundRobin.Config(arb.cfg.ports, RoundRobin.BlockAcknowledge, true)
    }

    constructor (masters: nat)
      ensures Valid() && fresh(arb) && arb.cfg.ports == masters + 1
      ensures arb.Abs() == RoundRobin.State(None, masters)
    {
      arb := new RoundRobin.Arbiter(RoundRobin.Config(masters + 1, RoundRobin.BlockAcknowledge, true));
    }

    /** m = this slave interface, `inner[n]` the beat behind the register of n and
        `select[n]` the slave it is selected for. */
    method Clock(m: nat, inner: seq<Option<ResponseRouting.Beat<W>>>, select: seq<nat>, ready: bool)
      requires Valid() && |inner| == |select| == arb.cfg.ports - 1
      modifies arb
      ensures Valid()
      ensures RoundRobin.InRange(arb.cfg, old(arb.Abs()))
      ensures RoundRobin.Next(arb.cfg, old(arb.Abs()),
                              ResponseRouting.RequestVector(old(arb.Abs()).holder, m, inner, select),
                              ResponseRouting.AcknowledgeVector(old(arb.Abs()).holder, m, inner, select, ready),
                              arb.Abs())
    {
      hide RoundRobin.Next, RoundRobin.Position;
      var ports := arb.cfg.ports;
      var request, acknowledge := [], [];
      for n := 0 to ports
        invariant |request| == |acknowledge| == n
        invariant forall k :: 0 <= k < n ==>
                  request[k] == ResponseRouting.RequestVector(arb.Abs().holder, m, inner, select)[k]
        invariant forall k :: 0 <= k < n ==>
                  acknowledge[k] == ResponseRouting.AcknowledgeVector(arb.Abs().holder, m, inner, select, ready)[k]
      {
        var here := n < |inner| && inner[n].Some? && select[n] == m;
        request := request + [here && !arb.grant[n]];
        acknowledge := acknowledge + [here && arb.grant[n] && inner[n].value.last && ready];
      }
      assert request == ResponseRouting.RequestVector(arb.Abs().holder, m, inner, select);
      assert acknowledge == ResponseRouting.AcknowledgeVector(arb.Abs().holder, m, inner, select, ready);
      arb.Clock(request, acknowledge);
    }
  }
}
