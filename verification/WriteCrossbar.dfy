/** The write half of the crossbar as its ports, wired together. */
module WriteCrossbar {
  import opened Common
  import opened WriteRouting
  import opened CrossbarPorts
  import CrossbarWr
  import CrossbarAddr
  import AddressIntake
  import ThreadTable
  import IssueLimit
  import RoundRobin

  /** What the environment drives in a clock, per slave and per master interface; the
      two ready wires of an offer come from the crossbar itself. */
  datatype SlaveSignals<W> = SlaveSignals(offer: AddressIntake.Offer, wvalid: bool, wlast: bool, wdata: W)

  datatype MasterSignals = MasterSignals(awready: bool, wready: bool, complete: bool)

  datatype Registers = Registers(intakes: seq<AddressIntake.State>, routes: seq<Route>,
                                 masters: seq<Master>, counts: seq<nat>)

  function Meaning(r: Registers): (st: CrossbarWr.State)
    requires |r.intakes| == |r.routes|
    ensures |st.s| == |r.intakes| && forall m :: 0 <= m < |st.s| ==> st.s[m] == Seen(r.intakes[m].stage, r.routes[m])
    ensures st.t == r.masters
  {
    CrossbarWr.State(seq(|r.intakes|, m requires 0 <= m < |r.intakes| => Seen(r.intakes[m].stage, r.routes[m])),
                     r.masters)
  }

  method NewSlaves(configs: seq<CrossbarAddr.Config>) returns (ss: seq<SlavePort>)
    requires forall m :: 0 <= m < |configs| ==> CrossbarAddr.ValidConfig(configs[m]) && configs[m].wcOutput
    ensures |ss| == |configs|
    ensures forall k :: 0 <= k < |ss| ==>
              && fresh(ss[k]) && fresh(ss[k].intake) && fresh(ss[k].intake.addr)
              && ss[k].Valid() && ss[k].intake.addr.cfg == configs[k] && ss[k].Abs() == IDLE_SLAVE && ss[k].Clean()
    ensures forall j, k :: 0 <= j < k < |ss| ==>
              ss[j] != ss[k] && ss[j].intake != ss[k].intake && ss[j].intake.addr != ss[k].intake.addr
  {
    hide CrossbarAddr.ValidConfig;
    ss := [];
    for m := 0 to |configs|
      invariant |ss| == m
      invariant forall k :: 0 <= k < m ==>
                  && fresh(ss[k]) && fresh(ss[k].intake) && fresh(ss[k].intake.addr)
                  && ss[k].Valid() && ss[k].intake.addr.cfg == configs[k] && ss[k].Abs() == IDLE_SLAVE && ss[k].Clean()
      invariant forall j, k :: 0 <= j < k < m ==>
                  ss[j] != ss[k] && ss[j].intake != ss[k].intake && ss[j].intake.addr != ss[k].intake.addr
    {
      var p := new SlavePort(configs[m]);
      ss := ss + [p];
    }
  }

  method NewMasters(slaves: nat, issues: seq<nat>) returns (ts: seq<MasterPort>)
    requires slaves > 0
    ensures |ts| == |issues|
    ensures forall k :: 0 <= k < |ts| ==>
              && fresh(ts[k]) && fresh(ts[k].arb) && ts[k].issue == issues[k]
              && ts[k].Valid() && ts[k].arb.cfg.ports == slaves && ts[k].Abs() == IdleMaster(slaves)
    ensures forall j, k :: 0 <= j < k < |ts| ==> ts[j] != ts[k] && ts[j].arb != ts[k].arb
  {
    ts := [];
    for n := 0 to |issues|
      invariant |ts| == n
      invariant forall k :: 0 <= k < n ==>
                  && fresh(ts[k]) && fresh(ts[k].arb) && ts[k].issue == issues[k]
                  && ts[k].Valid() && ts[k].arb.cfg.ports == slaves && ts[k].Abs() == IdleMaster(slaves)
      invariant forall j, k :: 0 <= j < k < n ==> ts[j] != ts[k] && ts[j].arb != ts[k].arb
    {
      var p := new MasterPort(slaves, issues[n]);
      ts := ts + [p];
    }
  }

  class Crossbar {
    const s: seq<SlavePort>
    const t: seq<MasterPort>

    /** No two interfaces share registers. */
    ghost predicate Apart() {
      && (forall j, k :: 0 <= j < k < |s| ==>
            s[j] != s[k] && s[j].intake != s[k].intake && s[j].intake.addr != s[k].intake.addr)
      && (forall j, k :: 0 <= j < k < |t| ==> t[j] != t[k] && t[j].arb != t[k].arb)
    }

    ghost function SlaveObjects(): set<object> {
      (set m | 0 <= m < |s| :: s[m] as object) + (set m | 0 <= m < |s| :: s[m].intake as object)
      + (set m | 0 <= m < |s| :: s[m].intake.addr as object)
    }

    ghost function MasterObjects(): set<object> {
      (set n | 0 <= n < |t| :: t[n] as object) + (set n | 0 <= n < |t| :: t[n].arb as object)
    }

    ghost predicate Valid()
      reads this, SlaveObjects(), MasterObjects()
    {
      && Apart() && |s| > 0 && |t| > 0
      && (forall m :: 0 <= m < |s| ==> s[m].Valid() && |s[m].intake.addr.cfg.amap.secure| == |t|)
      && (forall n :: 0 <= n < |t| ==> t[n].Valid() && t[n].arb.cfg.ports == |s|)
      && CrossbarWr.Shaped(Shape(), Abs())
    }

    ghost function Shape(): CrossbarWr.Config {
      CrossbarWr.Config(|s|, |t|)
    }

    constructor (configs: seq<CrossbarAddr.Config>, issues: seq<nat>)
      requires |configs| > 0 && |issues| > 0
      requires forall m :: 0 <= m < |configs| ==>
                 && CrossbarAddr.ValidConfig(configs[m]) && configs[m].wcOutput
                 && |configs[m].amap.secure| == |issues|
      ensures Valid() && |s| == |configs| && |t| == |issues| && fresh(SlaveObjects()) && fresh(MasterObjects())
      ensures Abs() == CrossbarWr.Start(Shape()) && Clean(Contents())
    {
      hide SlavePort.Valid, MasterPort.Valid, CrossbarAddr.ValidConfig, CrossbarWr.Start, CrossbarWr.Shaped, Clean,
           NoError, Seen;
      var ss := NewSlaves(configs);
      var ts := NewMasters(|configs|, issues);
      s, t := ss, ts;
      new;
      StartsReset();
    }

    /** Ports in their reset state are the start of a run. */
    lemma StartsReset()
      requires Apart() && |s| > 0 && |t| > 0
      requires forall m :: 0 <= m < |s| ==> s[m].Valid() && s[m].Abs() == IDLE_SLAVE && s[m].Clean()
      requires forall n :: 0 <= n < |t| ==> t[n].Abs() == IdleMaster(|s|)
      ensures Abs() == CrossbarWr.Start(Shape()) && CrossbarWr.Shaped(Shape(), Abs()) && Clean(Contents())
    {
      hide SlavePort.Valid, NoError, Seen;
      assert Abs().s == CrossbarWr.Start(Shape()).s;
      assert Abs().t == CrossbarWr.Start(Shape()).t;
    }

    /** All registers, interface by interface. */
    ghost function Contents(): (r: Registers)
      reads this, SlaveObjects(), MasterObjects()
      ensures |r.intakes| == |r.routes| == |s| && |r.masters| == |r.counts| == |t|
      ensures forall m :: 0 <= m < |s| ==> r.intakes[m] == s[m].intake.Abs() && r.routes[m] == s[m].Routing()
      ensures forall n :: 0 <= n < |t| ==> r.masters[n] == t[n].Abs() && r.counts[n] == t[n].transCount
    {
      Registers(seq(|s|, m requires 0 <= m < |s| reads this, SlaveObjects() => s[m].intake.Abs()),
                seq(|s|, m requires 0 <= m < |s| reads this, SlaveObjects() => s[m].Routing()),
                seq(|t|, n requires 0 <= n < |t| reads this, MasterObjects() => t[n].Abs()),
                seq(|t|, n requires 0 <= n < |t| reads this, MasterObjects() => t[n].transCount))
    }

    /** What the registers mean to the system of CrossbarWr. */
    ghost function Abs(): (st: CrossbarWr.State)
      reads this, SlaveObjects(), MasterObjects()
      ensures |st.s| == |s| && |st.t| == |t|
      ensures forall m :: 0 <= m < |s| ==> st.s[m] == s[m].Abs()
      ensures forall n :: 0 <= n < |t| ==> st.t[n] == t[n].Abs()
    {
      Meaning(Contents())
    }

    ghost function Issues(): (r: seq<nat>)
      ensures |r| == |t| && forall n :: 0 <= n < |t| ==> r[n] == t[n].issue
    {
      seq(|t|, n requires 0 <= n < |t| => t[n].issue)
    }

    ghost function Configs(): (r: seq<CrossbarAddr.Config>)
      ensures |r| == |s| && forall m :: 0 <= m < |s| ==> r[m] == s[m].intake.addr.cfg
    {
      seq(|s|, m requires 0 <= m < |s| => s[m].intake.addr.cfg)
    }

    /** The offer of slave interface m with its ready wires. */
    function Wired<W>(m: nat, signals: SlaveSignals<W>, awReady: bool): AddressIntake.Offer
      requires m < |s|
      reads this, s[m]
    {
      signals.offer.(mready := awReady, wcReady := s[m].WcReady())
    }

    /** Slave interface m takes its clock; the others do not notice. */
    method ClockSlave<W>(m: nat, signals: SlaveSignals<W>, awReady: bool, wReady: bool)
      returns (edge: AddressIntake.Edge)
      requires Apart() && m < |s| && forall k :: 0 <= k < |s| ==> s[k].Valid()
      modifies s[m], s[m].intake, s[m].intake.addr
      ensures forall k :: 0 <= k < |s| ==> s[k].Valid()
      ensures forall k :: 0 <= k < |s| && k != m ==>
                s[k].intake.Abs() == old(s[k].intake.Abs()) && s[k].Routing() == old(s[k].Routing())
      ensures SlaveClocked(s[m].intake.addr.cfg, old(s[m].intake.Abs()), old(s[m].Routing()), edge,
                           signals.wvalid, wReady, signals.wlast, s[m].intake.Abs(), s[m].Routing())
      ensures edge.offer == old(Wired(m, signals, awReady))
    {
      hide SlaveClocked;
      var offer := Wired(m, signals, awReady);
      var hit, started := s[m].Clock(offer, signals.wvalid, wReady, signals.wlast);
      edge := AddressIntake.Edge(offer, hit, started);
    }

    /** All slave interfaces take their clock. */
    method ClockSlaves<W>(signals: seq<SlaveSignals<W>>, awReady: seq<bool>, wReady: seq<bool>)
      returns (edges: seq<AddressIntake.Edge>)
      requires Apart() && |signals| == |awReady| == |wReady| == |s|
      requires forall m :: 0 <= m < |s| ==> s[m].Valid()
      modifies SlaveObjects()
      ensures |edges| == |s| && forall m :: 0 <= m < |s| ==> s[m].Valid()
      ensures forall m :: 0 <= m < |s| ==>
                && SlaveClocked(s[m].intake.addr.cfg, old(s[m].intake.Abs()), old(s[m].Routing()), edges[m],
                                signals[m].wvalid, wReady[m], signals[m].wlast, s[m].intake.Abs(), s[m].Routing())
                && edges[m].offer == old(Wired(m, signals[m], awReady[m]))
    {
      hide SlaveClocked;
      edges := [];
      for m := 0 to |s|
        invariant |edges| == m && forall k :: 0 <= k < |s| ==> s[k].Valid()
        invariant forall k :: m <= k < |s| ==>
                    s[k].intake.Abs() == old(s[k].intake.Abs()) && s[k].Routing() == old(s[k].Routing())
        invariant forall k :: 0 <= k < m ==>
                    && SlaveClocked(s[k].intake.addr.cfg, old(s[k].intake.Abs()), old(s[k].Routing()), edges[k],
                                    signals[k].wvalid, wReady[k], signals[k].wlast, s[k].intake.Abs(), s[k].Routing())
                    && edges[k].offer == old(Wired(k, signals[k], awReady[k]))
      {
        assert s[m].Routing() == old(s[m].Routing());
        var edge := ClockSlave(m, signals[m], awReady[m], wReady[m]);
        edges := edges + [edge];
      }
    }

    /** Master interface n takes its clock; the others do not notice. */
    method ClockMaster(n: nat, wanted: seq<bool>, lastTaken: bool, signals: MasterSignals)
      requires Apart() && n < |t| && forall k :: 0 <= k < |t| ==> t[k].Valid() && t[k].arb.cfg.ports == |wanted|
      modifies t[n], t[n].arb
      ensures forall k :: 0 <= k < |t| ==> t[k].Valid()
      ensures forall k :: 0 <= k < |t| && k != n ==>
                            t[k].Abs() == old(t[k].Abs()) && t[k].transCount == old(t[k].transCount)
      ensures MasterClocked(t[n].issue, old(t[n].Abs()), old(t[n].transCount), wanted, signals.awready, lastTaken,
                            signals.complete, t[n].Abs(), t[n].transCount)
    {
      hide MasterClocked;
      t[n].Clock(wanted, signals.awready, lastTaken, signals.complete);
    }

    method ClockMasters(wanted: seq<seq<bool>>, lastTaken: seq<bool>, signals: seq<MasterSignals>)
      requires Apart() && |wanted| == |lastTaken| == |signals| == |t|
      requires forall n :: 0 <= n < |t| ==> t[n].Valid() && t[n].arb.cfg.ports == |s| == |wanted[n]|
      modifies MasterObjects()
      ensures forall n :: 0 <= n < |t| ==>
                && t[n].Valid()
                && MasterClocked(t[n].issue, old(t[n].Abs()), old(t[n].transCount), wanted[n], signals[n].awready,
                                 lastTaken[n], signals[n].complete, t[n].Abs(), t[n].transCount)
    {
      hide MasterClocked;
      for n := 0 to |t|
        invariant forall k :: 0 <= k < |t| ==> t[k].Valid()
        invariant forall k :: n <= k < |t| ==> t[k].Abs() == old(t[k].Abs()) && t[k].transCount == old(t[k].transCount)
        invariant forall k :: 0 <= k < n ==>
                    MasterClocked(t[k].issue, old(t[k].Abs()), old(t[k].transCount), wanted[k], signals[k].awready,
                                  lastTaken[k], signals[k].complete, t[k].Abs(), t[k].transCount)
      {
        ClockMaster(n, wanted[n], lastTaken[n], signals[n]);
      }
    }

    // The wires between the interfaces

    /** m_axi_aready and the W ready wire of slave interface m. */
    function SlaveWires(m: nat, masters: seq<MasterSignals>): (r: (bool, bool))
      requires Valid() && m < |s| && |masters| == |t|
      reads this, SlaveObjects(), MasterObjects()
      ensures SlaveWired(Abs(), masters, m, r.0, r.1)
    {
      assert CrossbarWr.SlaveShaped(Shape(), Abs().s[m]);
      var a, w := s[m].intake.addr.select, s[m].wSelect;
      assert t[a].Valid();
      (t[a].arb.grantValid && t[a].arb.grantEncoded == m && masters[a].awready,
       t[w].wSelectValid && t[w].wSelect == m && masters[w].wready)
    }

    /** int_axi_awvalid of all slaves towards n. */
    function WantedWires(n: nat): (r: seq<bool>)
      reads this, SlaveObjects()
      ensures |r| == |s|
      ensures forall m :: 0 <= m < |s| ==> r[m] == (s[m].Abs().avalid && s[m].Abs().sel == n)
    {
      seq(|s|, m requires 0 <= m < |s| reads this, SlaveObjects() =>
        s[m].intake.addr.avalid && s[m].intake.addr.select == n)
    }

    /** Whether master interface n takes a last beat. */
    function LastWire<W>(n: nat, slaves: seq<SlaveSignals<W>>, masters: seq<MasterSignals>): (r: bool)
      requires Valid() && n < |t| && |slaves| == |s| && |masters| == |t|
      reads this, SlaveObjects(), MasterObjects()
      ensures MasterWired(Abs(), slaves, masters, n, WantedWires(n), r)
    {
      assert CrossbarWr.MasterShaped(Shape(), Abs().t[n]);
      var p := t[n].wSelect;
      && t[n].wSelectValid && s[p].wSelectValid && s[p].wSelect == n
      && slaves[p].wvalid && masters[n].wready && slaves[p].wlast
    }

    /** All wires, from the state before the clock. */
    method Wires<W>(slaves: seq<SlaveSignals<W>>, masters: seq<MasterSignals>)
      returns (awReady: seq<bool>, wReady: seq<bool>, wanted: seq<seq<bool>>, lastTaken: seq<bool>)
      requires Valid() && |slaves| == |s| && |masters| == |t|
      ensures |awReady| == |wReady| == |s| && |wanted| == |lastTaken| == |t|
      ensures forall m :: 0 <= m < |s| ==> SlaveWired(Abs(), masters, m, awReady[m], wReady[m])
      ensures forall n :: 0 <= n < |t| ==>
                |wanted[n]| == |s| && MasterWired(Abs(), slaves, masters, n, wanted[n], lastTaken[n])
    {
      hide SlaveWired, MasterWired, Crossbar.Valid;
      awReady, wReady, wanted, lastTaken := [], [], [], [];
      for m := 0 to |s|
        invariant |awReady| == |wReady| == m
        invariant forall k :: 0 <= k < m ==> SlaveWired(Abs(), masters, k, awReady[k], wReady[k])
      {
        var (a, w) := SlaveWires(m, masters);
        awReady, wReady := awReady + [a], wReady + [w];
      }
      for n := 0 to |t|
        invariant |wanted| == |lastTaken| == n
        invariant forall k :: 0 <= k < n ==>
                  |wanted[k]| == |s| && MasterWired(Abs(), slaves, masters, k, wanted[k], lastTaken[k])
      {
        wanted, lastTaken := wanted + [WantedWires(n)], lastTaken + [LastWire(n, slaves, masters)];
      }
    }

    /** Slave and master interfaces have no registers in common. */
    lemma Foreign()
      ensures forall n :: 0 <= n < |t| ==>
                (t[n] as object) !in SlaveObjects() && (t[n].arb as object) !in SlaveObjects()
      ensures forall m :: 0 <= m < |s| ==>
                && (s[m] as object) !in MasterObjects() && (s[m].intake as object) !in MasterObjects()
                && (s[m].intake.addr as object) !in MasterObjects()
    {
    }

    /** All interfaces take their clock on the wires of the state before it. */
    method Advance<W>(slaves: seq<SlaveSignals<W>>, masters: seq<MasterSignals>, awReady: seq<bool>, wReady: seq<bool>,
                      wanted: seq<seq<bool>>, lastTaken: seq<bool>) returns (edges: seq<AddressIntake.Edge>)
      requires Apart() && |slaves| == |awReady| == |wReady| == |s| && |masters| == |wanted| == |lastTaken| == |t|
      requires forall m :: 0 <= m < |s| ==> s[m].Valid()
      requires forall n :: 0 <= n < |t| ==> t[n].Valid() && t[n].arb.cfg.ports == |s| == |wanted[n]|
      modifies SlaveObjects(), MasterObjects()
      ensures |edges| == |s|
      ensures forall m :: 0 <= m < |s| ==> s[m].Valid()
      ensures forall n :: 0 <= n < |t| ==> t[n].Valid()
      ensures SlavesClocked(Configs(), old(Contents()), edges, slaves, awReady, wReady, Contents())
      ensures MastersClocked(Issues(), old(Contents()), wanted, lastTaken, masters, Contents())
    {
      hide SlaveClocked, MasterClocked, SlaveObjects, MasterObjects, Apart;
      hide SlavePort.Valid, MasterPort.Valid;
      Foreign();
      edges := ClockSlaves(slaves, awReady, wReady);
      assert forall n :: 0 <= n < |t| ==>
          t[n].Valid() && t[n].Abs() == old(t[n].Abs()) && t[n].transCount == old(t[n].transCount);
      label mid:
      ClockMasters(wanted, lastTaken, masters);
      assert forall m :: 0 <= m < |s| ==>
          s[m].Valid() && s[m].intake.Abs() == old@mid(s[m].intake.Abs()) && s[m].Routing() == old@mid(s[m].Routing());
    }

    /** One clock of all registers of the write crossbar: while every address decodes,
        a step of the system whose runs CrossbarWr is about. */
    method Clock<W>(slaves: seq<SlaveSignals<W>>, masters: seq<MasterSignals>) returns (edges: seq<AddressIntake.Edge>)
      requires Valid() && |slaves| == |s| && |masters| == |t|
      modifies SlaveObjects(), MasterObjects()
      ensures |edges| == |s|
      ensures Clean(old(Contents())) && AllDecode(old(Contents()), edges) ==>
                var i := InputsOf(Issues(), old(Contents()), slaves, masters, edges);
                && Clean(Contents()) && Valid()
                && CrossbarWr.Shaped(Shape(), old(Abs())) && CrossbarWr.InputsFit(Shape(), i)
                && CrossbarWr.Next(Shape(), old(Abs()), i, Abs())
    {
      hide SlavesClocked, MastersClocked, SlavePort.Valid, MasterPort.Valid, CrossbarWr.Shaped, CrossbarWr.Next,
           CrossbarWr.InputsFit;
      hide Clean, AllDecode, InputsOf, SlaveWired, MasterWired;
      ghost var before := Contents();
      ghost var st := Abs();
      var awReady, wReady, wanted, lastTaken := Wires(slaves, masters);
      edges := Advance(slaves, masters, awReady, wReady, wanted, lastTaken);
      if Clean(before) && AllDecode(before, edges) {
        PortsTakeStep(Shape(), Configs(), Issues(), before, slaves, masters, awReady, wReady, wanted, lastTaken,
                      edges, Contents());
      }
    }
  }

  /** No decode error is under way at any slave interface. */
  predicate Clean(r: Registers) {
    |r.intakes| == |r.routes| && forall m :: 0 <= m < |r.intakes| ==> NoError(r.intakes[m].stage, r.routes[m])
  }

  predicate AllDecode(r: Registers, edges: seq<AddressIntake.Edge>) {
    |r.intakes| == |edges| && forall m :: 0 <= m < |edges| ==> AddressIntake.Decodes(r.intakes[m], edges[m])
  }

  predicate SlavesClocked<W>(cfgs: seq<CrossbarAddr.Config>, r: Registers, edges: seq<AddressIntake.Edge>,
                             slaves: seq<SlaveSignals<W>>, awReady: seq<bool>, wReady: seq<bool>, r': Registers)
  {
    && |cfgs| == |r.intakes| == |r.routes| == |edges| == |slaves| == |awReady| == |wReady| == |r'.intakes|
      == |r'.routes|
    && forall m :: 0 <= m < |edges| ==>
         && SlaveClocked(cfgs[m], r.intakes[m], r.routes[m], edges[m], slaves[m].wvalid, wReady[m], slaves[m].wlast,
                         r'.intakes[m], r'.routes[m])
         && edges[m].offer.mready == awReady[m]
  }

  predicate MastersClocked(issues: seq<nat>, r: Registers, wanted: seq<seq<bool>>, lastTaken: seq<bool>,
                           masters: seq<MasterSignals>, r': Registers)
  {
    && |issues| == |r.masters| == |r.counts| == |wanted| == |lastTaken| == |masters| == |r'.masters| == |r'.counts|
    && forall n :: 0 <= n < |issues| ==>
         MasterClocked(issues[n], r.masters[n], r.counts[n], wanted[n], masters[n].awready, lastTaken[n],
                       masters[n].complete, r'.masters[n], r'.counts[n])
  }

  /** What the environment and the address stages put into the system's step. */
  function InputsOf<W>(issues: seq<nat>, r: Registers, slaves: seq<SlaveSignals<W>>, masters: seq<MasterSignals>,
                       edges: seq<AddressIntake.Edge>): (i: CrossbarWr.Inputs<W>)
    requires |slaves| == |edges| == |r.intakes| && |masters| == |r.counts| == |issues|
  {
    CrossbarWr.Inputs(
      seq(|slaves|, m requires 0 <= m < |slaves| => SlaveInput(r.intakes[m], edges[m], slaves[m])),
      seq(|masters|, n requires 0 <= n < |masters| => MasterInput(issues[n], r.counts[n], masters[n])))
  }

  /** All ports on the wires of one state make one step of the system. */
  lemma PortsTakeStep<W>(cfg: CrossbarWr.Config, cfgs: seq<CrossbarAddr.Config>, issues: seq<nat>, r: Registers,
                         slaves: seq<SlaveSignals<W>>, masters: seq<MasterSignals>, awReady: seq<bool>,
                         wReady: seq<bool>,
                         wanted: seq<seq<bool>>, lastTaken: seq<bool>, edges: seq<AddressIntake.Edge>, r': Registers)
    requires SlavesClocked(cfgs, r, edges, slaves, awReady, wReady, r')
    requires MastersClocked(issues, r, wanted, lastTaken, masters, r')
    requires cfg.slaves == |slaves| && cfg.masters == |masters|
    requires forall m :: 0 <= m < cfg.slaves ==> |cfgs[m].amap.secure| == cfg.masters
    requires CrossbarWr.Shaped(cfg, Meaning(r)) && Clean(r) && AllDecode(r, edges)
    requires forall m :: 0 <= m < cfg.slaves ==> SlaveWired(Meaning(r), masters, m, awReady[m], wReady[m])
    requires forall n :: 0 <= n < cfg.masters ==> MasterWired(Meaning(r), slaves, masters, n, wanted[n], lastTaken[n])
    ensures
      var i := InputsOf(issues, r, slaves, masters, edges);
      && Clean(r') && CrossbarWr.Shaped(cfg, Meaning(r')) && CrossbarWr.InputsFit(cfg, i)
      && CrossbarWr.Next(cfg, Meaning(r), i, Meaning(r'))
  {
    hide SlaveClocked, MasterClocked, SlaveWired, MasterWired, CrossbarWr.Next, CrossbarWr.SlaveStep,
         CrossbarWr.MasterStep;
    hide Seen, NoError, AddressIntake.Decodes, CrossbarWr.Shaped, Decoded;
    var i := InputsOf(issues, r, slaves, masters, edges);
    forall m | 0 <= m < cfg.slaves
      ensures i.s[m].decoded.Some? ==> i.s[m].decoded.value < cfg.masters
    {
      ClockedInRange(cfgs[m], r.intakes[m], r.routes[m], edges[m], slaves[m].wvalid, wReady[m], slaves[m].wlast,
                     r'.intakes[m], r'.routes[m]);
    }
    assert CrossbarWr.InputsFit(cfg, i);
    forall m | 0 <= m < cfg.slaves
      ensures NoError(r'.intakes[m].stage, r'.routes[m])
      ensures CrossbarWr.SlaveStep(cfg, Meaning(r), i, m, Meaning(r').s[m])
    {
      SlaveTakesStep(cfg, Meaning(r), i, m, cfgs[m], r.intakes[m], r.routes[m], edges[m], slaves[m], masters,
                     awReady[m], wReady[m], r'.intakes[m], r'.routes[m]);
    }
    forall n | 0 <= n < cfg.masters
      ensures CrossbarWr.MasterStep(cfg, Meaning(r), i, n, Meaning(r').t[n])
    {
      MasterTakesStep(cfg, Meaning(r), i, n, issues[n], r.counts[n], slaves, masters, wanted[n], lastTaken[n],
                      r'.masters[n], r'.counts[n]);
    }
    AllStep(cfg, Meaning(r), i, Meaning(r'));
  }

  lemma AllStep<W>(cfg: CrossbarWr.Config, st: CrossbarWr.State, i: CrossbarWr.Inputs<W>, st': CrossbarWr.State)
    requires CrossbarWr.Shaped(cfg, st) && CrossbarWr.InputsFit(cfg, i)
    requires |st'.s| == cfg.slaves && |st'.t| == cfg.masters
    requires forall m :: 0 <= m < cfg.slaves ==> CrossbarWr.SlaveStep(cfg, st, i, m, st'.s[m])
    requires forall n :: 0 <= n < cfg.masters ==> CrossbarWr.MasterStep(cfg, st, i, n, st'.t[n])
    ensures CrossbarWr.Next(cfg, st, i, st') && CrossbarWr.Shaped(cfg, st')
  {
    hide CrossbarWr.Shaped, CrossbarWr.SlaveStep, CrossbarWr.MasterStep;
    CrossbarWr.StaysShaped(cfg, st, i, st');
  }

  lemma ClockedInRange(cfg: CrossbarAddr.Config, s: AddressIntake.State, r: Route, k: AddressIntake.Edge,
                       wvalid: bool, wready: bool, wlast: bool, s': AddressIntake.State, r': Route)
    requires SlaveClocked(cfg, s, r, k, wvalid, wready, wlast, s', r')
    ensures Decoded(s, k).Some? ==> Decoded(s, k).value < |cfg.amap.secure|
  {
    hide AddressIntake.Next, AddressIntake.Shaped, Seen, SlaveNext, NoError, Decoded;
    DecodedInRange(cfg, s, k, s');
  }

  function SlaveInput<W>(s: AddressIntake.State, k: AddressIntake.Edge,
                         signals: SlaveSignals<W>): CrossbarWr.SlaveIn<W> {
    CrossbarWr.SlaveIn(Decoded(s, k), k.started, signals.wvalid, signals.wlast, signals.wdata)
  }

  function MasterInput(issue: nat, reg: nat, signals: MasterSignals): CrossbarWr.MasterIn {
    CrossbarWr.MasterIn(IssueLimit.Limited(issue, reg, signals.complete), signals.awready, signals.wready)
  }

  lemma DecodedInRange(cfg: CrossbarAddr.Config, s: AddressIntake.State, k: AddressIntake.Edge, s': AddressIntake.State)
    requires AddressIntake.Shaped(cfg, s) && AddressIntake.Next(cfg, s, k, s')
    ensures Decoded(s, k).Some? ==> Decoded(s, k).value < |cfg.amap.secure|
  {
    hide ThreadTable.NextRows, ThreadTable.NextFlight, CrossbarAddr.NextStage, CrossbarAddr.Decides, Counted;
  }

  lemma SlaveTakesStep<W>(cfg: CrossbarWr.Config, st: CrossbarWr.State, i: CrossbarWr.Inputs<W>, m: nat,
                          c: CrossbarAddr.Config, s: AddressIntake.State, r: Route, k: AddressIntake.Edge,
                          signals: SlaveSignals<W>, masters: seq<MasterSignals>, awReady: bool, wReady: bool,
                          s': AddressIntake.State, r': Route)
    requires CrossbarWr.Shaped(cfg, st) && CrossbarWr.InputsFit(cfg, i) && m < cfg.slaves
    requires st.s[m] == Seen(s.stage, r) && i.s[m] == SlaveInput(s, k, signals)
    requires |masters| == cfg.masters
    requires forall n :: 0 <= n < cfg.masters ==>
               i.t[n].awready == masters[n].awready && i.t[n].wready == masters[n].wready
    requires SlaveWired(st, masters, m, awReady, wReady) && k.offer.mready == awReady
    requires SlaveClocked(c, s, r, k, signals.wvalid, wReady, signals.wlast, s', r')
    requires NoError(s.stage, r) && AddressIntake.Decodes(s, k)
    ensures NoError(s'.stage, r') && CrossbarWr.SlaveStep(cfg, st, i, m, Seen(s'.stage, r'))
  {
    hide SlaveNext, AddressIntake.Next, AddressIntake.Shaped, NextRoute, Seen, NoError, AddressIntake.Decodes, Decoded;
    hide CrossbarWr.MasterShaped;
    assert CrossbarWr.SlaveShaped(cfg, st.s[m]);
  }

  lemma MasterTakesStep<W>(cfg: CrossbarWr.Config, st: CrossbarWr.State, i: CrossbarWr.Inputs<W>, n: nat,
                           issue: nat, reg: nat, slaves: seq<SlaveSignals<W>>, masters: seq<MasterSignals>,
                           wanted: seq<bool>, lastTaken: bool, t': Master, reg': nat)
    requires CrossbarWr.Shaped(cfg, st) && CrossbarWr.InputsFit(cfg, i) && n < cfg.masters
    requires |masters| == cfg.masters && |slaves| == cfg.slaves && i.t[n] == MasterInput(issue, reg, masters[n])
    requires forall m :: 0 <= m < cfg.slaves ==> i.s[m].wvalid == slaves[m].wvalid && i.s[m].wlast == slaves[m].wlast
    requires MasterWired(st, slaves, masters, n, wanted, lastTaken)
    requires MasterClocked(issue, st.t[n], reg, wanted, masters[n].awready, lastTaken, masters[n].complete, t', reg')
    ensures CrossbarWr.MasterStep(cfg, st, i, n, t')
  {
    hide MasterNext, RoundRobin.InRange, CrossbarWr.SlaveShaped;
    assert wanted == CrossbarWr.Wanted(cfg, st, n);
    assert CrossbarWr.MasterShaped(cfg, st.t[n]);
  }

  predicate SlaveWired(st: CrossbarWr.State, masters: seq<MasterSignals>, m: nat, awReady: bool, wReady: bool) {
    && m < |st.s| && |masters| == |st.t|
    && var s := st.s[m];
    && s.sel < |st.t| && s.wsel < |st.t|
    && awReady == (st.t[s.sel].arb.holder == Some(m) && masters[s.sel].awready)
    && wReady == WReady(s, st.t[s.wsel], m, s.wsel, masters[s.wsel].wready)
  }

  predicate MasterWired<W>(st: CrossbarWr.State, slaves: seq<SlaveSignals<W>>, masters: seq<MasterSignals>, n: nat,
                           wanted: seq<bool>, lastTaken: bool)
  {
    && n < |st.t| == |masters| && |slaves| == |st.s| == |wanted|
    && (forall m :: 0 <= m < |st.s| ==> wanted[m] == (st.s[m].avalid && st.s[m].sel == n))
    && var p := st.t[n].wsel;
    && p < |st.s|
    && lastTaken == (WValid(st.s[p], st.t[n], p, n, slaves[p].wvalid) && masters[n].wready && slaves[p].wlast)
  }
}
