/** The in-flight counter of a master interface and the address grant it gates:
    how far the limit M_ISSUE is passed, and when the register can hold that. */
module IssueLimit {
  import opened Common
  import opened WriteRouting
  import RoundRobin
  import CrossbarAddr

  /** The read and the write half of the crossbar; the write half also holds back
      requests while a write data route is in use. */
  datatype Side = Read | Write

  datatype Config = Config(side: Side, slaves: nat, issue: nat)

  /** What the address stage of a slave may do: an address offered stays until it is
      taken, and the next one comes three clocks after that at the earliest. */
  datatype Ask = Free | Asking | Resting(clocks: nat)

  /** The interface's registers, the number of transactions that are really in
      flight, and how the slaves ask. */
  datatype State = State(t: Master, reg: nat, count: nat, asks: seq<Ask>)

  /** Which slaves want this interface, whether the address and a last write beat are
      taken, and whether a transaction completes. */
  datatype Clock = Clock(wanted: seq<bool>, ready: bool, lastTaken: bool, complete: bool)

  /** trans_limit, from the register. */
  predicate Limited(issue: nat, reg: nat, complete: bool) {
    reg >= issue && !complete
  }

  /** On the read side the limit alone masks a_request. */
  function ReadRequests(holder: Option<nat>, wanted: seq<bool>, limit: bool): (r: seq<bool>)
    ensures |r| == |wanted|
  {
    seq(|wanted|, m requires 0 <= m < |wanted| => wanted[m] && holder != Some(m) && !limit)
  }

  predicate ReadNext(t: Master, wanted: seq<bool>, limit: bool, ready: bool, t': Master)
    requires RoundRobin.InRange(ArbiterConfig(|wanted|), t.arb)
  {
    && RoundRobin.Next(ArbiterConfig(|wanted|), t.arb, ReadRequests(t.arb.holder, wanted, limit),
                       Acknowledges(t, wanted, ready), t'.arb)
    && t' == t.(arb := t'.arb)
  }

  predicate Shaped(cfg: Config, s: State) {
    && RoundRobin.InRange(ArbiterConfig(cfg.slaves), s.t.arb)
    && s.reg < CounterValues(cfg.issue)
    && |s.asks| == cfg.slaves
  }

  predicate Offers(a: Ask, wanted: bool) {
    match a
    case Free => true
    case Asking => wanted
    case Resting(_) => !wanted
  }

  function NextAsk(a: Ask, wanted: bool, taken: bool): Ask {
    if taken then Resting(2)
    else if wanted then Asking
    else match a
      case Resting(n) => if n <= 1 then Free else Resting(n - 1)
      case _ => Free
  }

  predicate ClockFits(cfg: Config, s: State, i: Clock)
    requires Shaped(cfg, s)
  {
    && |i.wanted| == cfg.slaves && (i.complete ==> s.count > 0)
    && forall m :: 0 <= m < cfg.slaves ==> Offers(s.asks[m], i.wanted[m])
  }

  /** trans_start: the granted address is taken. */
  predicate Starts(cfg: Config, s: State, i: Clock)
    requires Shaped(cfg, s) && ClockFits(cfg, s, i)
  {
    Acked(s.t, i.wanted, i.ready)
  }

  /** One clock: arbiter, register, and what happens to the transactions. */
  predicate Next(cfg: Config, s: State, i: Clock, s': State)
    requires Shaped(cfg, s) && ClockFits(cfg, s, i)
  {
    var limit, start := Limited(cfg.issue, s.reg, i.complete), Starts(cfg, s, i);
    && (match cfg.side
        case Read => ReadNext(s.t, i.wanted, limit, i.ready, s'.t)
        case Write => MasterNext(s.t, i.wanted, limit, i.ready, i.lastTaken, s'.t))
    && s'.reg == Counted(s.reg, start, i.complete, CounterValues(cfg.issue))
    && s'.count == s.count + (if start then 1 else 0) - (if i.complete then 1 else 0)
    && |s'.asks| == cfg.slaves
    && forall m :: 0 <= m < cfg.slaves ==>
         s'.asks[m] == NextAsk(s.asks[m], i.wanted[m], start && s.t.arb.holder == Some(m))
  }

  /** The address stage does offer its requests in this way. */
  lemma AddressStageAsks(wcOutput: bool, s: CrossbarAddr.Stage, i: CrossbarAddr.Inputs, i': CrossbarAddr.Inputs,
                         hit: Option<(nat, nat)>, hit': Option<(nat, nat)>, started: bool, started': bool)
    requires s.decode && s.avalid
             && (started' ==> CrossbarAddr.Looks(CrossbarAddr.NextStage(wcOutput, s, i, hit, started), i'))
    ensures
      var s' := CrossbarAddr.NextStage(wcOutput, s, i, hit, started);
      var s'' := CrossbarAddr.NextStage(wcOutput, s', i', hit', started');
      if !i.mready then s'.decode && s'.avalid && s'.select == s.select
      else !s'.avalid && !s''.avalid
  {
  }

  // Runs

  function Start(cfg: Config): State
    requires cfg.slaves > 0
  {
    State(IdleMaster(cfg.slaves), 0, 0, seq(cfg.slaves, _ => Free))
  }

  datatype Run = Run(states: seq<State>, clocks: seq<Clock>)

  predicate StepAt(cfg: Config, run: Run, k: nat)
    requires |run.states| == |run.clocks| + 1 && k < |run.clocks|
  {
    && Shaped(cfg, run.states[k]) && ClockFits(cfg, run.states[k], run.clocks[k])
    && Next(cfg, run.states[k], run.clocks[k], run.states[k + 1])
  }

  predicate IsRun(cfg: Config, run: Run) {
    && cfg.slaves > 0 && |run.states| == |run.clocks| + 1 && run.states[0] == Start(cfg)
    && forall k :: 0 <= k < |run.clocks| ==> StepAt(cfg, run, k)
  }

  function Outstanding(s: State): nat {
    s.count + if s.t.arb.holder.Some? then 1 else 0
  }

  /** In no run do transactions in flight plus an outstanding grant exceed the bound. */
  ghost predicate BoundHolds(cfg: Config, bound: nat) {
    forall run: Run, k: nat :: IsRun(cfg, run) && k < |run.states| ==> Outstanding(run.states[k]) <= bound
  }

  /** In every run trans_count_reg shows the number of transactions in flight. */
  ghost predicate RegisterExact(cfg: Config) {
    forall run: Run, k: nat :: IsRun(cfg, run) && k < |run.states| ==> run.states[k].reg == run.states[k].count
  }

  /** What a clock does to the grant, on either side. */
  lemma GrantMoves(cfg: Config, s: State, i: Clock, s': State)
    requires Shaped(cfg, s) && ClockFits(cfg, s, i) && Next(cfg, s, i, s')
    ensures Shaped(cfg, s')
    ensures s.t.arb.holder.Some? && !Starts(cfg, s, i) ==> s'.t.arb.holder == s.t.arb.holder
    ensures s'.t.arb.holder.Some? && (s.t.arb.holder.None? || Starts(cfg, s, i)) ==>
              !Limited(cfg.issue, s.reg, i.complete) && s'.t.arb.holder != s.t.arb.holder
  {
    hide CounterValues;
    if cfg.side == Write {
      GrantOutcome(s.t, i.wanted, Limited(cfg.issue, s.reg, i.complete), i.ready, i.lastTaken, s'.t);
    }
  }

  /** The limit holds back no more than it should: a free interface that is asked for is
      granted unless M_ISSUE transactions are counted and none completes in this clock. */
  lemma GrantedUnlessFull(cfg: Config, s: State, i: Clock, s': State)
    requires Shaped(cfg, s) && ClockFits(cfg, s, i) && Next(cfg, s, i, s')
    requires s.t.arb.holder.None? && true in i.wanted && (cfg.side == Write ==> !s.t.wval || i.lastTaken)
    ensures s'.t.arb.holder.Some? <==> s.reg < cfg.issue || i.complete
  {
    hide CounterValues, RoundRobin.Nearest;
    var m :| 0 <= m < |i.wanted| && i.wanted[m];
    assert s.reg < cfg.issue || i.complete ==> RequestsOf(cfg, s, i)[m];
  }

  /** The most that can be outstanding: a new grant may be chosen in the clock in
      which the last one starts, unless there is no other slave. */
  function Most(cfg: Config): nat {
    if cfg.slaves == 1 then cfg.issue else cfg.issue + 1
  }

  predicate Within(cfg: Config, s: State) {
    Shaped(cfg, s) && s.reg == s.count && Outstanding(s) <= Most(cfg)
  }

  lemma WithinKept(cfg: Config, s: State, i: Clock, s': State)
    requires cfg.issue > 0 && Most(cfg) < CounterValues(cfg.issue)
    requires Within(cfg, s) && ClockFits(cfg, s, i) && Next(cfg, s, i, s')
    ensures Within(cfg, s')
  {
    GrantMoves(cfg, s, i, s');
    hide RoundRobin.Next, CounterValues;
  }

  lemma {:induction false} RunWithin(cfg: Config, run: Run, k: nat)
    requires IsRun(cfg, run) && k < |run.states|
    requires cfg.issue > 0 && Most(cfg) < CounterValues(cfg.issue)
    ensures Within(cfg, run.states[k])
  {
    if k > 0 {
      RunWithin(cfg, run, k - 1);
      assert StepAt(cfg, run, k - 1);
      WithinKept(cfg, run.states[k - 1], run.clocks[k - 1], run.states[k]);
    }
  }

  // Two slaves take the interface past its limit

  /** A state in which only slaves 0 and 1 matter. */
  function At(cfg: Config, holder: Option<nat>, last: nat, wsel: nat, wval: bool, wnew: bool,
              reg: nat, count: nat, a0: Ask, a1: Ask): State
  {
    var arb := RoundRobin.State(holder, last);
    State(if cfg.side == Write then Master(arb, wsel, wval, wnew) else Master(arb, 0, false, true),
          reg, count, seq(cfg.slaves, m => if m == 0 then a0 else if m == 1 then a1 else Free))
  }

  function Offer(cfg: Config, w0: bool, w1: bool, ready: bool, lastTaken: bool): Clock {
    Clock(seq(cfg.slaves, m => (m == 0 && w0) || (m == 1 && w1)), ready, lastTaken, false)
  }

  /** Only port p asks: a decision goes to p. */
  lemma OnlyPort(slaves: nat, s: RoundRobin.State, request: seq<bool>, acknowledge: seq<bool>, p: nat)
    requires RoundRobin.InRange(ArbiterConfig(slaves), s) && |request| == |acknowledge| == slaves
    requires p < slaves && forall m :: 0 <= m < slaves ==> (request[m] <==> m == p)
    requires s.holder.Some? ==> acknowledge[s.holder.value]
    ensures RoundRobin.Next(ArbiterConfig(slaves), s, request, acknowledge, RoundRobin.State(Some(p), p))
  {
    assert request[p];
    assert RoundRobin.Nearest(ArbiterConfig(slaves), s.last, request, p);
  }

  lemma NoPort(slaves: nat, s: RoundRobin.State, request: seq<bool>, acknowledge: seq<bool>)
    requires RoundRobin.InRange(ArbiterConfig(slaves), s) && |request| == |acknowledge| == slaves
    requires forall m :: 0 <= m < slaves ==> !request[m]
    requires s.holder.Some? ==> acknowledge[s.holder.value]
    ensures RoundRobin.Next(ArbiterConfig(slaves), s, request, acknowledge, RoundRobin.State(None, s.last))
  {
  }

  lemma PortHolds(slaves: nat, s: RoundRobin.State, request: seq<bool>, acknowledge: seq<bool>)
    requires RoundRobin.InRange(ArbiterConfig(slaves), s) && |request| == |acknowledge| == slaves
    requires s.holder.Some? && !acknowledge[s.holder.value]
    ensures RoundRobin.Next(ArbiterConfig(slaves), s, request, acknowledge, s)
  {
  }

  predicate Steps(cfg: Config, s: State, i: Clock, s': State) {
    Shaped(cfg, s) && ClockFits(cfg, s, i) && Next(cfg, s, i, s')
  }

  function RequestsOf(cfg: Config, s: State, i: Clock): (r: seq<bool>)
    ensures |r| == |i.wanted|
  {
    var limit := Limited(cfg.issue, s.reg, i.complete);
    match cfg.side
    case Read => ReadRequests(s.t.arb.holder, i.wanted, limit)
    case Write => Requests(s.t, i.wanted, limit, i.lastTaken)
  }

  /** The parts of a step put together. */
  lemma StepFrom(cfg: Config, s: State, i: Clock, s': State)
    requires Shaped(cfg, s) && ClockFits(cfg, s, i)
    requires RoundRobin.Next(ArbiterConfig(cfg.slaves), s.t.arb, RequestsOf(cfg, s, i),
                             Acknowledges(s.t, i.wanted, i.ready), s'.t.arb)
    requires cfg.side == Read ==> s'.t == s.t.(arb := s'.t.arb)
    requires cfg.side == Write ==>
               && s'.t.wval == RouteNext(s.t, i.lastTaken)
               && s'.t.wsel == (if TakesRoute(s.t) then s.t.arb.holder.value else s.t.wsel)
               && s'.t.wnew == (!TakesRoute(s.t) && (s.t.wnew || s.t.arb.holder.None? || Starts(cfg, s, i)))
    requires s'.reg == Counted(s.reg, Starts(cfg, s, i), i.complete, CounterValues(cfg.issue))
    requires s'.count == s.count + (if Starts(cfg, s, i) then 1 else 0) - (if i.complete then 1 else 0)
    requires |s'.asks| == cfg.slaves
    requires forall m :: 0 <= m < cfg.slaves ==>
               s'.asks[m] == NextAsk(s.asks[m], i.wanted[m], Starts(cfg, s, i) && s.t.arb.holder == Some(m))
    ensures Steps(cfg, s, i, s')
  {
    hide RoundRobin.Next, CounterValues, Counted;
  }

  /** The free interface is granted to slave 0. */
  lemma StepGrant(cfg: Config, last: nat, wsel: nat, reg: nat, count: nat, a1: Ask)
    requires cfg.slaves >= 2 && last < cfg.slaves && reg < cfg.issue && !a1.Asking?
    ensures Steps(cfg, At(cfg, None, last, wsel, false, true, reg, count, Free, a1),
                  Offer(cfg, true, false, false, false),
                  At(cfg, Some(0), 0, wsel, false, true, reg, count, Asking, NextAsk(a1, false, false)))
  {
    var s, i := At(cfg, None, last, wsel, false, true, reg, count, Free, a1), Offer(cfg, true, false, false, false);
    OnlyPort(cfg.slaves, s.t.arb, RequestsOf(cfg, s, i), Acknowledges(s.t, i.wanted, i.ready), 0);
    StepFrom(cfg, s, i, At(cfg, Some(0), 0, wsel, false, true, reg, count, Asking, NextAsk(a1, false, false)));
  }

  /** The address of the granted slave p is taken, while no other one asks. */
  lemma StepStart(cfg: Config, p: nat, wsel: nat, reg: nat, count: nat, other: Ask)
    requires cfg.slaves >= 2 && p < 2 && reg < CounterValues(cfg.issue) && !other.Asking?
    ensures
      var a, o, rested := NextAsk(Asking, true, true), NextAsk(other, false, false), Resting(2);
      Steps(cfg,
            At(cfg, Some(p), p, wsel, false, true, reg, count, if p == 0 then Asking else other,
               if p == 0 then other else Asking),
            Offer(cfg, p == 0, p == 1, true, false),
            At(cfg, None, p, p, true, false, Counted(reg, true, false, CounterValues(cfg.issue)), count + 1,
               if p == 0 then rested else o, if p == 0 then o else rested))
  {
    var s := At(cfg, Some(p), p, wsel, false, true, reg, count, if p == 0 then Asking else other,
                if p == 0 then other else Asking);
    var i := Offer(cfg, p == 0, p == 1, true, false);
    var o := NextAsk(other, false, false);
    assert i.wanted[p];
    NoPort(cfg.slaves, s.t.arb, RequestsOf(cfg, s, i), Acknowledges(s.t, i.wanted, i.ready));
    hide CounterValues;
    StepFrom(cfg, s, i, At(cfg, None, p, p, true, false, Counted(reg, true, false, CounterValues(cfg.issue)), count + 1,
                           if p == 0 then Resting(2) else o, if p == 0 then o else Resting(2)));
  }

  /** Nobody asks, and a write burst, if one is routed, ends. */
  lemma StepQuiet(cfg: Config, last: nat, wsel: nat, wval: bool, reg: nat, count: nat, a0: Ask, a1: Ask)
    requires cfg.slaves >= 2 && last < cfg.slaves && reg < CounterValues(cfg.issue) && !a0.Asking? && !a1.Asking?
    ensures Steps(cfg, At(cfg, None, last, wsel, wval, !wval, reg, count, a0, a1),
                  Offer(cfg, false, false, false, true),
                  At(cfg, None, last, wsel, false, true, reg, count, NextAsk(a0, false, false),
                     NextAsk(a1, false, false)))
  {
    var s, i := At(cfg, None, last, wsel, wval, !wval, reg, count, a0, a1), Offer(cfg, false, false, false, true);
    NoPort(cfg.slaves, s.t.arb, RequestsOf(cfg, s, i), Acknowledges(s.t, i.wanted, i.ready));
    hide CounterValues;
    StepFrom(cfg, s, i, At(cfg, None, last, wsel, false, true, reg, count, NextAsk(a0, false, false),
                           NextAsk(a1, false, false)));
  }

  /** Slave 0 holds the grant and slave 1 waits; on the write side the route of slave
      0 is set, and then its burst ends before its address is taken. */
  lemma StepWait(cfg: Config, wsel: nat, routed: bool, reg: nat, count: nat, a1: Ask)
    requires cfg.slaves >= 2 && reg < CounterValues(cfg.issue) && !a1.Resting?
    ensures Steps(cfg, At(cfg, Some(0), 0, wsel, routed, !routed, reg, count, Asking, a1),
                  Offer(cfg, true, true, false, routed),
                  At(cfg, Some(0), 0, if routed then wsel else 0, !routed, false, reg, count, Asking, Asking))
  {
    var s, i := At(cfg, Some(0), 0, wsel, routed, !routed, reg, count, Asking, a1),
      Offer(cfg, true, true, false, routed);
    PortHolds(cfg.slaves, s.t.arb, RequestsOf(cfg, s, i), Acknowledges(s.t, i.wanted, i.ready));
    hide CounterValues;
    StepFrom(cfg, s, i, At(cfg, Some(0), 0, if routed then wsel else 0, !routed, false, reg, count, Asking, Asking));
  }

  /** The address of slave 0 is taken, and in the same clock slave 1 is granted. */
  lemma StepHandOver(cfg: Config, reg: nat, count: nat)
    requires cfg.slaves >= 2 && reg < cfg.issue
    ensures Steps(cfg, At(cfg, Some(0), 0, 0, false, false, reg, count, Asking, Asking),
                  Offer(cfg, true, true, true, false),
                  At(cfg, Some(1), 1, 0, false, true, reg + 1, count + 1, Resting(2), Asking))
  {
    var s, i := At(cfg, Some(0), 0, 0, false, false, reg, count, Asking, Asking), Offer(cfg, true, true, true, false);
    assert i.wanted[0];
    OnlyPort(cfg.slaves, s.t.arb, RequestsOf(cfg, s, i), Acknowledges(s.t, i.wanted, i.ready), 1);
    hide CounterValues;
    StepFrom(cfg, s, i, At(cfg, Some(1), 1, 0, false, true, reg + 1, count + 1, Resting(2), Asking));
  }

  function Last(run: Run): State
    requires run.states != []
  {
    run.states[|run.states| - 1]
  }

  lemma Extend(cfg: Config, run: Run, i: Clock, s': State) returns (run': Run)
    requires IsRun(cfg, run) && Steps(cfg, Last(run), i, s')
    ensures IsRun(cfg, run') && Last(run') == s'
  {
    hide Shaped, ClockFits, Next, Start;
    run' := Run(run.states + [s'], run.clocks + [i]);
    forall k | 0 <= k < |run'.clocks|
      ensures StepAt(cfg, run', k)
    {
      if k < |run.clocks| {
        assert StepAt(cfg, run, k);
      }
    }
  }

  /** Slave 0 alone starts k transactions and none of them completes. */
  lemma {:induction false} Ramp(cfg: Config, k: nat) returns (run: Run, last: nat)
    requires cfg.slaves >= 2 && k <= cfg.issue
    ensures IsRun(cfg, run) && last < cfg.slaves
    ensures Last(run) == At(cfg, None, last, 0, false, true, k, k, Free, Free)
  {
    hide IsRun, Steps, At, Offer, CounterValues;
    if k == 0 {
      last := cfg.slaves - 1;
      run := Run([Start(cfg)], []);
      RampStarts(cfg);
    } else {
      run, last := Ramp(cfg, k - 1);
      StepGrant(cfg, last, 0, k - 1, k - 1, Free);
      run := Extend(cfg, run, Offer(cfg, true, false, false, false),
                    At(cfg, Some(0), 0, 0, false, true, k - 1, k - 1, Asking, Free));
      StepStart(cfg, 0, 0, k - 1, k - 1, Free);
      run := Extend(cfg, run, Offer(cfg, true, false, true, false),
                    At(cfg, None, 0, 0, true, false, k, k, Resting(2), Free));
      StepQuiet(cfg, 0, 0, true, k, k, Resting(2), Free);
      run := Extend(cfg, run, Offer(cfg, false, false, false, true),
                    At(cfg, None, 0, 0, false, true, k, k, Resting(1), Free));
      StepQuiet(cfg, 0, 0, false, k, k, Resting(1), Free);
      run := Extend(cfg, run, Offer(cfg, false, false, false, true),
                    At(cfg, None, 0, 0, false, true, k, k, Free, Free));
      last := 0;
    }
  }

  lemma RampStarts(cfg: Config)
    requires cfg.slaves >= 2
    ensures IsRun(cfg, Run([Start(cfg)], []))
    ensures Start(cfg) == At(cfg, None, cfg.slaves - 1, 0, false, true, 0, 0, Free, Free)
  {
    assert Start(cfg).asks == At(cfg, None, cfg.slaves - 1, 0, false, true, 0, 0, Free, Free).asks;
  }

  /** The register after one start too many. */
  function Beyond(cfg: Config): nat {
    Counted(cfg.issue, true, false, CounterValues(cfg.issue))
  }

  /** With two slaves a run has M_ISSUE+1 transactions in flight: the grant of the
      last one was chosen in the clock in which the one before it started. */
  lemma LimitIsPassed(cfg: Config) returns (run: Run)
    requires cfg.slaves >= 2 && cfg.issue > 0
    ensures IsRun(cfg, run)
    ensures Last(run) == At(cfg, None, 1, 1, true, false, Beyond(cfg), cfg.issue + 1, Resting(1), Resting(2))
    ensures Last(run).count == cfg.issue + 1 && Last(run).reg == Beyond(cfg)
  {
    hide IsRun, Steps, Offer, CounterValues, Counted;
    var k := cfg.issue - 1;
    var last;
    run, last := Ramp(cfg, k);
    StepGrant(cfg, last, 0, k, k, Free);
    run := Extend(cfg, run, Offer(cfg, true, false, false, false),
                  At(cfg, Some(0), 0, 0, false, true, k, k, Asking, Free));
    StepWait(cfg, 0, false, k, k, Free);
    run := Extend(cfg, run, Offer(cfg, true, true, false, false),
                  At(cfg, Some(0), 0, 0, true, false, k, k, Asking, Asking));
    StepWait(cfg, 0, true, k, k, Asking);
    run := Extend(cfg, run, Offer(cfg, true, true, false, true),
                  At(cfg, Some(0), 0, 0, false, false, k, k, Asking, Asking));
    StepHandOver(cfg, k, k);
    run := Extend(cfg, run, Offer(cfg, true, true, true, false),
                  At(cfg, Some(1), 1, 0, false, true, k + 1, k + 1, Resting(2), Asking));
    StepStart(cfg, 1, 0, k + 1, k + 1, Resting(2));
    run := Extend(cfg, run, Offer(cfg, false, true, true, false),
                  At(cfg, None, 1, 1, true, false, Beyond(cfg), k + 2, Resting(1), Resting(2)));
  }

  /** If M_ISSUE+1 is a power of two the register has wrapped to zero by then, and
      yet another grant is given. */
  lemma WrappedRegisterGrants(cfg: Config) returns (run: Run)
    requires cfg.slaves >= 2 && cfg.issue > 0 && cfg.issue + 1 == CounterValues(cfg.issue)
    ensures IsRun(cfg, run) && Outstanding(Last(run)) == cfg.issue + 2 && Last(run).reg == 0
  {
    hide IsRun, Steps, Offer, CounterValues;
    var n := cfg.issue + 1;
    run := LimitIsPassed(cfg);
    assert Beyond(cfg) == 0;
    StepQuiet(cfg, 1, 1, true, 0, n, Resting(1), Resting(2));
    run := Extend(cfg, run, Offer(cfg, false, false, false, true),
                  At(cfg, None, 1, 1, false, true, 0, n, Free, Resting(1)));
    StepGrant(cfg, 1, 1, 0, n, Resting(1));
    run := Extend(cfg, run, Offer(cfg, true, false, false, false),
                  At(cfg, Some(0), 0, 1, false, true, 0, n, Asking, Free));
  }

  // The exact conditions

  /** A single slave never passes the limit, and its register is always exact. */
  lemma OneSlaveKeepsLimit(cfg: Config)
    requires cfg.slaves == 1 && cfg.issue > 0
    ensures BoundHolds(cfg, cfg.issue) && RegisterExact(cfg)
  {
    forall run: Run, k: nat | IsRun(cfg, run) && k < |run.states|
      ensures Outstanding(run.states[k]) <= cfg.issue && run.states[k].reg == run.states[k].count
    {
      RunWithin(cfg, run, k);
    }
  }

  /** Main result. With two or more slaves transactions in flight plus an
      outstanding grant can pass M_ISSUE; on either side they stay within M_ISSUE+1,
      and the register counts them, exactly if M_ISSUE+1 is not a power of two. */
  lemma ManySlavesExactly(cfg: Config)
    requires cfg.slaves >= 2 && cfg.issue > 0
    ensures !BoundHolds(cfg, cfg.issue)
    ensures BoundHolds(cfg, cfg.issue + 1) <==> !exists w: nat :: cfg.issue + 1 == Pow2(w)
    ensures RegisterExact(cfg) <==> !exists w: nat :: cfg.issue + 1 == Pow2(w)
  {
    PowerOfTwo(cfg.issue);
    var passed := LimitIsPassed(cfg);
    assert Outstanding(passed.states[|passed.states| - 1]) == cfg.issue + 1;
    hide IsRun, At;
    if cfg.issue + 1 == CounterValues(cfg.issue) {
      assert Last(passed).reg != Last(passed).count;
      var run := WrappedRegisterGrants(cfg);
      assert Outstanding(run.states[|run.states| - 1]) > cfg.issue + 1;
    } else {
      forall run: Run, k: nat | IsRun(cfg, run) && k < |run.states|
        ensures Outstanding(run.states[k]) <= cfg.issue + 1 && run.states[k].reg == run.states[k].count
      {
        RunWithin(cfg, run, k);
      }
    }
  }

  lemma PowerOfTwo(issue: nat)
    ensures issue + 1 == CounterValues(issue) <==> exists w: nat :: issue + 1 == Pow2(w)
  {
    var c := Clog2(issue + 1);
    assert CounterValues(issue) == Pow2(c);
    if w: nat :| issue + 1 == Pow2(w) {
      if c < w {
        Pow2Monotonic(c + 1, w);
      } else if w < c {
        Pow2Monotonic(w, c - 1);
      }
      assert c == w;
    }
  }
}
