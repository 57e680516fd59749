/** The write crossbar does not get stuck. While the environment is willing and no new
    address is admitted, every clock lets a write beat through or brings a burst closer
    to its end, until everything admitted has left. */
module CrossbarProgress {
  import opened Common
  import opened WriteRouting
  import opened CrossbarWr
  import RoundRobin

  /** What slave interface m still has to do: its address to be granted and taken, its
      write command to be taken, its burst to end, its address stage to become idle. */
  function Work(st: State, m: nat): nat
    requires m < |st.s| && st.s[m].sel < |st.t|
  {
    AddressWork(st, m) + OwnWork(st.s[m])
  }

  function AddressWork(st: State, m: nat): nat
    requires m < |st.s| && st.s[m].sel < |st.t|
  {
    if !st.s[m].avalid then 0 else if st.t[st.s[m].sel].arb.holder == Some(m) then 1 else 2
  }

  function OwnWork(s: Slave): nat {
    (if s.wcv then 2 else 0) + (if s.wval then 1 else 0) + (if s.decode then 1 else 0)
  }

  function TotalWork(cfg: Config, st: State, k: nat): nat
    requires Shaped(cfg, st) && k <= cfg.slaves
  {
    if k == 0 then 0
    else
      assert SlaveShaped(cfg, st.s[k - 1]);
      TotalWork(cfg, st, k - 1) + Work(st, k - 1)
  }

  /** Targets are ready, no transaction limit is reached, slaves with a write data route
      offer a beat. */
  predicate Willing<W>(cfg: Config, st: State, i: Inputs<W>)
    requires Shaped(cfg, st) && InputsFit(cfg, i)
  {
    && (forall n :: 0 <= n < cfg.masters ==> i.t[n].awready && i.t[n].wready && !i.t[n].limit)
    && (forall m :: 0 <= m < cfg.slaves && st.s[m].wval ==> i.s[m].wvalid)
  }

  predicate NothingNew<W>(cfg: Config, st: State, i: Inputs<W>)
    requires Shaped(cfg, st) && InputsFit(cfg, i)
  {
    forall m :: 0 <= m < cfg.slaves ==> !Admits(st.s[m], i.s[m].decoded, i.s[m].admit)
  }

  /** A beat with more of its burst to come leaves slave interface m. */
  predicate LongBeat<W>(cfg: Config, st: State, i: Inputs<W>, m: nat)
    requires Shaped(cfg, st) && InputsFit(cfg, i) && m < cfg.slaves
  {
    Taken(cfg, st, i, m) && !i.s[m].wlast
  }

  /** A grant that is not acknowledged stays. */
  lemma GrantStays(t: Master, last: bool, grants: bool, acked: bool, t': Master)
    requires MasterMoves(t, last, grants, acked, t') && t.arb.holder.Some? && !acked
    ensures t'.arb.holder == t.arb.holder
  {
  }

  /** No clock adds to the work of a slave interface without a new address. */
  lemma NoWorse<W>(cfg: Config, st: State, log: Log<W>, i: Inputs<W>, st': State, m: nat)
    requires Inv(cfg, st, log) && InputsFit(cfg, i) && Next(cfg, st, i, st') && Shaped(cfg, st') && m < cfg.slaves
    requires !Admits(st.s[m], i.s[m].decoded, i.s[m].admit)
    ensures SlaveShaped(cfg, st.s[m]) && SlaveShaped(cfg, st'.s[m])
    ensures AddressWork(st', m) <= AddressWork(st, m) && OwnWork(st'.s[m]) <= OwnWork(st.s[m])
  {
    var n := st.s[m].sel;
    assert SlaveInv(st.s[m], log.s[m]) && SlaveShaped(cfg, st.s[m]) && SlaveShaped(cfg, st'.s[m]);
    assert SlaveStep(cfg, st, i, m, st'.s[m]);
    assert PairInv(st.s[m], log.s[m], st.t[n], log.t[n], m, n);
    MasterSees(cfg, st, i, st', n);
    hide MasterStep, GrantsAt, Follows, Bursts, Aims, Numbered, GrantedFrom, Select, MasterMoves;
    if st.t[n].arb.holder == Some(m) && !AckedAt(cfg, st, i, n) {
      GrantStays(st.t[n], MasterLast(cfg, st, i, n), GrantsAt(cfg, st, i, n), false, st'.t[n]);
    }
    hide Inv, Linked, Taken;
  }

  /** The other progress of a slave interface: its write command is taken, or its
      burst ends, or its address stage becomes idle. */
  lemma OwnWorkLess(s: Slave, decoded: Option<nat>, admit: bool, awReady: bool, last: bool)
    requires !Admits(s, decoded, admit)
    ensures OwnWork(SlaveNext(s, decoded, admit, awReady, last)) <= OwnWork(s)
    ensures (s.wcv && !s.wval) || (s.wval && last) || (s.decode && !s.avalid && !s.wcv) ==>
              OwnWork(SlaveNext(s, decoded, admit, awReady, last)) < OwnWork(s)
  {
  }

  /** Slave interface m makes progress in this clock. */
  ghost predicate Advances<W>(cfg: Config, st: State, i: Inputs<W>, st': State, m: nat)
    requires Shaped(cfg, st) && InputsFit(cfg, i) && Shaped(cfg, st')
  {
    && m < cfg.slaves && SlaveShaped(cfg, st.s[m]) && SlaveShaped(cfg, st'.s[m])
    && (Work(st', m) < Work(st, m) || LongBeat(cfg, st, i, m))
  }

  /** All that the following cases have in common. */
  ghost predicate Clock<W>(cfg: Config, st: State, log: Log<W>, i: Inputs<W>, st': State) {
    && Inv(cfg, st, log) && InputsFit(cfg, i) && Shaped(cfg, st') && Next(cfg, st, i, st')
    && Willing(cfg, st, i) && NothingNew(cfg, st, i)
  }

  /** Where the route stands, a beat leaves. */
  lemma SenderAdvances<W>(cfg: Config, st: State, log: Log<W>, i: Inputs<W>, st': State, m: nat)
    requires Clock(cfg, st, log, i, st') && m < cfg.slaves && SlaveShaped(cfg, st.s[m])
    requires st.s[m].wval && Routes(st.t[st.s[m].wsel], m)
    ensures Advances(cfg, st, i, st', m)
  {
    NoWorse(cfg, st, log, i, st', m);
    assert Taken(cfg, st, i, m);
    assert SlaveStep(cfg, st, i, m, st'.s[m]);
    OwnWorkLess(st.s[m], i.s[m].decoded, i.s[m].admit, AwReady(cfg, st, i, m), SlaveLast(cfg, st, i, m));
    hide Inv, SlaveNext, Next, AddressWork, OwnWork, AwReady;
  }

  lemma CommandAdvances<W>(cfg: Config, st: State, log: Log<W>, i: Inputs<W>, st': State, m: nat)
    requires Clock(cfg, st, log, i, st') && m < cfg.slaves
    requires
      var s := st.s[m];
      (s.wcv && !s.wval) || (s.decode && !s.avalid && !s.wcv)
    ensures Advances(cfg, st, i, st', m)
  {
    NoWorse(cfg, st, log, i, st', m);
    assert SlaveStep(cfg, st, i, m, st'.s[m]);
    OwnWorkLess(st.s[m], i.s[m].decoded, i.s[m].admit, AwReady(cfg, st, i, m), SlaveLast(cfg, st, i, m));
    hide Inv, SlaveNext, Next, AddressWork, OwnWork, AwReady, SlaveLast, Taken;
  }

  /** A granted address is taken. */
  lemma GrantedAdvances<W>(cfg: Config, st: State, log: Log<W>, i: Inputs<W>, st': State, m: nat)
    requires Clock(cfg, st, log, i, st') && m < cfg.slaves && SlaveShaped(cfg, st.s[m])
    requires st.s[m].avalid && st.t[st.s[m].sel].arb.holder == Some(m)
    ensures Advances(cfg, st, i, st', m)
  {
    NoWorse(cfg, st, log, i, st', m);
    assert AwReady(cfg, st, i, m);
    assert SlaveStep(cfg, st, i, m, st'.s[m]);
    assert SlaveInv(st.s[m], log.s[m]);
    hide Inv, Follows, Bursts, Aims, Numbered, OwnWork, SlaveLast, Taken;
  }

  /** A free master interface without a route in use grants one of those who ask. */
  lemma AskerIsGranted<W>(cfg: Config, st: State, log: Log<W>, i: Inputs<W>, st': State, m: nat) returns (q: nat)
    requires Clock(cfg, st, log, i, st') && m < cfg.slaves && SlaveShaped(cfg, st.s[m]) && st.s[m].avalid
    requires
      var n := st.s[m].sel;
      st.t[n].arb.holder.None? && !RouteNext(st.t[n], MasterLast(cfg, st, i, n))
    ensures Advances(cfg, st, i, st', q)
  {
    var n := st.s[m].sel;
    assert MasterShaped(cfg, st.t[n]);
    Asks(st.t[n], Wanted(cfg, st, n), i.t[n].awready, MasterLast(cfg, st, i, n), m);
    MasterSees(cfg, st, i, st', n);
    q := st'.t[n].arb.holder.value;
    NoWorse(cfg, st, log, i, st', q);
    assert Wanted(cfg, st, n)[q];
    hide Inv, OwnWork, Taken, MasterLast, Next;
    NewlyHeld(cfg, st, log, i, st', q);
  }

  lemma Asks(t: Master, wanted: seq<bool>, awReady: bool, last: bool, m: nat)
    requires RoundRobin.InRange(ArbiterConfig(|wanted|), t.arb) && t.arb.holder.None?
    requires m < |wanted| && wanted[m] && !RouteNext(t, last)
    ensures Grants(t, wanted, false, awReady, last)
  {
    assert Requests(t, wanted, false, last)[m];
  }

  lemma NewlyHeld<W>(cfg: Config, st: State, log: Log<W>, i: Inputs<W>, st': State, q: nat)
    requires Clock(cfg, st, log, i, st') && q < cfg.slaves && SlaveShaped(cfg, st.s[q]) && SlaveShaped(cfg, st'.s[q])
    requires st.s[q].avalid && st.t[st.s[q].sel].arb.holder.None? && st'.t[st.s[q].sel].arb.holder == Some(q)
    ensures AddressWork(st', q) < AddressWork(st, q)
  {
    assert SlaveStep(cfg, st, i, q, st'.s[q]) && SlaveInv(st.s[q], log.s[q]);
    hide Inv, Follows, Bursts, Aims, Numbered, Taken, MasterStep;
  }

  /** Someone who stands in the way of the address of m. */
  lemma WaitingAdvances<W>(cfg: Config, st: State, log: Log<W>, i: Inputs<W>, st': State, m: nat) returns (q: nat)
    requires Clock(cfg, st, log, i, st') && m < cfg.slaves && st.s[m].avalid
    ensures Advances(cfg, st, i, st', q)
  {
    assert SlaveShaped(cfg, st.s[m]);
    var n := st.s[m].sel;
    assert MasterShaped(cfg, st.t[n]);
    hide Advances, Willing, NothingNew, Taken, Next, MasterShaped;
    match st.t[n].arb.holder {
      case Some(p) =>
        HolderAsks(cfg, st, log, p, n);
        GrantedAdvances(cfg, st, log, i, st', p);
        q := p;
      case None =>
        if RouteNext(st.t[n], MasterLast(cfg, st, i, n)) {
          q := RouteOwnerAdvances(cfg, st, log, i, st', n);
        } else {
          q := AskerIsGranted(cfg, st, log, i, st', m);
        }
    }
  }

  lemma HolderAsks<W>(cfg: Config, st: State, log: Log<W>, p: nat, n: nat)
    requires Inv(cfg, st, log) && n < cfg.masters && st.t[n].arb.holder == Some(p)
    ensures p < cfg.slaves && SlaveShaped(cfg, st.s[p]) && st.s[p].avalid && st.s[p].sel == n
  {
    assert MasterShaped(cfg, st.t[n]);
    assert PairInv(st.s[p], log.s[p], st.t[n], log.t[n], p, n);
  }

  /** The slave interface that a route is set for sends, or will once its last burst ends. */
  lemma RouteOwner<W>(cfg: Config, st: State, log: Log<W>, p: nat, n: nat)
    requires Inv(cfg, st, log) && n < cfg.masters && p < cfg.slaves && Routes(st.t[n], p)
    ensures SlaveShaped(cfg, st.s[p])
    ensures SendsTo(st.s[p], n) || (st.s[p].wcv && st.s[p].sel == n)
  {
    assert SlaveShaped(cfg, st.s[p]);
    assert PairInv(st.s[p], log.s[p], st.t[n], log.t[n], p, n);
  }

  /** A slave interface with a write data route has it at the master interface as well,
      or its next address waits there. */
  lemma SenderRoutes<W>(cfg: Config, st: State, log: Log<W>, p: nat)
    requires Inv(cfg, st, log) && p < cfg.slaves && st.s[p].wval
    ensures SlaveShaped(cfg, st.s[p])
    ensures Routes(st.t[st.s[p].wsel], p) || (st.s[p].avalid && st.s[p].sel == st.s[p].wsel)
  {
    assert SlaveShaped(cfg, st.s[p]);
    assert PairInv(st.s[p], log.s[p], st.t[st.s[p].wsel], log.t[st.s[p].wsel], p, st.s[p].wsel);
  }

  lemma RouteOwnerAdvances<W>(cfg: Config, st: State, log: Log<W>, i: Inputs<W>, st': State, n: nat) returns (q: nat)
    requires Clock(cfg, st, log, i, st') && n < cfg.masters && st.t[n].wval
    ensures Advances(cfg, st, i, st', q)
  {
    assert MasterShaped(cfg, st.t[n]);
    q := st.t[n].wsel;
    hide Advances, Willing, NothingNew, Taken, Next, MasterShaped, Inv;
    RouteOwner(cfg, st, log, q, n);
    if SendsTo(st.s[q], n) {
      SenderAdvances(cfg, st, log, i, st', q);
    } else if !st.s[q].wval {
      CommandAdvances(cfg, st, log, i, st', q);
    } else {
      SenderRoutes(cfg, st, log, q);
      SenderAdvances(cfg, st, log, i, st', q);
    }
  }

  /** No deadlock: if anything is left to do, some slave interface makes progress. */
  lemma SomethingAdvances<W>(cfg: Config, st: State, log: Log<W>, i: Inputs<W>, st': State, m: nat) returns (q: nat)
    requires Clock(cfg, st, log, i, st') && m < cfg.slaves && SlaveShaped(cfg, st.s[m]) && Work(st, m) > 0
    ensures Advances(cfg, st, i, st', q)
  {
    var s := st.s[m];
    hide Advances, Willing, NothingNew, Taken, Next, Inv;
    if s.avalid {
      q := WaitingAdvances(cfg, st, log, i, st', m);
    } else if s.wval {
      SenderRoutes(cfg, st, log, m);
      SenderAdvances(cfg, st, log, i, st', m);
      q := m;
    } else {
      CommandAdvances(cfg, st, log, i, st', m);
      q := m;
    }
  }

  // The crossbar as a whole

  lemma WorkNoWorse<W>(cfg: Config, st: State, log: Log<W>, i: Inputs<W>, st': State, m: nat)
    requires Inv(cfg, st, log) && InputsFit(cfg, i) && Next(cfg, st, i, st') && Shaped(cfg, st') && m < cfg.slaves
    requires NothingNew(cfg, st, i)
    ensures SlaveShaped(cfg, st.s[m]) && SlaveShaped(cfg, st'.s[m]) && Work(st', m) <= Work(st, m)
  {
    hide Inv, Next, AddressWork, OwnWork;
    NoWorse(cfg, st, log, i, st', m);
  }

  lemma {:induction false} TotalNoWorse<W>(cfg: Config, st: State, log: Log<W>, i: Inputs<W>, st': State, k: nat)
    requires Inv(cfg, st, log) && InputsFit(cfg, i) && Next(cfg, st, i, st') && Shaped(cfg, st') && k <= cfg.slaves
    requires NothingNew(cfg, st, i)
    ensures TotalWork(cfg, st', k) <= TotalWork(cfg, st, k)
  {
    hide Inv, Next, NothingNew, InputsFit, Work;
    if k > 0 {
      TotalNoWorse(cfg, st, log, i, st', k - 1);
      WorkNoWorse(cfg, st, log, i, st', k - 1);
    }
  }

  lemma {:induction false} TotalLess<W>(cfg: Config, st: State, log: Log<W>, i: Inputs<W>, st': State, q: nat, k: nat)
    requires Inv(cfg, st, log) && InputsFit(cfg, i) && Next(cfg, st, i, st') && Shaped(cfg, st')
    requires NothingNew(cfg, st, i) && q < k <= cfg.slaves && SlaveShaped(cfg, st.s[q]) && SlaveShaped(cfg, st'.s[q])
    requires Work(st', q) < Work(st, q)
    ensures TotalWork(cfg, st', k) < TotalWork(cfg, st, k)
    decreases k
  {
    hide Inv, Next, NothingNew, InputsFit, Work;
    if q < k - 1 {
      TotalLess(cfg, st, log, i, st', q, k - 1);
      WorkNoWorse(cfg, st, log, i, st', k - 1);
    } else {
      TotalNoWorse(cfg, st, log, i, st', k - 1);
    }
  }

  lemma {:induction false} SomeoneWorks(cfg: Config, st: State, k: nat) returns (m: nat)
    requires Shaped(cfg, st) && k <= cfg.slaves && TotalWork(cfg, st, k) > 0
    ensures m < k && SlaveShaped(cfg, st.s[m]) && Work(st, m) > 0
  {
    assert SlaveShaped(cfg, st.s[k - 1]);
    if Work(st, k - 1) > 0 {
      m := k - 1;
    } else {
      m := SomeoneWorks(cfg, st, k - 1);
    }
  }

  ghost predicate SomeLongBeat<W>(cfg: Config, st: State, i: Inputs<W>)
    requires Shaped(cfg, st) && InputsFit(cfg, i)
  {
    exists m :: 0 <= m < cfg.slaves && LongBeat(cfg, st, i, m)
  }

  lemma TotalFalls<W>(cfg: Config, st: State, log: Log<W>, i: Inputs<W>, st': State)
    requires Clock(cfg, st, log, i, st')
    ensures TotalWork(cfg, st', cfg.slaves) <= TotalWork(cfg, st, cfg.slaves)
    ensures TotalWork(cfg, st, cfg.slaves) > 0 ==>
              TotalWork(cfg, st', cfg.slaves) < TotalWork(cfg, st, cfg.slaves) || SomeLongBeat(cfg, st, i)
  {
    TotalNoWorse(cfg, st, log, i, st', cfg.slaves);
    if TotalWork(cfg, st, cfg.slaves) > 0 {
      hide Inv, Next, Willing, NothingNew, Taken, AddressWork, OwnWork;
      var m := SomeoneWorks(cfg, st, cfg.slaves);
      var q := SomethingAdvances(cfg, st, log, i, st', m);
      if Work(st', q) < Work(st, q) {
        TotalLess(cfg, st, log, i, st', q, cfg.slaves);
      } else {
        assert LongBeat(cfg, st, i, q);
      }
    }
  }

  /** The clocks from a on and before b in which a beat leaves that is not its burst's last. */
  ghost function LongBeats<W>(cfg: Config, run: Run<W>, a: nat, b: nat): nat
    requires IsRun(cfg, run) && a <= b < |run.states|
    decreases b
  {
    if a == b then 0
    else
      assert StepAt(cfg, run, b - 1);
      LongBeats(cfg, run, a, b - 1) + (if SomeLongBeat(cfg, run.states[b - 1], run.inputs[b - 1]) then 1 else 0)
  }

  ghost predicate WillingClock<W>(cfg: Config, run: Run<W>, k: nat)
    requires IsRun(cfg, run) && k < |run.inputs|
  {
    assert StepAt(cfg, run, k);
    Willing(cfg, run.states[k], run.inputs[k]) && NothingNew(cfg, run.states[k], run.inputs[k])
  }

  function TotalAt<W>(cfg: Config, run: Run<W>, k: nat): nat
    requires k < |run.states| && Shaped(cfg, run.states[k])
  {
    TotalWork(cfg, run.states[k], cfg.slaves)
  }

  /** The same of a run: each clock brings the total down or lets a long beat through. */
  lemma {:induction false} RunFalls<W>(cfg: Config, run: Run<W>, a: nat, b: nat)
    requires IsRun(cfg, run) && a <= b < |run.states|
    requires forall k :: a <= k < b ==> WillingClock(cfg, run, k)
    ensures Shaped(cfg, run.states[a]) && Shaped(cfg, run.states[b])
    ensures TotalAt(cfg, run, b) == 0
            || TotalAt(cfg, run, b) + (b - a) <= TotalAt(cfg, run, a) + LongBeats(cfg, run, a, b)
    decreases b
  {
    hide Inv, Next, LogNext, Willing, NothingNew, SomeLongBeat, TotalWork;
    RunKeepsInv(cfg, run, a);
    InvShaped(cfg, run.states[a], run.logs[a]);
    if a < b {
      RunFalls(cfg, run, a, b - 1);
      assert StepAt(cfg, run, b - 1) && WillingClock(cfg, run, b - 1);
      RunKeepsInv(cfg, run, b - 1);
      TotalFalls(cfg, run.states[b - 1], run.logs[b - 1], run.inputs[b - 1], run.states[b]);
    }
  }

  lemma InvShaped<W>(cfg: Config, st: State, log: Log<W>)
    requires Inv(cfg, st, log)
    ensures Shaped(cfg, st)
  {
  }

  // What is left when nothing is left to do

  predicate AtRest(cfg: Config, st: State)
    requires Shaped(cfg, st)
  {
    TotalWork(cfg, st, cfg.slaves) == 0
  }

  lemma {:induction false} RestAt(cfg: Config, st: State, m: nat, k: nat)
    requires Shaped(cfg, st) && m < k <= cfg.slaves && TotalWork(cfg, st, k) == 0
    ensures
      var s := st.s[m];
      !s.avalid && !s.wcv && !s.wval && !s.decode
    decreases k
  {
    if m < k - 1 {
      RestAt(cfg, st, m, k - 1);
    }
  }

  /** Every finished burst of a slave interface is among its beats. */
  lemma {:induction false} BurstIsThere<W>(beats: seq<Beat<W>>, j: nat) returns (k: nat)
    requires j < Bursts(beats)
    ensures k < |beats| && Bursts(beats[..k]) == j && beats[k].last
  {
    var n := |beats| - 1;
    if j < Bursts(beats[..n]) {
      k := BurstIsThere(beats[..n], j);
      assert beats[..n][..k] == beats[..k];
    } else {
      k := n;
    }
  }

  lemma {:induction false} SelectHas<W>(beats: seq<Beat<W>>, k: nat)
    requires k < |beats|
    ensures (beats[k].of.index, beats[k].last, beats[k].data) in Select(beats, beats[k].of.peer)
  {
    if k < |beats| - 1 {
      SelectHas(beats[..|beats| - 1], k);
    }
  }

  lemma {:induction false} SelectFrom<W>(beats: seq<Beat<W>>, peer: nat, x: (nat, bool, W)) returns (k: nat)
    requires x in Select(beats, peer)
    ensures k < |beats| && beats[k].of == Burst(peer, x.0)
  {
    var n := |beats| - 1;
    if x in Select(beats[..n], peer) {
      k := SelectFrom(beats[..n], peer, x);
    } else {
      k := n;
    }
  }

  /** The address of a finished burst has been granted where it was sent to. */
  lemma FinishedIsGranted<W>(cfg: Config, st: State, log: Log<W>, m: nat, j: nat)
    requires Inv(cfg, st, log) && m < cfg.slaves && j < Bursts(log.s[m].sent)
    ensures j < |log.s[m].aw| && log.s[m].aw[j].peer < cfg.masters ==>
              Burst(m, j) in log.t[log.s[m].aw[j].peer].grants
  {
    hide Linked, Select, Bursts, GrantedFrom;
    var sent, aw := log.s[m].sent, log.s[m].aw;
    assert SlaveInv(st.s[m], log.s[m]);
    var k := BurstIsThere(sent, j);
    assert FollowsAt(sent, aw, k);
    if j < |aw| && aw[j].peer < cfg.masters {
      var n := aw[j].peer;
      SelectHas(sent, k);
      assert PairInv(st.s[m], log.s[m], st.t[n], log.t[n], m, n);
      var d := SelectFrom(log.t[n].out, m, (sent[k].of.index, sent[k].last, sent[k].data));
      assert MasterInv(st.t[n], log.t[n]);
      assert FollowsAt(log.t[n].out, log.t[n].grants, d);
    }
  }

  lemma {:induction false} PeersExist<W>(cfg: Config, run: Run<W>, k: nat, m: nat)
    requires IsRun(cfg, run) && k < |run.states| && m < cfg.slaves
    ensures LogFits(cfg, run.logs[k])
    ensures forall j :: 0 <= j < |run.logs[k].s[m].aw| ==> run.logs[k].s[m].aw[j].peer < cfg.masters
  {
    hide Next, Start, Taken, NextMasterLog, Bursts;
    if k > 0 {
      PeersExist(cfg, run, k - 1, m);
      assert StepAt(cfg, run, k - 1);
    }
  }

  /** At rest every address admitted was granted and has left, and the bursts of all of
      them were sent to their last beat. */
  lemma RestIsDone<W>(cfg: Config, run: Run<W>, k: nat)
    requires IsRun(cfg, run) && k < |run.states| && Shaped(cfg, run.states[k]) && AtRest(cfg, run.states[k])
    ensures LogFits(cfg, run.logs[k])
    ensures forall m :: 0 <= m < cfg.slaves ==> Bursts(run.logs[k].s[m].sent) == |run.logs[k].s[m].aw|
    ensures forall m, j :: 0 <= m < cfg.slaves && 0 <= j < |run.logs[k].s[m].aw| ==>
              var n := run.logs[k].s[m].aw[j].peer;
              n < cfg.masters && Burst(m, j) in run.logs[k].t[n].grants
    ensures forall n :: 0 <= n < cfg.masters ==> run.logs[k].t[n].awOut == run.logs[k].t[n].grants
  {
    RunKeepsInv(cfg, run, k);
    var st, log := run.states[k], run.logs[k];
    forall m | 0 <= m < cfg.slaves
      ensures forall j :: 0 <= j < |log.s[m].aw| ==> log.s[m].aw[j].peer < cfg.masters
    {
      PeersExist(cfg, run, k, m);
    }
    hide IsRun, Bursts, Follows, Linked, Select, GrantedFrom, AtRest;
    forall m | 0 <= m < cfg.slaves
      ensures Bursts(log.s[m].sent) == |log.s[m].aw|
    {
      assert SlaveInv(st.s[m], log.s[m]);
      AllAtRest(cfg, st, m);
    }
    forall m, j | 0 <= m < cfg.slaves && 0 <= j < |log.s[m].aw|
      ensures Burst(m, j) in log.t[log.s[m].aw[j].peer].grants
    {
      FinishedIsGranted(cfg, st, log, m, j);
    }
    forall n | 0 <= n < cfg.masters
      ensures log.t[n].awOut == log.t[n].grants
    {
      assert MasterInv(st.t[n], log.t[n]);
      if st.t[n].arb.holder.Some? {
        HolderAsks(cfg, st, log, st.t[n].arb.holder.value, n);
        AllAtRest(cfg, st, st.t[n].arb.holder.value);
      }
    }
  }

  lemma AllAtRest(cfg: Config, st: State, m: nat)
    requires Shaped(cfg, st) && AtRest(cfg, st) && m < cfg.slaves
    ensures
      var s := st.s[m];
      !s.avalid && !s.wcv && !s.wval && !s.decode
  {
    RestAt(cfg, st, m, cfg.slaves);
  }

  /** Main result: everything admitted leaves. From any state of any run on, while the
      environment is willing and admits nothing new, there are at most as many clocks
      without a beat from the middle of a burst as the work to do, and then the crossbar
      is at rest. */
  lemma EverythingLeaves<W>(cfg: Config, run: Run<W>, a: nat, b: nat)
    requires IsRun(cfg, run) && a <= b < |run.states|
    requires forall k :: a <= k < b ==> WillingClock(cfg, run, k)
    ensures Shaped(cfg, run.states[a]) && Shaped(cfg, run.states[b])
    ensures b - a >= 6 * cfg.slaves + LongBeats(cfg, run, a, b) ==> AtRest(cfg, run.states[b])
  {
    hide IsRun, WillingClock, LongBeats, TotalWork;
    RunFalls(cfg, run, a, b);
    WorkBound(cfg, run.states[a], cfg.slaves);
  }

  lemma {:induction false} WorkBound(cfg: Config, st: State, k: nat)
    requires Shaped(cfg, st) && k <= cfg.slaves
    ensures TotalWork(cfg, st, k) <= 6 * k
  {
    if k > 0 {
      WorkBound(cfg, st, k - 1);
    }
  }
}
