/** Responses do not get stuck: with the master-side register bypassed, or with a single
    slave interface, every clock in which slaves are ready and targets show their beats
    hands over a beat or grants a response, until all beats are with their slaves. */
module ResponseProgress {
  import opened Common
  import opened ResponseRouting
  import RoundRobin

  /** Slaves are ready, and each target that has beats left shows the next one behind
      its register. */
  predicate Willing<W>(cfg: Config, script: Script<W>, st: State<W>, i: Inputs)
    requires Shaped(cfg, script, st) && InputsFit(cfg, script, st, i)
  {
    && (forall m :: 0 <= m < cfg.slaves ==> i.ready[m])
    && (forall n :: 0 <= n < cfg.masters && Out(cfg, script, st, n) < |script[n]| ==>
          Inner(cfg, script, st, i, n).Some?)
  }

  /** No target stops in the middle of a burst. */
  predicate Complete<W>(script: Script<W>) {
    forall n :: 0 <= n < |script| && script[n] != [] ==> script[n][|script[n]| - 1].last
  }

  /** Master interface n holds the grant of the slave that its next beat is for. */
  predicate Granted<W>(cfg: Config, script: Script<W>, st: State<W>, n: nat)
    requires Shaped(cfg, script, st) && n < cfg.masters && Out(cfg, script, st, n) < |script[n]|
  {
    var m := SlaveOf(cfg, script[n][Out(cfg, script, st, n)].id);
    m < cfg.slaves && st.arbs[m].holder == Some(n)
  }

  /** Two for each beat to come, and one while the next of them has no grant. */
  function Left<W>(cfg: Config, script: Script<W>, st: State<W>, n: nat): nat
    requires Shaped(cfg, script, st) && n < cfg.masters
  {
    var p := Out(cfg, script, st, n);
    2 * (|script[n]| - p) + (if p < |script[n]| && !Granted(cfg, script, st, n) then 1 else 0)
  }

  function TotalLeft<W>(cfg: Config, script: Script<W>, st: State<W>, k: nat): nat
    requires Shaped(cfg, script, st) && k <= cfg.masters
  {
    if k == 0 then 0 else TotalLeft(cfg, script, st, k - 1) + Left(cfg, script, st, k - 1)
  }

  ghost predicate Clock<W>(cfg: Config, script: Script<W>, st: State<W>, i: Inputs, st': State<W>) {
    && Shaped(cfg, script, st) && InputsFit(cfg, script, st, i) && Shaped(cfg, script, st')
    && Direct(cfg) && ScriptFits(cfg, script) && GrantsEngage(cfg, script, st)
    && Next(cfg, script, st, i, st')
  }

  /** A grant ends only with a beat taken from the master interface that holds it. */
  lemma GrantEndsWithBeat<W>(cfg: Config, script: Script<W>, st: State<W>, i: Inputs, st': State<W>, m: nat, n: nat)
    requires Clock(cfg, script, st, i, st') && m < cfg.slaves && n < cfg.masters && st.arbs[m].holder == Some(n)
    ensures Consumed(cfg, script, st, i, n) || st'.arbs[m].holder == Some(n)
  {
    hide SlaveOf, RoundRobin.Next, GrantsEngage, TargetStep, ScriptFits, Select, Inner;
    assert ArbiterStep(cfg, script, st, i, m, st'.arbs[m]);
    ArbiterOutcome(cfg, st.arbs[m], Requests(cfg, script, st, i, m), Acknowledges(cfg, script, st, i, m), st'.arbs[m]);
  }

  /** No clock adds to what a master interface has left, and a beat taken reduces it. */
  lemma NoMoreLeft<W>(cfg: Config, script: Script<W>, st: State<W>, i: Inputs, st': State<W>, n: nat)
    requires Clock(cfg, script, st, i, st') && n < cfg.masters
    ensures Left(cfg, script, st', n) <= Left(cfg, script, st, n)
    ensures Consumed(cfg, script, st, i, n) ==> Left(cfg, script, st', n) < Left(cfg, script, st, n)
  {
    hide SlaveOf, TargetStep, Inner, Select, Consumed;
    TargetMoves(cfg, script, st, i, st', n);
    var p := Out(cfg, script, st, n);
    if p < |script[n]| && Granted(cfg, script, st, n) && !Consumed(cfg, script, st, i, n) {
      GrantEndsWithBeat(cfg, script, st, i, st', SlaveOf(cfg, script[n][p].id), n);
    }
    hide Clock, Out;
  }

  /** A grant that comes to a master interface with a beat for that slave. */
  lemma GrantReduces<W>(cfg: Config, script: Script<W>, st: State<W>, i: Inputs, st': State<W>, m: nat, n: nat)
    requires Clock(cfg, script, st, i, st') && m < cfg.slaves && n < cfg.masters
    requires st.arbs[m].holder.None? && st'.arbs[m].holder == Some(n)
    requires Requests(cfg, script, st, i, m)[n]
    ensures Left(cfg, script, st', n) < Left(cfg, script, st, n)
  {
    hide SlaveOf, TargetStep, Inner, Select;
    InnerIsNext(cfg, script, st, i, n);
    TargetMoves(cfg, script, st, i, st', n);
    assert !Consumed(cfg, script, st, i, n);
    hide Clock, Out;
  }

  /** The holder of a grant has a beat for the slave, which is taken. */
  lemma HolderGives<W>(cfg: Config, script: Script<W>, st: State<W>, i: Inputs, st': State<W>, m: nat, n: nat)
    requires Clock(cfg, script, st, i, st') && Willing(cfg, script, st, i) && Complete(script)
    requires m < cfg.slaves && st.arbs[m].holder == Some(n)
    ensures n < cfg.masters && Consumed(cfg, script, st, i, n)
  {
    hide SlaveOf, Next, Inner, Select, Requests;
    assert GrantEngages(cfg, script, st, m);
    var p := Out(cfg, script, st, n);
    assert p < |script[n]|;
    InnerIsNext(cfg, script, st, i, n);
    assert Uninterleaved(cfg, script[n]);
    NextIsForEngaged(cfg, script[n], p, Offering(cfg, st, n), m);
  }

  /** Who moves when master interface n has a beat left. */
  lemma SomethingMoves<W>(cfg: Config, script: Script<W>, st: State<W>, i: Inputs, st': State<W>, n: nat)
    returns (q: nat)
    requires Clock(cfg, script, st, i, st') && Willing(cfg, script, st, i) && Complete(script)
    requires n < cfg.masters && Out(cfg, script, st, n) < |script[n]|
    ensures q < cfg.masters && Left(cfg, script, st', q) < Left(cfg, script, st, q)
  {
    hide SlaveOf, Inner, Select, TargetStep, Left, Consumed, Next;
    InnerIsNext(cfg, script, st, i, n);
    assert Uninterleaved(cfg, script[n]);
    var m := SlaveOf(cfg, script[n][Out(cfg, script, st, n)].id);
    match st.arbs[m].holder {
      case Some(h) =>
        HolderGives(cfg, script, st, i, st', m, h);
        NoMoreLeft(cfg, script, st, i, st', h);
        q := h;
      case None =>
        assert Requests(cfg, script, st, i, m)[n];
        q := AskerGranted(cfg, script, st, i, st', m, n);
        GrantReduces(cfg, script, st, i, st', m, q);
    }
  }

  lemma AskerGranted<W>(cfg: Config, script: Script<W>, st: State<W>, i: Inputs, st': State<W>, m: nat, n: nat)
    returns (q: nat)
    requires Clock(cfg, script, st, i, st') && m < cfg.slaves && n < cfg.masters
    requires st.arbs[m].holder.None? && Requests(cfg, script, st, i, m)[n]
    ensures q < cfg.masters && st'.arbs[m].holder == Some(q) && Requests(cfg, script, st, i, m)[q]
  {
    hide SlaveOf, Inner, Select, TargetStep, GrantsEngage, ScriptFits;
    assert ArbiterStep(cfg, script, st, i, m, st'.arbs[m]);
    q := st'.arbs[m].holder.value;
  }

  lemma {:induction false} TotalNoMore<W>(cfg: Config, script: Script<W>, st: State<W>, i: Inputs, st': State<W>,
                                          k: nat)
    requires Clock(cfg, script, st, i, st') && k <= cfg.masters
    ensures TotalLeft(cfg, script, st', k) <= TotalLeft(cfg, script, st, k)
  {
    hide Next, Left;
    if k > 0 {
      TotalNoMore(cfg, script, st, i, st', k - 1);
      NoMoreLeft(cfg, script, st, i, st', k - 1);
    }
  }

  lemma {:induction false} TotalLess<W>(cfg: Config, script: Script<W>, st: State<W>, i: Inputs, st': State<W>,
                                        q: nat, k: nat)
    requires Clock(cfg, script, st, i, st') && q < k <= cfg.masters
    requires Left(cfg, script, st', q) < Left(cfg, script, st, q)
    ensures TotalLeft(cfg, script, st', k) < TotalLeft(cfg, script, st, k)
    decreases k
  {
    hide Next, Left;
    if q < k - 1 {
      TotalLess(cfg, script, st, i, st', q, k - 1);
      NoMoreLeft(cfg, script, st, i, st', k - 1);
    } else {
      TotalNoMore(cfg, script, st, i, st', k - 1);
    }
  }

  lemma {:induction false} SomeoneHasLeft<W>(cfg: Config, script: Script<W>, st: State<W>, k: nat) returns (n: nat)
    requires Shaped(cfg, script, st) && k <= cfg.masters && TotalLeft(cfg, script, st, k) > 0
    ensures n < k && Out(cfg, script, st, n) < |script[n]|
  {
    if Out(cfg, script, st, k - 1) < |script[k - 1]| {
      n := k - 1;
    } else {
      n := SomeoneHasLeft(cfg, script, st, k - 1);
    }
  }

  lemma TotalFalls<W>(cfg: Config, script: Script<W>, st: State<W>, i: Inputs, st': State<W>)
    requires Clock(cfg, script, st, i, st') && Willing(cfg, script, st, i) && Complete(script)
    ensures TotalLeft(cfg, script, st', cfg.masters) <= TotalLeft(cfg, script, st, cfg.masters)
    ensures TotalLeft(cfg, script, st, cfg.masters) > 0 ==>
              TotalLeft(cfg, script, st', cfg.masters) < TotalLeft(cfg, script, st, cfg.masters)
  {
    hide Next, Left, Willing;
    TotalNoMore(cfg, script, st, i, st', cfg.masters);
    if TotalLeft(cfg, script, st, cfg.masters) > 0 {
      var n := SomeoneHasLeft(cfg, script, st, cfg.masters);
      var q := SomethingMoves(cfg, script, st, i, st', n);
      TotalLess(cfg, script, st, i, st', q, cfg.masters);
    }
  }

  // Whole runs

  ghost predicate WillingClock<W>(cfg: Config, run: Run<W>, k: nat)
    requires IsRun(cfg, run) && k < |run.inputs|
  {
    assert StepAt(cfg, run, k);
    Willing(cfg, run.script, run.states[k], run.inputs[k])
  }

  lemma {:induction false} RunFalls<W>(cfg: Config, run: Run<W>, a: nat, b: nat)
    requires IsRun(cfg, run) && a <= b < |run.states| && Direct(cfg) && Complete(run.script)
    requires forall k :: a <= k < b ==> WillingClock(cfg, run, k)
    ensures Shaped(cfg, run.script, run.states[a]) && Shaped(cfg, run.script, run.states[b])
    ensures
      var before := TotalLeft(cfg, run.script, run.states[a], cfg.masters);
      var after := TotalLeft(cfg, run.script, run.states[b], cfg.masters);
      after == 0 || after + (b - a) <= before
    decreases b
  {
    hide Next, LogNext, Start, EmptyLog, InputsFit, Shaped, ScriptFits, TotalLeft, Routed;
    RunKeepsInv(cfg, run, a);
    if a < b {
      RunFalls(cfg, run, a, b - 1);
      assert StepAt(cfg, run, b - 1) && WillingClock(cfg, run, b - 1);
      RunKeepsInv(cfg, run, b - 1);
      RunKeepsInv(cfg, run, b);
      TotalFalls(cfg, run.script, run.states[b - 1], run.inputs[b - 1], run.states[b]);
    }
  }

  lemma {:induction false} NothingLeft<W>(cfg: Config, script: Script<W>, st: State<W>, n: nat, k: nat)
    requires Shaped(cfg, script, st) && n < k <= cfg.masters && TotalLeft(cfg, script, st, k) == 0
    ensures Out(cfg, script, st, n) == |script[n]|
    decreases k
  {
    if n < k - 1 {
      NothingLeft(cfg, script, st, n, k - 1);
    }
  }

  /** All beats that the targets return. */
  function Beats<W>(script: Script<W>): nat {
    if script == [] then 0 else Beats(script[..|script| - 1]) + |script[|script| - 1]|
  }

  lemma {:induction false} LeftBound<W>(cfg: Config, script: Script<W>, st: State<W>, k: nat)
    requires Shaped(cfg, script, st) && k <= cfg.masters
    ensures TotalLeft(cfg, script, st, k) <= 3 * Beats(script[..k])
  {
    if k > 0 {
      LeftBound(cfg, script, st, k - 1);
      assert script[..k][..k - 1] == script[..k - 1];
      hide Granted, Out;
    } else {
      assert script[..0] == [];
    }
  }

  /** Main result: all responses arrive. After three times as many willing clocks as the
      targets have beats, each slave has received all of its own beats of every target,
      in order and with its own IDs. */
  lemma EverythingArrives<W>(cfg: Config, run: Run<W>, a: nat, b: nat)
    requires IsRun(cfg, run) && a <= b < |run.states| && Direct(cfg) && Complete(run.script)
    requires forall k :: a <= k < b ==> WillingClock(cfg, run, k)
    requires b - a >= 3 * Beats(run.script)
    ensures |run.logs[b]| == cfg.slaves && |run.script| == cfg.masters
    ensures forall m, n :: 0 <= m < cfg.slaves && 0 <= n < cfg.masters ==>
              From(run.logs[b][m], n) == For(cfg, run.script[n], |run.script[n]|, m)
    ensures forall m :: 0 <= m < cfg.slaves ==> Unmixed(run.logs[b][m])
  {
    RunFalls(cfg, run, a, b);
    RunKeepsInv(cfg, run, b);
    var script, st := run.script, run.states[b];
    assert script[..cfg.masters] == script;
    hide IsRun, From, For, Unmixed, Inside, WillingClock, TotalLeft;
    LeftBound(cfg, script, run.states[a], cfg.masters);
    forall m, n | 0 <= m < cfg.slaves && 0 <= n < cfg.masters
      ensures From(run.logs[b][m], n) == For(cfg, script[n], |script[n]|, m)
    {
      NothingLeft(cfg, script, st, n, cfg.masters);
      assert Routed(cfg, script, st, run.logs[b][m], m);
    }
    forall m | 0 <= m < cfg.slaves
      ensures Unmixed(run.logs[b][m])
    {
      assert Routed(cfg, script, st, run.logs[b][m], m);
    }
  }
}
