/** Responses in the crossbar: the slave index travels in the upper bits of the ID,
    and a slave interface keeps its grant on a master interface to the end of a
    burst. Read responses are bursts; write responses are bursts of one beat. */
module ResponseRouting {
  import opened Common
  import RoundRobin

  /** `regSlots` is the capacity of the register at the master side of the response
      channel: 0 for a bypass, 1 for a simple register, 2 for a skid buffer. */
  datatype Config = Config(slaves: nat, masters: nat, idWidth: nat, regSlots: nat)

  /** A response beat with the ID the target returns, and a beat as a slave gets it. */
  datatype Beat<W> = Beat(id: nat, last: bool, data: W)

  datatype Received<W> = Received(master: nat, id: nat, last: bool, data: W)

  /** The ID sent to the target: slave index on top of the slave's own ID. */
  function Prefixed(cfg: Config, m: nat, id: nat): nat {
    id + m * Pow2(cfg.idWidth)
  }

  /** r_select: the ID shifted right, cut to $clog2(S_COUNT) bits. */
  function SlaveOf(cfg: Config, id: nat): nat {
    id / Pow2(cfg.idWidth) % Pow2(Clog2(cfg.slaves))
  }

  /** The ID handed to the slave, cut to its own width. */
  function OwnId(cfg: Config, id: nat): nat {
    id % Pow2(cfg.idWidth)
  }

  /** Prefixing and stripping are inverse. */
  lemma PrefixRoundTrip(cfg: Config, m: nat, id: nat)
    requires m < cfg.slaves && id < Pow2(cfg.idWidth)
    ensures SlaveOf(cfg, Prefixed(cfg, m, id)) == m && OwnId(cfg, Prefixed(cfg, m, id)) == id
  {
    DivUnique(Prefixed(cfg, m, id), Pow2(cfg.idWidth), m, id);
    DivUnique(m, Pow2(Clog2(cfg.slaves)), 0, m);
  }

  /** Per slave interface the response arbiter; per master interface the beats in
      its register, how many beats the target has handed over, and whether a beat
      offered in the last clock was not taken. */
  datatype State<W> = State(arbs: seq<RoundRobin.State>, regs: seq<seq<Beat<W>>>, pos: seq<nat>, held: seq<bool>)

  /** What the environment chooses: which targets offer a beat, which slaves are
      ready, what an idle target shows as ID, and whether a register takes a beat. */
  datatype Inputs = Inputs(valid: seq<bool>, ready: seq<bool>, idleId: seq<nat>, take: seq<bool>)

  /** All beats that each target will return, in its order. */
  type Script<W> = seq<seq<Beat<W>>>

  function ArbiterConfig(cfg: Config): RoundRobin.Config {
    RoundRobin.Config(cfg.masters + 1, RoundRobin.BlockAcknowledge, true)
  }

  /** The register holds the beats that its target handed over last. */
  ghost predicate TargetShaped<W>(cfg: Config, beats: seq<Beat<W>>, reg: seq<Beat<W>>, pos: nat) {
    |reg| <= cfg.regSlots && |reg| <= pos <= |beats| && reg == beats[pos - |reg|..pos]
  }

  ghost predicate Shaped<W>(cfg: Config, script: Script<W>, st: State<W>) {
    && |st.arbs| == cfg.slaves
    && |script| == |st.regs| == |st.pos| == |st.held| == cfg.masters
    && (forall m :: 0 <= m < cfg.slaves ==> RoundRobin.InRange(ArbiterConfig(cfg), st.arbs[m]))
    && (forall n :: 0 <= n < cfg.masters ==> TargetShaped(cfg, script[n], st.regs[n], st.pos[n]))
  }

  /** A beat once offered stays offered until it is taken. */
  predicate InputsFit<W>(cfg: Config, script: Script<W>, st: State<W>, i: Inputs)
    requires Shaped(cfg, script, st)
  {
    && |i.valid| == |i.idleId| == |i.take| == cfg.masters && |i.ready| == cfg.slaves
    && (forall n :: 0 <= n < cfg.masters ==>
          && (i.valid[n] ==> st.pos[n] < |script[n]|)
          && (st.held[n] && st.pos[n] < |script[n]| ==> i.valid[n])
          && (i.take[n] ==> i.valid[n] && |st.regs[n]| < cfg.regSlots))
  }

  // The wires

  /** The ID at the external port, which the source selects the slave by. */
  function PortId<W>(cfg: Config, script: Script<W>, st: State<W>, i: Inputs, n: nat): nat
    requires Shaped(cfg, script, st) && InputsFit(cfg, script, st, i) && n < cfg.masters
  {
    if i.valid[n] then script[n][st.pos[n]].id else i.idleId[n]
  }

  function Select<W>(cfg: Config, script: Script<W>, st: State<W>, i: Inputs, n: nat): nat
    requires Shaped(cfg, script, st) && InputsFit(cfg, script, st, i) && n < cfg.masters
  {
    SlaveOf(cfg, PortId(cfg, script, st, i, n))
  }

  /** The beat behind the register. */
  function Inner<W>(cfg: Config, script: Script<W>, st: State<W>, i: Inputs, n: nat): Option<Beat<W>>
    requires Shaped(cfg, script, st) && InputsFit(cfg, script, st, i) && n < cfg.masters
  {
    if cfg.regSlots == 0 then (if i.valid[n] then Some(script[n][st.pos[n]]) else None)
    else if st.regs[n] != [] then Some(st.regs[n][0])
    else None
  }

  /** The beat that slave interface m receives in this clock, if any: what its
      granted master interface has, whoever that is selected for. */
  function Gets<W>(cfg: Config, script: Script<W>, st: State<W>, i: Inputs, m: nat): Option<Received<W>>
    requires Shaped(cfg, script, st) && InputsFit(cfg, script, st, i) && m < cfg.slaves
  {
    match st.arbs[m].holder
    case Some(n) =>
      if n < cfg.masters && i.ready[m] && Inner(cfg, script, st, i, n).Some? then
        var b := Inner(cfg, script, st, i, n).value;
        Some(Received(n, OwnId(cfg, b.id), b.last, b.data))
      else None
    case None => None
  }

  /** The beat behind the register of n is taken. */
  predicate Consumed<W>(cfg: Config, script: Script<W>, st: State<W>, i: Inputs, n: nat)
    requires Shaped(cfg, script, st) && InputsFit(cfg, script, st, i) && n < cfg.masters
  {
    var m := Select(cfg, script, st, i, n);
    && Inner(cfg, script, st, i, n).Some?
    && m < cfg.slaves && st.arbs[m].holder == Some(n) && i.ready[m]
  }

  /** r_request, one bit per master interface and one for decode errors. */
  function Requests<W>(cfg: Config, script: Script<W>, st: State<W>, i: Inputs, m: nat): (r: seq<bool>)
    requires Shaped(cfg, script, st) && InputsFit(cfg, script, st, i) && m < cfg.slaves
    ensures |r| == cfg.masters + 1
  {
    seq(cfg.masters + 1, n requires 0 <= n < cfg.masters + 1 =>
      n < cfg.masters && Inner(cfg, script, st, i, n).Some? && Select(cfg, script, st, i, n) == m
        && st.arbs[m].holder != Some(n))
  }

  /** r_acknowledge: only the last beat of a burst ends a grant. */
  function Acknowledges<W>(cfg: Config, script: Script<W>, st: State<W>, i: Inputs, m: nat): (r: seq<bool>)
    requires Shaped(cfg, script, st) && InputsFit(cfg, script, st, i) && m < cfg.slaves
    ensures |r| == cfg.masters + 1
  {
    seq(cfg.masters + 1, n requires 0 <= n < cfg.masters + 1 =>
      && n < cfg.masters && st.arbs[m].holder == Some(n)
      && Inner(cfg, script, st, i, n).Some? && Select(cfg, script, st, i, n) == m
      && Inner(cfg, script, st, i, n).value.last && i.ready[m])
  }

  /** The same two vectors from the wires alone: `inner[n]` is the beat behind the
      register of n and `select[n]` the slave it is selected for. */
  function RequestVector<W>(holder: Option<nat>, m: nat, inner: seq<Option<Beat<W>>>, select: seq<nat>): (r: seq<bool>)
    requires |inner| == |select|
    ensures |r| == |inner| + 1
  {
    seq(|inner| + 1, n requires 0 <= n < |inner| + 1 =>
      n < |inner| && inner[n].Some? && select[n] == m && holder != Some(n))
  }

  function AcknowledgeVector<W>(holder: Option<nat>, m: nat, inner: seq<Option<Beat<W>>>, select: seq<nat>,
                                ready: bool): (r: seq<bool>)
    requires |inner| == |select|
    ensures |r| == |inner| + 1
  {
    seq(|inner| + 1, n requires 0 <= n < |inner| + 1 =>
      n < |inner| && holder == Some(n) && inner[n].Some? && select[n] == m && inner[n].value.last && ready)
  }

  lemma VectorsAgree<W>(cfg: Config, script: Script<W>, st: State<W>, i: Inputs, m: nat, inner: seq<Option<Beat<W>>>,
                        select: seq<nat>)
    requires Shaped(cfg, script, st) && InputsFit(cfg, script, st, i) && m < cfg.slaves
    requires |inner| == |select| == cfg.masters
    requires forall n :: 0 <= n < cfg.masters ==>
               inner[n] == Inner(cfg, script, st, i, n) && select[n] == Select(cfg, script, st, i, n)
    ensures RequestVector(st.arbs[m].holder, m, inner, select) == Requests(cfg, script, st, i, m)
    ensures AcknowledgeVector(st.arbs[m].holder, m, inner, select, i.ready[m]) == Acknowledges(cfg, script, st, i, m)
  {
    hide SlaveOf;
  }

  predicate ArbiterStep<W>(cfg: Config, script: Script<W>, st: State<W>, i: Inputs, m: nat, arb': RoundRobin.State)
    requires Shaped(cfg, script, st) && InputsFit(cfg, script, st, i) && m < cfg.slaves
  {
    RoundRobin.Next(ArbiterConfig(cfg), st.arbs[m], Requests(cfg, script, st, i, m),
                    Acknowledges(cfg, script, st, i, m), arb')
  }

  ghost predicate TargetStep<W>(cfg: Config, script: Script<W>, st: State<W>, i: Inputs, n: nat, reg': seq<Beat<W>>,
                                pos': nat, held': bool)
    requires Shaped(cfg, script, st) && InputsFit(cfg, script, st, i) && n < cfg.masters
  {
    var consumed := Consumed(cfg, script, st, i, n);
    var leaves := if cfg.regSlots == 0 then consumed else i.take[n];
    && pos' == st.pos[n] + (if leaves then 1 else 0)
    && held' == (i.valid[n] && !leaves)
    && reg' == (if consumed && cfg.regSlots > 0 then st.regs[n][1..] else st.regs[n])
               + (if i.take[n] then [script[n][st.pos[n]]] else [])
  }

  ghost predicate Next<W>(cfg: Config, script: Script<W>, st: State<W>, i: Inputs, st': State<W>)
    requires Shaped(cfg, script, st) && InputsFit(cfg, script, st, i)
  {
    && |st'.arbs| == cfg.slaves && |st'.regs| == |st'.pos| == |st'.held| == cfg.masters
    && (forall m :: 0 <= m < cfg.slaves ==> ArbiterStep(cfg, script, st, i, m, st'.arbs[m]))
    && (forall n :: 0 <= n < cfg.masters ==> TargetStep(cfg, script, st, i, n, st'.regs[n], st'.pos[n], st'.held[n]))
  }

  // Where the selection is that of the beat behind the register

  /** With a bypass, or a single slave interface, the external port selects the
      slave that the beat behind the register is for. */
  predicate Direct(cfg: Config) {
    cfg.regSlots == 0 || cfg.slaves == 1
  }

  /** The number of beats that have left the register of n. */
  function Out<W>(cfg: Config, script: Script<W>, st: State<W>, n: nat): (p: nat)
    requires Shaped(cfg, script, st) && n < cfg.masters
    ensures p <= |script[n]|
  {
    assert TargetShaped(cfg, script[n], st.regs[n], st.pos[n]);
    st.pos[n] - |st.regs[n]|
  }

  /** A beat behind the register of n waits since the last clock. */
  predicate Offering<W>(cfg: Config, st: State<W>, n: nat)
    requires n < |st.held| == |st.regs|
  {
    if cfg.regSlots == 0 then st.held[n] else st.regs[n] != []
  }

  /** Every beat names an existing slave, and a target finishes a burst before it
      returns a beat of another. */
  predicate Uninterleaved<W>(cfg: Config, beats: seq<Beat<W>>) {
    && (forall k :: 0 <= k < |beats| ==> SlaveOf(cfg, beats[k].id) < cfg.slaves)
    && (forall k :: 0 <= k < |beats| ==> Continues(beats, k))
  }

  predicate Continues<W>(beats: seq<Beat<W>>, k: nat)
    requires k < |beats|
  {
    !beats[k].last && k + 1 < |beats| ==> beats[k + 1].id == beats[k].id
  }

  predicate ScriptFits<W>(cfg: Config, script: Script<W>) {
    forall n :: 0 <= n < |script| ==> Uninterleaved(cfg, script[n])
  }

  lemma SingleSlave(cfg: Config, id: nat)
    requires cfg.slaves == 1
    ensures SlaveOf(cfg, id) == 0
  {
    assert Clog2(1) == 0 && Pow2(0) == 1;
  }

  /** The beat behind the register is the next one of the target's script, and the
      slave selected is the one it is for. */
  lemma InnerIsNext<W>(cfg: Config, script: Script<W>, st: State<W>, i: Inputs, n: nat)
    requires Shaped(cfg, script, st) && InputsFit(cfg, script, st, i) && n < cfg.masters
    requires Direct(cfg) && ScriptFits(cfg, script)
    ensures
      var inner, p := Inner(cfg, script, st, i, n), Out(cfg, script, st, n);
      && (inner.Some? ==>
            && p < |script[n]| && inner.value == script[n][p]
            && Select(cfg, script, st, i, n) == SlaveOf(cfg, script[n][p].id))
      && (Offering(cfg, st, n) && p < |script[n]| ==> inner.Some?)
  {
    assert TargetShaped(cfg, script[n], st.regs[n], st.pos[n]);
    if cfg.regSlots > 0 {
      SingleSlave(cfg, PortId(cfg, script, st, i, n));
      if Inner(cfg, script, st, i, n).Some? {
        SingleSlave(cfg, script[n][Out(cfg, script, st, n)].id);
      }
    }
    hide SlaveOf;
  }

  lemma TargetStaysShaped<W>(cfg: Config, script: Script<W>, st: State<W>, i: Inputs, n: nat,
                             reg': seq<Beat<W>>, pos': nat, held': bool)
    requires Shaped(cfg, script, st) && InputsFit(cfg, script, st, i) && n < cfg.masters
    requires TargetStep(cfg, script, st, i, n, reg', pos', held')
    ensures TargetShaped(cfg, script[n], reg', pos')
    ensures pos' - |reg'| == Out(cfg, script, st, n) + (if Consumed(cfg, script, st, i, n) then 1 else 0)
    ensures Inner(cfg, script, st, i, n).Some? && !Consumed(cfg, script, st, i, n) ==>
              if cfg.regSlots == 0 then held' else reg' != []
  {
    var beats, reg, pos := script[n], st.regs[n], st.pos[n];
    assert TargetShaped(cfg, beats, reg, pos);
    hide Select, SlaveOf;
    if cfg.regSlots > 0 {
      var kept := if Consumed(cfg, script, st, i, n) then reg[1..] else reg;
      assert kept == beats[pos - |kept|..pos];
      assert i.take[n] ==> beats[pos - |kept|..pos + 1] == kept + [beats[pos]];
    }
  }

  /** The target is in the middle of a burst for slave m, or offers a beat for m. */
  predicate Engaged<W>(cfg: Config, beats: seq<Beat<W>>, pos: nat, held: bool, m: nat)
    requires pos <= |beats|
  {
    || (held && pos < |beats| && SlaveOf(cfg, beats[pos].id) == m)
    || (pos > 0 && !beats[pos - 1].last && SlaveOf(cfg, beats[pos - 1].id) == m)
  }

  lemma NextIsForEngaged<W>(cfg: Config, beats: seq<Beat<W>>, pos: nat, held: bool, m: nat)
    requires pos < |beats| && Uninterleaved(cfg, beats) && Engaged(cfg, beats, pos, held, m)
    ensures SlaveOf(cfg, beats[pos].id) == m
  {
    assert pos > 0 ==> Continues(beats, pos - 1);
  }

  /** A granted master interface is engaged with the slave that holds the grant. */
  ghost predicate GrantsEngage<W>(cfg: Config, script: Script<W>, st: State<W>)
    requires Shaped(cfg, script, st)
  {
    forall m :: 0 <= m < cfg.slaves ==> GrantEngages(cfg, script, st, m)
  }

  ghost predicate GrantEngages<W>(cfg: Config, script: Script<W>, st: State<W>, m: nat)
    requires Shaped(cfg, script, st) && m < cfg.slaves
  {
    match st.arbs[m].holder
    case Some(n) => n < cfg.masters && Engaged(cfg, script[n], Out(cfg, script, st, n), Offering(cfg, st, n), m)
    case None => true
  }

  lemma ArbiterOutcome(cfg: Config, s: RoundRobin.State, request: seq<bool>, acknowledge: seq<bool>,
                       s': RoundRobin.State)
    requires RoundRobin.InRange(ArbiterConfig(cfg), s) && |request| == |acknowledge| == cfg.masters + 1
    requires RoundRobin.Next(ArbiterConfig(cfg), s, request, acknowledge, s')
    ensures RoundRobin.InRange(ArbiterConfig(cfg), s')
    ensures s.holder.Some? && !acknowledge[s.holder.value] ==> s'.holder == s.holder
    ensures s'.holder.Some? ==> (s'.holder == s.holder && !acknowledge[s'.holder.value]) || request[s'.holder.value]
  {
  }

  /** There a slave receives exactly the beats that are taken for it. */
  lemma GetsWhatIsConsumed<W>(cfg: Config, script: Script<W>, st: State<W>, i: Inputs, m: nat, n: nat)
    requires Shaped(cfg, script, st) && InputsFit(cfg, script, st, i) && m < cfg.slaves && n < cfg.masters
    requires Direct(cfg) && ScriptFits(cfg, script) && GrantsEngage(cfg, script, st)
    ensures st.arbs[m].holder == Some(n) && Inner(cfg, script, st, i, n).Some? ==> Select(cfg, script, st, i, n) == m
    ensures
      var gets, p := Gets(cfg, script, st, i, m), Out(cfg, script, st, n);
      && (gets.Some? && gets.value.master == n
          <==> Consumed(cfg, script, st, i, n) && Select(cfg, script, st, i, n) == m)
      && (gets.Some? && gets.value.master == n ==>
            && p < |script[n]| && SlaveOf(cfg, script[n][p].id) == m
            && gets.value == Received(n, OwnId(cfg, script[n][p].id), script[n][p].last, script[n][p].data))
  {
    hide SlaveOf, OwnId;
    InnerIsNext(cfg, script, st, i, n);
    assert GrantEngages(cfg, script, st, m) && Uninterleaved(cfg, script[n]);
    var p := Out(cfg, script, st, n);
    if st.arbs[m].holder == Some(n) && p < |script[n]| {
      NextIsForEngaged(cfg, script[n], p, Offering(cfg, st, n), m);
    }
    hide Inner, Select, Shaped, InputsFit, Uninterleaved, Engaged;
  }

  lemma StaysShaped<W>(cfg: Config, script: Script<W>, st: State<W>, i: Inputs, st': State<W>)
    requires Shaped(cfg, script, st) && InputsFit(cfg, script, st, i)
    requires Next(cfg, script, st, i, st')
    ensures Shaped(cfg, script, st')
  {
    hide RoundRobin.InRange, RoundRobin.Next, Requests, Acknowledges, TargetStep, TargetShaped;
    forall m | 0 <= m < cfg.slaves
      ensures RoundRobin.InRange(ArbiterConfig(cfg), st'.arbs[m])
    {
      assert ArbiterStep(cfg, script, st, i, m, st'.arbs[m]);
      ArbiterOutcome(cfg, st.arbs[m], Requests(cfg, script, st, i, m), Acknowledges(cfg, script, st, i, m),
                     st'.arbs[m]);
    }
    forall n | 0 <= n < cfg.masters
      ensures TargetShaped(cfg, script[n], st'.regs[n], st'.pos[n])
    {
      TargetStaysShaped(cfg, script, st, i, n, st'.regs[n], st'.pos[n], st'.held[n]);
    }
  }

  lemma EngagedMoves<W>(cfg: Config, beats: seq<Beat<W>>, pos: nat, held: bool, valid: bool, consumed: bool, m: nat,
                        held': bool)
    requires pos <= |beats| && (valid ==> pos < |beats|)
    requires consumed ==> valid && SlaveOf(cfg, beats[pos].id) == m && !beats[pos].last
    requires held && pos < |beats| ==> valid
    requires valid && !consumed ==> held'
    requires Engaged(cfg, beats, pos, held, m)
    ensures Engaged(cfg, beats, if consumed then pos + 1 else pos, held', m)
  {
    hide SlaveOf;
  }

  /** What a clock does to the target n, told by its beats that have left the register. */
  lemma TargetMoves<W>(cfg: Config, script: Script<W>, st: State<W>, i: Inputs, st': State<W>, n: nat)
    requires Shaped(cfg, script, st) && InputsFit(cfg, script, st, i) && Shaped(cfg, script, st') && n < cfg.masters
    requires Next(cfg, script, st, i, st')
    ensures Out(cfg, script, st', n) == Out(cfg, script, st, n) + (if Consumed(cfg, script, st, i, n) then 1 else 0)
    ensures Inner(cfg, script, st, i, n).Some? && !Consumed(cfg, script, st, i, n) ==> Offering(cfg, st', n)
  {
    hide TargetStep, Consumed, Inner, ArbiterStep;
    TargetStaysShaped(cfg, script, st, i, n, st'.regs[n], st'.pos[n], st'.held[n]);
  }

  lemma GrantEngagesKept<W>(cfg: Config, script: Script<W>, st: State<W>, i: Inputs, st': State<W>, m: nat)
    requires Shaped(cfg, script, st) && InputsFit(cfg, script, st, i) && Shaped(cfg, script, st') && m < cfg.slaves
    requires Direct(cfg) && ScriptFits(cfg, script) && GrantsEngage(cfg, script, st)
    requires Next(cfg, script, st, i, st')
    ensures GrantEngages(cfg, script, st', m)
  {
    hide SlaveOf, RoundRobin.Next, RoundRobin.InRange, Uninterleaved, Select, Out, Inner, TargetStep, Direct;
    assert ArbiterStep(cfg, script, st, i, m, st'.arbs[m]) && GrantEngages(cfg, script, st, m);
    var request, acknowledge := Requests(cfg, script, st, i, m), Acknowledges(cfg, script, st, i, m);
    ArbiterOutcome(cfg, st.arbs[m], request, acknowledge, st'.arbs[m]);
    if st'.arbs[m].holder.Some? {
      var n := st'.arbs[m].holder.value;
      assert n < cfg.masters;
      InnerIsNext(cfg, script, st, i, n);
      TargetMoves(cfg, script, st, i, st', n);
      if request[n] {
        assert !Consumed(cfg, script, st, i, n);
      } else {
        GetsWhatIsConsumed(cfg, script, st, i, m, n);
        EngagedMoves(cfg, script[n], Out(cfg, script, st, n), Offering(cfg, st, n), Inner(cfg, script, st, i, n).Some?,
                     Consumed(cfg, script, st, i, n), m, Offering(cfg, st', n));
      }
    }
  }

  // What the slaves receive

  type Log<W> = seq<seq<Received<W>>>

  ghost predicate LogNext<W>(cfg: Config, script: Script<W>, st: State<W>, i: Inputs, log: Log<W>, log': Log<W>)
    requires Shaped(cfg, script, st) && InputsFit(cfg, script, st, i)
  {
    && |log| == |log'| == cfg.slaves
    && forall m :: 0 <= m < cfg.slaves ==> log'[m] == log[m] + Listed(Gets(cfg, script, st, i, m))
  }

  /** The beats received from master interface n. */
  function From<W>(got: seq<Received<W>>, n: nat): seq<(nat, bool, W)> {
    if got == [] then []
    else
      var r := got[|got| - 1];
      From(got[..|got| - 1], n) + (if r.master == n then [(r.id, r.last, r.data)] else [])
  }

  /** The first `pos` beats of a target that are for slave m, with m's own IDs. */
  function For<W>(cfg: Config, beats: seq<Beat<W>>, pos: nat, m: nat): seq<(nat, bool, W)>
    requires pos <= |beats|
  {
    if pos == 0 then []
    else
      var b := beats[pos - 1];
      For(cfg, beats, pos - 1, m) + (if SlaveOf(cfg, b.id) == m then [(OwnId(cfg, b.id), b.last, b.data)] else [])
  }

  lemma FromGrows<W>(got: seq<Received<W>>, r: Option<Received<W>>, n: nat)
    ensures From(got + Listed(r), n)
            == From(got, n) + (if r.Some? && r.value.master == n then [(r.value.id, r.value.last, r.value.data)]
                               else [])
  {
    if r.Some? {
      assert (got + [r.value])[..|got|] == got;
    } else {
      assert got + Listed(r) == got;
    }
  }

  /** A burst, once begun, is continued without a foreign beat. */
  predicate Unmixed<W>(got: seq<Received<W>>) {
    forall k :: 0 <= k < |got| ==> ContinuesBurst(got, k)
  }

  predicate ContinuesBurst<W>(got: seq<Received<W>>, k: nat)
    requires k < |got|
  {
    !got[k].last && k + 1 < |got| ==> got[k + 1].master == got[k].master && got[k + 1].id == got[k].id
  }

  /** While slave m is inside a burst, the burst's master interface holds the grant
      and its target has just returned the beat before. */
  ghost predicate Inside<W>(cfg: Config, script: Script<W>, st: State<W>, got: seq<Received<W>>, m: nat)
    requires Shaped(cfg, script, st) && m < cfg.slaves
  {
    got != [] && !got[|got| - 1].last ==>
      var r := got[|got| - 1];
      && r.master < cfg.masters && st.arbs[m].holder == Some(r.master)
      && var p := Out(cfg, script, st, r.master);
      && p > 0 && !script[r.master][p - 1].last && OwnId(cfg, script[r.master][p - 1].id) == r.id
  }

  ghost predicate Routed<W>(cfg: Config, script: Script<W>, st: State<W>, got: seq<Received<W>>, m: nat)
    requires Shaped(cfg, script, st) && m < cfg.slaves
  {
    && (forall n :: 0 <= n < cfg.masters ==> From(got, n) == For(cfg, script[n], Out(cfg, script, st, n), m))
    && Unmixed(got)
    && Inside(cfg, script, st, got, m)
  }

  lemma FromForKept<W>(cfg: Config, script: Script<W>, st: State<W>, i: Inputs, st': State<W>, got: seq<Received<W>>,
                       m: nat, n: nat)
    requires Shaped(cfg, script, st) && InputsFit(cfg, script, st, i) && Shaped(cfg, script, st') && m < cfg.slaves
             && n < cfg.masters
    requires Direct(cfg) && ScriptFits(cfg, script) && GrantsEngage(cfg, script, st)
    requires Next(cfg, script, st, i, st')
    requires From(got, n) == For(cfg, script[n], Out(cfg, script, st, n), m)
    ensures From(got + Listed(Gets(cfg, script, st, i, m)), n) == For(cfg, script[n], Out(cfg, script, st', n), m)
  {
    hide SlaveOf, OwnId, From, Gets, ScriptFits, GrantsEngage, ArbiterStep, Out, Inner, TargetStep, Select, Direct;
    GetsWhatIsConsumed(cfg, script, st, i, m, n);
    InnerIsNext(cfg, script, st, i, n);
    TargetMoves(cfg, script, st, i, st', n);
    FromGrows(got, Gets(cfg, script, st, i, m), n);
    assert Consumed(cfg, script, st, i, n) ==>
        Select(cfg, script, st, i, n) == SlaveOf(cfg, script[n][Out(cfg, script, st, n)].id);
    hide Consumed, Next, Shaped, InputsFit;
  }

  lemma UnmixedKept<W>(got: seq<Received<W>>, r: Option<Received<W>>)
    requires Unmixed(got)
    requires r.Some? && got != [] && !got[|got| - 1].last ==>
               r.value.master == got[|got| - 1].master && r.value.id == got[|got| - 1].id
    ensures Unmixed(got + Listed(r))
  {
    var got' := got + Listed(r);
    forall k | 0 <= k < |got'|
      ensures ContinuesBurst(got', k)
    {
      if k + 1 < |got| {
        assert ContinuesBurst(got, k);
      }
    }
  }

  lemma InsideKept<W>(cfg: Config, script: Script<W>, st: State<W>, i: Inputs, st': State<W>, got: seq<Received<W>>,
                      m: nat)
    requires Shaped(cfg, script, st) && InputsFit(cfg, script, st, i) && Shaped(cfg, script, st') && m < cfg.slaves
    requires Direct(cfg) && ScriptFits(cfg, script) && GrantsEngage(cfg, script, st)
    requires Next(cfg, script, st, i, st')
    requires Inside(cfg, script, st, got, m)
    ensures Inside(cfg, script, st', got + Listed(Gets(cfg, script, st, i, m)), m)
    ensures
      var r := Gets(cfg, script, st, i, m);
      r.Some? && got != [] && !got[|got| - 1].last ==>
        r.value.master == got[|got| - 1].master && r.value.id == got[|got| - 1].id
  {
    hide SlaveOf, OwnId, RoundRobin.Next, RoundRobin.InRange, Out, TargetStep, Select, Direct;
    var r := Gets(cfg, script, st, i, m);
    assert ArbiterStep(cfg, script, st, i, m, st'.arbs[m]) && GrantEngages(cfg, script, st, m);
    ArbiterOutcome(cfg, st.arbs[m], Requests(cfg, script, st, i, m), Acknowledges(cfg, script, st, i, m), st'.arbs[m]);
    if st.arbs[m].holder.Some? {
      var n := st.arbs[m].holder.value;
      GetsWhatIsConsumed(cfg, script, st, i, m, n);
      InnerIsNext(cfg, script, st, i, n);
      TargetMoves(cfg, script, st, i, st', n);
      assert Uninterleaved(cfg, script[n]);
      var p := Out(cfg, script, st, n);
      assert p > 0 ==> Continues(script[n], p - 1);
      assert r.None? ==> got + Listed(r) == got;
    } else {
      assert got + Listed(r) == got;
    }
  }

  ghost predicate Inv<W>(cfg: Config, script: Script<W>, st: State<W>, log: Log<W>) {
    && Shaped(cfg, script, st) && |log| == cfg.slaves
    && GrantsEngage(cfg, script, st)
    && forall m :: 0 <= m < cfg.slaves ==> Routed(cfg, script, st, log[m], m)
  }

  lemma InvKept<W>(cfg: Config, script: Script<W>, st: State<W>, i: Inputs, st': State<W>, log: Log<W>, log': Log<W>)
    requires Inv(cfg, script, st, log) && InputsFit(cfg, script, st, i)
    requires Direct(cfg) && ScriptFits(cfg, script)
    requires Next(cfg, script, st, i, st') && LogNext(cfg, script, st, i, log, log')
    ensures Inv(cfg, script, st', log')
  {
    StaysShaped(cfg, script, st, i, st');
    hide Next, Gets, From, For, Inside, ScriptFits, Shaped, InputsFit, GrantEngages;
    forall m | 0 <= m < cfg.slaves
      ensures GrantEngages(cfg, script, st', m) && Routed(cfg, script, st', log'[m], m)
    {
      assert Routed(cfg, script, st, log[m], m);
      GrantEngagesKept(cfg, script, st, i, st', m);
      InsideKept(cfg, script, st, i, st', log[m], m);
      UnmixedKept(log[m], Gets(cfg, script, st, i, m));
      forall n | 0 <= n < cfg.masters
        ensures From(log'[m], n) == For(cfg, script[n], Out(cfg, script, st', n), m)
      {
        FromForKept(cfg, script, st, i, st', log[m], m, n);
      }
    }
  }

  // Whole runs

  function Start<W>(cfg: Config): State<W> {
    State(seq(cfg.slaves, _ => RoundRobin.State(None, cfg.masters)), seq(cfg.masters, _ => []),
          seq(cfg.masters, _ => 0), seq(cfg.masters, _ => false))
  }

  function EmptyLog<W>(cfg: Config): Log<W> {
    seq(cfg.slaves, _ => [])
  }

  lemma StartInv<W>(cfg: Config, script: Script<W>)
    requires |script| == cfg.masters
    ensures Inv(cfg, script, Start(cfg), EmptyLog(cfg))
  {
  }

  datatype Run<W> = Run(script: Script<W>, states: seq<State<W>>, inputs: seq<Inputs>, logs: seq<Log<W>>)

  ghost predicate StepAt<W>(cfg: Config, run: Run<W>, k: nat)
    requires |run.states| == |run.logs| == |run.inputs| + 1 && k < |run.inputs|
  {
    var st, st', i := run.states[k], run.states[k + 1], run.inputs[k];
    && Shaped(cfg, run.script, st) && InputsFit(cfg, run.script, st, i)
    && Next(cfg, run.script, st, i, st')
    && LogNext(cfg, run.script, st, i, run.logs[k], run.logs[k + 1])
  }

  ghost predicate IsRun<W>(cfg: Config, run: Run<W>) {
    && |run.script| == cfg.masters && ScriptFits(cfg, run.script)
    && |run.states| == |run.logs| == |run.inputs| + 1
    && run.states[0] == Start(cfg) && run.logs[0] == EmptyLog(cfg)
    && forall k :: 0 <= k < |run.inputs| ==> StepAt(cfg, run, k)
  }

  lemma {:induction false} RunKeepsInv<W>(cfg: Config, run: Run<W>, k: nat)
    requires IsRun(cfg, run) && k < |run.states| && Direct(cfg)
    ensures Inv(cfg, run.script, run.states[k], run.logs[k])
  {
    hide Inv, Next, LogNext, Start, EmptyLog, ScriptFits, InputsFit, Shaped;
    if k == 0 {
      StartInv(cfg, run.script);
    } else {
      RunKeepsInv(cfg, run, k - 1);
      assert StepAt(cfg, run, k - 1);
      InvKept(cfg, run.script, run.states[k - 1], run.inputs[k - 1], run.states[k], run.logs[k - 1], run.logs[k]);
    }
  }

  /** What response routing is for: of the beats of each target that have passed the
      register, every slave has received exactly its own, in order and with its own
      IDs, and its bursts are unmixed. */
  ghost predicate Correct<W>(cfg: Config, run: Run<W>, k: nat) {
    && k < |run.states| && k < |run.logs| && |run.logs[k]| == cfg.slaves
    && |run.states[k].pos| == |run.script| == cfg.masters
    && (forall m, n :: 0 <= m < cfg.slaves && 0 <= n < cfg.masters ==>
          && |run.states[k].regs| == cfg.masters && |run.states[k].regs[n]| <= run.states[k].pos[n] <= |run.script[n]|
          && From(run.logs[k][m], n) == For(cfg, run.script[n], run.states[k].pos[n] - |run.states[k].regs[n]|, m))
    && (forall m :: 0 <= m < cfg.slaves ==> Unmixed(run.logs[k][m]))
  }

  /** With a bypass, or with a single slave interface, every run is routed correctly. */
  lemma DirectRoutes<W>(cfg: Config, run: Run<W>, k: nat)
    requires IsRun(cfg, run) && k < |run.states| && Direct(cfg)
    ensures Correct(cfg, run, k)
  {
    RunKeepsInv(cfg, run, k);
    hide IsRun, From, For, Unmixed, Inside, GrantsEngage;
    var st := run.states[k];
    forall m | 0 <= m < cfg.slaves
      ensures Unmixed(run.logs[k][m])
    {
      assert Routed(cfg, run.script, st, run.logs[k][m], m);
    }
    forall m, n | 0 <= m < cfg.slaves && 0 <= n < cfg.masters
      ensures |st.regs[n]| <= st.pos[n] <= |run.script[n]|
      ensures From(run.logs[k][m], n) == For(cfg, run.script[n], st.pos[n] - |st.regs[n]|, m)
    {
      assert Routed(cfg, run.script, st, run.logs[k][m], m);
      assert TargetShaped(cfg, run.script[n], st.regs[n], st.pos[n]);
    }
  }

  // With a register and several slave interfaces

  /** One target returns a beat for slave 0 and then a burst for slave 1. */
  function TwoBursts(cfg: Config): seq<Beat<int>> {
    [Beat(Prefixed(cfg, 0, 0), true, 10), Beat(Prefixed(cfg, 1, 0), false, 20), Beat(Prefixed(cfg, 1, 0), true, 30)]
  }

  predicate Misroutes(cfg: Config) {
    cfg.slaves >= 2 && cfg.masters >= 1 && cfg.regSlots > 0
  }

  function MisrouteScript(cfg: Config): Script<int> {
    seq(cfg.masters, n => if n == 0 then TwoBursts(cfg) else [])
  }

  /** A register of two words has taken the second beat as well. */
  function Second(cfg: Config): nat {
    if cfg.regSlots >= 2 then 1 else 0
  }

  function MisrouteArbiter(cfg: Config, k: nat): RoundRobin.State {
    if k < 2 then RoundRobin.State(None, cfg.masters)
    else if k == 2 then RoundRobin.State(Some(0), 0)
    else RoundRobin.State(None, 0)
  }

  function MisrouteReg(cfg: Config, k: nat): seq<Beat<int>> {
    if k == 0 then []
    else if k == 1 then TwoBursts(cfg)[..1]
    else if k == 2 then TwoBursts(cfg)[..1 + Second(cfg)]
    else TwoBursts(cfg)[1..1 + Second(cfg)]
  }

  function MisroutePos(cfg: Config, k: nat): nat {
    if k < 2 then k else 1 + Second(cfg)
  }

  function MisrouteState(cfg: Config, k: nat): State<int> {
    State(seq(cfg.slaves, m => if m == 1 then MisrouteArbiter(cfg, k) else RoundRobin.State(None, cfg.masters)),
          seq(cfg.masters, n => if n == 0 then MisrouteReg(cfg, k) else []),
          seq(cfg.masters, n => if n == 0 then MisroutePos(cfg, k) else 0),
          seq(cfg.masters, n => n == 0 && (k == 3 || (k == 2 && Second(cfg) == 0))))
  }

  function MisrouteInputs(cfg: Config, k: nat): Inputs {
    Inputs(seq(cfg.masters, n => n == 0), seq(cfg.slaves, _ => true), seq(cfg.masters, _ => 0),
           seq(cfg.masters, n => n == 0 && (k == 0 || (k == 1 && cfg.regSlots >= 2))))
  }

  function MisrouteLog(cfg: Config, k: nat): Log<int> {
    seq(cfg.slaves, m => if m == 1 && k == 3 then [Received(0, 0, true, 10)] else [])
  }

  function Misroute(cfg: Config): Run<int> {
    Run(MisrouteScript(cfg),
        seq(4, k requires 0 <= k < 4 => MisrouteState(cfg, k)),
        seq(3, k requires 0 <= k < 3 => MisrouteInputs(cfg, k)),
        seq(4, k requires 0 <= k < 4 => MisrouteLog(cfg, k)))
  }

  lemma TwoBurstsIds(cfg: Config)
    requires Misroutes(cfg)
    ensures SlaveOf(cfg, Prefixed(cfg, 0, 0)) == 0 && OwnId(cfg, Prefixed(cfg, 0, 0)) == 0
    ensures SlaveOf(cfg, Prefixed(cfg, 1, 0)) == 1 && OwnId(cfg, Prefixed(cfg, 1, 0)) == 0
  {
    PrefixRoundTrip(cfg, 0, 0);
    PrefixRoundTrip(cfg, 1, 0);
  }

  lemma MisrouteAt(cfg: Config, k: nat, n: nat)
    requires n < cfg.masters
    ensures
      var st, i := MisrouteState(cfg, k), MisrouteInputs(cfg, k);
      && |MisrouteScript(cfg)| == |st.regs| == |st.pos| == |st.held| == |i.valid| == |i.take| == |i.idleId|
        == cfg.masters
      && MisrouteScript(cfg)[n] == (if n == 0 then TwoBursts(cfg) else [])
      && st.regs[n] == (if n == 0 then MisrouteReg(cfg, k) else [])
      && st.pos[n] == (if n == 0 then MisroutePos(cfg, k) else 0)
      && st.held[n] == (n == 0 && (k == 3 || (k == 2 && Second(cfg) == 0)))
      && i.valid[n] == (n == 0) && i.take[n] == (n == 0 && (k == 0 || (k == 1 && cfg.regSlots >= 2)))
  {
    hide TwoBursts, MisrouteReg, MisroutePos, Second, MisrouteArbiter;
  }

  lemma MisrouteArbAt(cfg: Config, k: nat, m: nat)
    requires m < cfg.slaves
    ensures |MisrouteState(cfg, k).arbs| == |MisrouteInputs(cfg, k).ready| == cfg.slaves
            && MisrouteInputs(cfg, k).ready[m]
    ensures MisrouteState(cfg, k).arbs[m]
            == if m == 1 then MisrouteArbiter(cfg, k) else RoundRobin.State(None, cfg.masters)
  {
    hide TwoBursts, MisrouteReg, MisroutePos, Second, MisrouteArbiter;
  }

  lemma FirstTargetShaped(cfg: Config, k: nat)
    requires Misroutes(cfg) && k < 4
    ensures TargetShaped(cfg, TwoBursts(cfg), MisrouteReg(cfg, k), MisroutePos(cfg, k))
    ensures |TwoBursts(cfg)| == 3 && MisroutePos(cfg, k) <= 2
    ensures k < 3 ==> |MisrouteReg(cfg, k)| == if k == 2 then 1 + Second(cfg) else k
    ensures 0 < k < 3 ==> MisrouteReg(cfg, k)[0] == TwoBursts(cfg)[0]
    ensures 0 < k < 3 ==> TwoBursts(cfg)[MisroutePos(cfg, k)].id == Prefixed(cfg, 1, 0)
  {
    hide Prefixed;
  }

  lemma MisrouteFits(cfg: Config, k: nat)
    requires Misroutes(cfg) && k < 4
    ensures Shaped(cfg, MisrouteScript(cfg), MisrouteState(cfg, k))
    ensures k < 3 ==> InputsFit(cfg, MisrouteScript(cfg), MisrouteState(cfg, k), MisrouteInputs(cfg, k))
  {
    var script, st, i := MisrouteScript(cfg), MisrouteState(cfg, k), MisrouteInputs(cfg, k);
    hide TwoBursts, MisrouteReg, MisrouteState, MisrouteInputs, MisrouteScript, MisroutePos;
    hide TargetShaped, RoundRobin.InRange;
    FirstTargetShaped(cfg, k);
    MisrouteAt(cfg, k, 0);
    MisrouteArbAt(cfg, k, 0);
    forall m | 0 <= m < cfg.slaves
      ensures RoundRobin.InRange(ArbiterConfig(cfg), st.arbs[m])
    {
      MisrouteArbAt(cfg, k, m);
      MisrouteInRange(cfg, k);
    }
    forall n | 0 <= n < cfg.masters
      ensures TargetShaped(cfg, script[n], st.regs[n], st.pos[n])
      ensures k < 3 ==> && (i.valid[n] ==> st.pos[n] < |script[n]|)
                        && (st.held[n] && st.pos[n] < |script[n]| ==> i.valid[n])
                        && (i.take[n] ==> i.valid[n] && |st.regs[n]| < cfg.regSlots)
    {
      MisrouteAt(cfg, k, n);
      EmptyTargetShaped(cfg);
    }
  }

  lemma MisrouteInRange(cfg: Config, k: nat)
    requires Misroutes(cfg)
    ensures RoundRobin.InRange(ArbiterConfig(cfg), MisrouteArbiter(cfg, k))
    ensures RoundRobin.InRange(ArbiterConfig(cfg), RoundRobin.State(None, cfg.masters))
  {
  }

  lemma EmptyTargetShaped(cfg: Config)
    ensures TargetShaped<int>(cfg, [], [], 0)
  {
  }

  /** The beat that waits behind the register of n in clock k. */
  function MisrouteInner(cfg: Config, k: nat, n: nat): Option<Beat<int>> {
    if n == 0 && k > 0 then Some(TwoBursts(cfg)[0]) else None
  }

  lemma MisrouteWires(cfg: Config, k: nat, n: nat)
    requires Misroutes(cfg) && k < 3 && n < cfg.masters
    requires Shaped(cfg, MisrouteScript(cfg), MisrouteState(cfg, k))
    requires InputsFit(cfg, MisrouteScript(cfg), MisrouteState(cfg, k), MisrouteInputs(cfg, k))
    ensures
      var script, st, i := MisrouteScript(cfg), MisrouteState(cfg, k), MisrouteInputs(cfg, k);
      && Inner(cfg, script, st, i, n) == MisrouteInner(cfg, k, n)
      && (n == 0 && k > 0 ==> Select(cfg, script, st, i, n) == 1)
  {
    hide SlaveOf, Prefixed, Shaped, InputsFit, MisrouteState, MisrouteInputs, MisrouteScript, MisrouteReg, TwoBursts;
    hide MisroutePos, MisrouteArbiter;
    TwoBurstsIds(cfg);
    FirstTargetShaped(cfg, k);
    MisrouteAt(cfg, k, n);
  }

  lemma MisrouteConsumed(cfg: Config, k: nat, n: nat)
    requires Misroutes(cfg) && k < 3 && n < cfg.masters
    requires Shaped(cfg, MisrouteScript(cfg), MisrouteState(cfg, k))
    requires InputsFit(cfg, MisrouteScript(cfg), MisrouteState(cfg, k), MisrouteInputs(cfg, k))
    ensures Consumed(cfg, MisrouteScript(cfg), MisrouteState(cfg, k), MisrouteInputs(cfg, k), n) <==> n == 0 && k == 2
  {
    MisrouteWires(cfg, k, n);
    MisrouteArbAt(cfg, k, 1);
    hide Inner, Select, Shaped, InputsFit, MisrouteScript, MisrouteState, MisrouteInputs, TwoBursts;
  }

  lemma MisrouteBits(cfg: Config, k: nat, m: nat, n: nat)
    requires Misroutes(cfg) && k < 3 && m < cfg.slaves && n <= cfg.masters
    requires Shaped(cfg, MisrouteScript(cfg), MisrouteState(cfg, k))
    requires InputsFit(cfg, MisrouteScript(cfg), MisrouteState(cfg, k), MisrouteInputs(cfg, k))
    ensures
      var script, st, i := MisrouteScript(cfg), MisrouteState(cfg, k), MisrouteInputs(cfg, k);
      && Requests(cfg, script, st, i, m)[n] == (n == 0 && m == 1 && k == 1)
      && Acknowledges(cfg, script, st, i, m)[n] == (n == 0 && m == 1 && k == 2)
  {
    if n < cfg.masters {
      MisrouteWires(cfg, k, n);
    }
    MisrouteArbAt(cfg, k, m);
    assert TwoBursts(cfg)[0].last;
    hide Inner, Select, Shaped, InputsFit, MisrouteScript, MisrouteState, MisrouteInputs, TwoBursts;
  }

  lemma MisrouteGets(cfg: Config, k: nat, m: nat)
    requires Misroutes(cfg) && k < 3 && m < cfg.slaves
    requires Shaped(cfg, MisrouteScript(cfg), MisrouteState(cfg, k))
    requires InputsFit(cfg, MisrouteScript(cfg), MisrouteState(cfg, k), MisrouteInputs(cfg, k))
    ensures Gets(cfg, MisrouteScript(cfg), MisrouteState(cfg, k), MisrouteInputs(cfg, k), m)
            == if m == 1 && k == 2 then Some(Received(0, 0, true, 10)) else None
  {
    MisrouteWires(cfg, k, 0);
    TwoBurstsIds(cfg);
    MisrouteArbAt(cfg, k, m);
    assert TwoBursts(cfg)[0] == Beat(Prefixed(cfg, 0, 0), true, 10);
    hide Inner, Select, Shaped, InputsFit, MisrouteScript, MisrouteState, MisrouteInputs, TwoBursts, OwnId, Prefixed;
  }

  lemma MisrouteVectors(cfg: Config, k: nat, m: nat)
    requires Misroutes(cfg) && k < 3 && m < cfg.slaves
    requires Shaped(cfg, MisrouteScript(cfg), MisrouteState(cfg, k))
    requires InputsFit(cfg, MisrouteScript(cfg), MisrouteState(cfg, k), MisrouteInputs(cfg, k))
    ensures
      var script, st, i := MisrouteScript(cfg), MisrouteState(cfg, k), MisrouteInputs(cfg, k);
      && Requests(cfg, script, st, i, m) == seq(cfg.masters + 1, n => n == 0 && m == 1 && k == 1)
      && Acknowledges(cfg, script, st, i, m) == seq(cfg.masters + 1, n => n == 0 && m == 1 && k == 2)
  {
    hide Requests, Acknowledges, Shaped, InputsFit;
    forall n | 0 <= n < cfg.masters + 1
      ensures Requests(cfg, MisrouteScript(cfg), MisrouteState(cfg, k), MisrouteInputs(cfg, k), m)[n]
              == (n == 0 && m == 1 && k == 1)
      ensures Acknowledges(cfg, MisrouteScript(cfg), MisrouteState(cfg, k), MisrouteInputs(cfg, k), m)[n]
              == (n == 0 && m == 1 && k == 2)
    {
      MisrouteBits(cfg, k, m, n);
    }
  }

  lemma FirstPortNearest(cfg: Config)
    requires cfg.masters >= 1
    ensures RoundRobin.Nearest(ArbiterConfig(cfg), cfg.masters, seq(cfg.masters + 1, n => n == 0), 0)
  {
  }

  lemma MisrouteArbiters(cfg: Config, k: nat, m: nat)
    requires Misroutes(cfg) && k < 3 && m < cfg.slaves
    ensures
      var s, s' := MisrouteState(cfg, k).arbs[m], MisrouteState(cfg, k + 1).arbs[m];
      RoundRobin.InRange(ArbiterConfig(cfg), s) &&
      RoundRobin.Next(ArbiterConfig(cfg), s, seq(cfg.masters + 1, n => n == 0 && m == 1 && k == 1),
                      seq(cfg.masters + 1, n => n == 0 && m == 1 && k == 2), s')
  {
    FirstPortNearest(cfg);
    var request := seq(cfg.masters + 1, n => n == 0 && m == 1 && k == 1);
    var acknowledge := seq(cfg.masters + 1, n => n == 0 && m == 1 && k == 2);
    var s, s' := MisrouteState(cfg, k).arbs[m], MisrouteState(cfg, k + 1).arbs[m];
    MisrouteArbAt(cfg, k, m);
    MisrouteArbAt(cfg, k + 1, m);
    assert acknowledge[0] == (m == 1 && k == 2) && request[0] == (m == 1 && k == 1);
    if m == 1 && k == 1 {
      assert request == seq(cfg.masters + 1, n => n == 0);
    }
    hide RoundRobin.Nearest, MisrouteState;
  }

  /** The registers of a target, with all that the step reads given as values. */
  lemma TargetStepOf<W>(cfg: Config, script: Script<W>, st: State<W>, i: Inputs, n: nat, reg': seq<Beat<W>>,
                        pos': nat, held': bool,
                        beats: seq<Beat<W>>, reg: seq<Beat<W>>, pos: nat, valid: bool, take: bool, consumed: bool)
    requires Shaped(cfg, script, st) && InputsFit(cfg, script, st, i) && n < cfg.masters && cfg.regSlots > 0
    requires script[n] == beats && st.regs[n] == reg && st.pos[n] == pos && i.valid[n] == valid && i.take[n] == take
    requires Consumed(cfg, script, st, i, n) == consumed
    requires (take ==> pos < |beats|) && (consumed ==> reg != [])
    requires pos' == (if take then pos + 1 else pos) && held' == (valid && !take)
    requires reg' == (if consumed then reg[1..] else reg) + (if take then [beats[pos]] else [])
    ensures TargetStep(cfg, script, st, i, n, reg', pos', held')
  {
    hide Consumed, Shaped, InputsFit;
  }

  lemma MisrouteTargets(cfg: Config, k: nat, n: nat)
    requires Misroutes(cfg) && k < 3 && n < cfg.masters
    requires Shaped(cfg, MisrouteScript(cfg), MisrouteState(cfg, k))
    requires InputsFit(cfg, MisrouteScript(cfg), MisrouteState(cfg, k), MisrouteInputs(cfg, k))
    ensures
      var st' := MisrouteState(cfg, k + 1);
      TargetStep(cfg, MisrouteScript(cfg), MisrouteState(cfg, k), MisrouteInputs(cfg, k), n,
                 st'.regs[n], st'.pos[n], st'.held[n])
  {
    hide Consumed, Shaped, InputsFit, TwoBursts, MisrouteReg, TargetStep, MisrouteState, MisrouteInputs, MisrouteScript;
    hide MisrouteArbiter;
    MisrouteConsumed(cfg, k, n);
    MisrouteAt(cfg, k, n);
    MisrouteAt(cfg, k + 1, n);
    var st' := MisrouteState(cfg, k + 1);
    if n == 0 {
      RegMoves(cfg, k);
      TargetStepOf(cfg, MisrouteScript(cfg), MisrouteState(cfg, k), MisrouteInputs(cfg, k), n, st'.regs[n],
                   st'.pos[n], st'.held[n], TwoBursts(cfg), MisrouteReg(cfg, k), MisroutePos(cfg, k), true,
                   k == 0 || (k == 1 && cfg.regSlots >= 2), k == 2);
    } else {
      TargetStepOf(cfg, MisrouteScript(cfg), MisrouteState(cfg, k), MisrouteInputs(cfg, k), n, st'.regs[n],
                   st'.pos[n], st'.held[n],
                   [], [], 0, false, false, false);
    }
  }

  lemma RegMoves(cfg: Config, k: nat)
    requires Misroutes(cfg) && k < 3
    ensures MisroutePos(cfg, k) < |TwoBursts(cfg)| && (k == 2 ==> MisrouteReg(cfg, k) != [])
    ensures MisrouteReg(cfg, k + 1)
            == (if k == 2 then MisrouteReg(cfg, k)[1..] else MisrouteReg(cfg, k))
               + (if k == 0 || (k == 1 && cfg.regSlots >= 2) then [TwoBursts(cfg)[MisroutePos(cfg, k)]] else [])
  {
    hide Prefixed;
  }

  lemma MisrouteNext(cfg: Config, k: nat)
    requires Misroutes(cfg) && k < 3
    requires Shaped(cfg, MisrouteScript(cfg), MisrouteState(cfg, k))
    requires InputsFit(cfg, MisrouteScript(cfg), MisrouteState(cfg, k), MisrouteInputs(cfg, k))
    ensures Next(cfg, MisrouteScript(cfg), MisrouteState(cfg, k), MisrouteInputs(cfg, k), MisrouteState(cfg, k + 1))
  {
    var script, st, i, st' := MisrouteScript(cfg), MisrouteState(cfg, k), MisrouteInputs(cfg, k),
      MisrouteState(cfg, k + 1);
    hide Requests, Acknowledges, Shaped, InputsFit, RoundRobin.Next, TargetStep, MisrouteScript, MisrouteInputs;
    hide MisrouteArbiter, MisrouteReg, MisroutePos, RoundRobin.InRange;
    forall m | 0 <= m < cfg.slaves
      ensures ArbiterStep(cfg, script, st, i, m, st'.arbs[m])
    {
      MisrouteVectors(cfg, k, m);
      MisrouteArbiters(cfg, k, m);
    }
    forall n | 0 <= n < cfg.masters
      ensures TargetStep(cfg, script, st, i, n, st'.regs[n], st'.pos[n], st'.held[n])
    {
      MisrouteTargets(cfg, k, n);
    }
    hide ArbiterStep;
  }

  lemma MisrouteSteps(cfg: Config, k: nat)
    requires Misroutes(cfg) && k < 3
    ensures StepAt(cfg, Misroute(cfg), k)
  {
    var script, st, i := MisrouteScript(cfg), MisrouteState(cfg, k), MisrouteInputs(cfg, k);
    hide Gets, Shaped, InputsFit, Next, MisrouteScript, MisrouteInputs, MisrouteState;
    MisrouteFits(cfg, k);
    MisrouteNext(cfg, k);
    forall m | 0 <= m < cfg.slaves
      ensures MisrouteLog(cfg, k + 1)[m] == MisrouteLog(cfg, k)[m] + Listed(Gets(cfg, script, st, i, m))
    {
      MisrouteGets(cfg, k, m);
    }
    assert LogNext(cfg, script, st, i, MisrouteLog(cfg, k), MisrouteLog(cfg, k + 1));
    hide LogNext, MisrouteLog;
  }

  lemma MisrouteStarts(cfg: Config)
    requires Misroutes(cfg)
    ensures MisrouteState(cfg, 0) == Start(cfg) && MisrouteLog(cfg, 0) == EmptyLog(cfg)
  {
    var st: State<int> := Start(cfg);
    assert MisrouteState(cfg, 0).arbs == st.arbs by {
      forall m | 0 <= m < cfg.slaves
        ensures MisrouteState(cfg, 0).arbs[m] == st.arbs[m]
      {
        MisrouteArbAt(cfg, 0, m);
      }
    }
    assert MisrouteState(cfg, 0).regs == st.regs;
    assert MisrouteState(cfg, 0).pos == st.pos;
    assert MisrouteState(cfg, 0).held == st.held;
    assert MisrouteLog(cfg, 0) == EmptyLog(cfg);
  }

  lemma MisrouteScriptFits(cfg: Config)
    requires Misroutes(cfg)
    ensures ScriptFits(cfg, MisrouteScript(cfg))
  {
    TwoBurstsIds(cfg);
    hide SlaveOf, OwnId, Prefixed;
    var beats := TwoBursts(cfg);
    assert Continues(beats, 0) && Continues(beats, 1) && Continues(beats, 2);
    assert Uninterleaved(cfg, beats);
    assert Uninterleaved<int>(cfg, []);
    hide Uninterleaved, TwoBursts;
  }

  /** With a register and two or more slaves a run hands the beat of slave 0 to slave 1. */
  lemma RegisterMisroutes(cfg: Config)
    requires Misroutes(cfg)
    ensures IsRun(cfg, Misroute(cfg)) && !Correct(cfg, Misroute(cfg), 3)
    ensures SlaveOf(cfg, TwoBursts(cfg)[0].id) == 0
    ensures Misroute(cfg).logs[3][1] == [Received(0, 0, true, TwoBursts(cfg)[0].data)]
  {
    var run := Misroute(cfg);
    TwoBurstsIds(cfg);
    MisrouteStarts(cfg);
    MisrouteScriptFits(cfg);
    forall k | 0 <= k < 3
      ensures StepAt(cfg, run, k)
    {
      MisrouteSteps(cfg, k);
    }
    hide SlaveOf, OwnId, StepAt, ScriptFits, Prefixed, Start;
    assert run.script[0] == TwoBursts(cfg);
    assert For(cfg, TwoBursts(cfg), 1, 1) == [];
    var got: seq<Received<int>> := [Received(0, 0, true, 10)];
    assert |From(got, 0)| == 1;
    assert run.logs[3][1] == got;
    assert run.states[3].pos[0] - |run.states[3].regs[0]| == 1;
    hide For, From, MisrouteState, MisrouteLog, MisrouteScript, TwoBursts;
  }

  /** All runs of a crossbar are routed correctly. */
  ghost predicate RoutesCorrectly(cfg: Config) {
    forall run: Run<int>, k: nat :: IsRun(cfg, run) && k < |run.states| ==> Correct(cfg, run, k)
  }

  /** Main result: responses are routed correctly in every run of a given crossbar
      exactly if its response registers at the master side are bypasses, or it has
      a single slave interface. */
  lemma RoutesCorrectlyExactly(cfg: Config)
    requires cfg.slaves >= 1 && cfg.masters >= 1
    ensures RoutesCorrectly(cfg) <==> cfg.regSlots == 0 || cfg.slaves == 1
  {
    hide IsRun, Correct;
    if Direct(cfg) {
      forall run: Run<int>, k: nat | IsRun(cfg, run) && k < |run.states|
        ensures Correct(cfg, run, k)
      {
        DirectRoutes(cfg, run, k);
      }
    } else {
      RegisterMisroutes(cfg);
    }
  }
}
