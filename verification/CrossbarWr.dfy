/** The write channels of the crossbar as one system: any number of slave and
    master interfaces, clocked together, with a log of what passed each of them. */
module CrossbarWr {
  import opened Common
  import opened WriteRouting
  import RoundRobin

  datatype Config = Config(slaves: nat, masters: nat)

  datatype SlaveIn<W> = SlaveIn(decoded: Option<nat>, admit: bool, wvalid: bool, wlast: bool, wdata: W)

  datatype MasterIn = MasterIn(limit: bool, awready: bool, wready: bool)

  datatype Inputs<W> = Inputs(s: seq<SlaveIn<W>>, t: seq<MasterIn>)

  datatype State = State(s: seq<Slave>, t: seq<Master>)

  predicate SlaveShaped(cfg: Config, s: Slave) {
    s.sel < cfg.masters && s.wsel < cfg.masters
  }

  predicate MasterShaped(cfg: Config, t: Master) {
    cfg.slaves > 0 && t.wsel < cfg.slaves && RoundRobin.InRange(ArbiterConfig(cfg.slaves), t.arb)
  }

  predicate Shaped(cfg: Config, st: State) {
    && |st.s| == cfg.slaves && |st.t| == cfg.masters
    && (forall m :: 0 <= m < cfg.slaves ==> SlaveShaped(cfg, st.s[m]))
    && (forall n :: 0 <= n < cfg.masters ==> MasterShaped(cfg, st.t[n]))
  }

  /** The environment offers whatever it likes, but every address decodes. */
  predicate InputsFit<W>(cfg: Config, i: Inputs<W>) {
    && |i.s| == cfg.slaves && |i.t| == cfg.masters
    && (forall m :: 0 <= m < cfg.slaves && i.s[m].decoded.Some? ==> i.s[m].decoded.value < cfg.masters)
  }

  // The wires between the interfaces

  function Wanted(cfg: Config, st: State, n: nat): (r: seq<bool>)
    requires Shaped(cfg, st)
    ensures |r| == cfg.slaves
  {
    seq(cfg.slaves, m requires 0 <= m < cfg.slaves => st.s[m].avalid && st.s[m].sel == n)
  }

  predicate AwReady<W>(cfg: Config, st: State, i: Inputs<W>, m: nat)
    requires Shaped(cfg, st) && InputsFit(cfg, i) && m < cfg.slaves
  {
    var n := st.s[m].sel;
    st.t[n].arb.holder == Some(m) && i.t[n].awready
  }

  /** A write beat leaves slave interface m. */
  predicate Taken<W>(cfg: Config, st: State, i: Inputs<W>, m: nat)
    requires Shaped(cfg, st) && InputsFit(cfg, i) && m < cfg.slaves
  {
    var n := st.s[m].wsel;
    i.s[m].wvalid && WReady(st.s[m], st.t[n], m, n, i.t[n].wready)
  }

  /** A write beat leaves the crossbar at master interface n. */
  predicate Delivered<W>(cfg: Config, st: State, i: Inputs<W>, n: nat)
    requires Shaped(cfg, st) && InputsFit(cfg, i) && n < cfg.masters
  {
    var m := st.t[n].wsel;
    WValid(st.s[m], st.t[n], m, n, i.s[m].wvalid) && i.t[n].wready
  }

  predicate SlaveLast<W>(cfg: Config, st: State, i: Inputs<W>, m: nat)
    requires Shaped(cfg, st) && InputsFit(cfg, i) && m < cfg.slaves
  {
    Taken(cfg, st, i, m) && i.s[m].wlast
  }

  predicate MasterLast<W>(cfg: Config, st: State, i: Inputs<W>, n: nat)
    requires Shaped(cfg, st) && InputsFit(cfg, i) && n < cfg.masters
  {
    Delivered(cfg, st, i, n) && i.s[st.t[n].wsel].wlast
  }

  predicate SlaveStep<W>(cfg: Config, st: State, i: Inputs<W>, m: nat, s': Slave)
    requires Shaped(cfg, st) && InputsFit(cfg, i) && m < cfg.slaves
  {
    s' == SlaveNext(st.s[m], i.s[m].decoded, i.s[m].admit, AwReady(cfg, st, i, m), SlaveLast(cfg, st, i, m))
  }

  predicate MasterStep<W>(cfg: Config, st: State, i: Inputs<W>, n: nat, t': Master)
    requires Shaped(cfg, st) && InputsFit(cfg, i) && n < cfg.masters
  {
    MasterNext(st.t[n], Wanted(cfg, st, n), i.t[n].limit, i.t[n].awready, MasterLast(cfg, st, i, n), t')
  }

  predicate GrantsAt<W>(cfg: Config, st: State, i: Inputs<W>, n: nat)
    requires Shaped(cfg, st) && InputsFit(cfg, i) && n < cfg.masters
  {
    Grants(st.t[n], Wanted(cfg, st, n), i.t[n].limit, i.t[n].awready, MasterLast(cfg, st, i, n))
  }

  predicate AckedAt<W>(cfg: Config, st: State, i: Inputs<W>, n: nat)
    requires Shaped(cfg, st) && InputsFit(cfg, i) && n < cfg.masters
  {
    Acked(st.t[n], Wanted(cfg, st, n), i.t[n].awready)
  }

  /** One clock of the crossbar: all interfaces at once. */
  predicate Next<W>(cfg: Config, st: State, i: Inputs<W>, st': State)
    requires Shaped(cfg, st) && InputsFit(cfg, i)
  {
    && |st'.s| == cfg.slaves && |st'.t| == cfg.masters
    && (forall m :: 0 <= m < cfg.slaves ==> SlaveStep(cfg, st, i, m, st'.s[m]))
    && (forall n :: 0 <= n < cfg.masters ==> MasterStep(cfg, st, i, n, st'.t[n]))
  }

  /** Every step leads to registers in range, so that runs may say so of each state. */
  lemma StaysShaped<W>(cfg: Config, st: State, i: Inputs<W>, st': State)
    requires Shaped(cfg, st) && InputsFit(cfg, i) && Next(cfg, st, i, st')
    ensures Shaped(cfg, st')
  {
    hide SlaveNext, MasterNext, RoundRobin.InRange;
    forall m | 0 <= m < cfg.slaves
      ensures SlaveShaped(cfg, st'.s[m])
    {
      assert SlaveStep(cfg, st, i, m, st'.s[m]);
      SlaveStaysShaped(cfg, st.s[m], i.s[m].decoded, i.s[m].admit, AwReady(cfg, st, i, m), SlaveLast(cfg, st, i, m));
    }
    forall n | 0 <= n < cfg.masters
      ensures MasterShaped(cfg, st'.t[n])
    {
      assert MasterStep(cfg, st, i, n, st'.t[n]);
      MasterStaysShaped(cfg, st.t[n], Wanted(cfg, st, n), i.t[n].limit, i.t[n].awready, MasterLast(cfg, st, i, n),
                        st'.t[n]);
    }
  }

  lemma SlaveStaysShaped(cfg: Config, s: Slave, decoded: Option<nat>, admit: bool, awReady: bool, last: bool)
    requires SlaveShaped(cfg, s) && (decoded.Some? ==> decoded.value < cfg.masters)
    ensures SlaveShaped(cfg, SlaveNext(s, decoded, admit, awReady, last))
  {
  }

  lemma MasterStaysShaped(cfg: Config, t: Master, wanted: seq<bool>, limit: bool, awReady: bool, last: bool, t': Master)
    requires MasterShaped(cfg, t) && |wanted| == cfg.slaves
    requires MasterNext(t, wanted, limit, awReady, last, t')
    ensures MasterShaped(cfg, t')
  {
    hide RoundRobin.Next;
    GrantOutcome(t, wanted, limit, awReady, last, t');
  }

  // The log

  /** Burst number `index` of a slave interface, which goes to or comes from `peer`. */
  datatype Burst = Burst(peer: nat, index: nat)

  datatype Beat<W> = Beat(of: Burst, last: bool, data: W)

  /** The addresses admitted, by destination, and the write beats taken. */
  datatype SlaveLog<W> = SlaveLog(aw: seq<Burst>, sent: seq<Beat<W>>)

  /** The addresses granted, by source, and the addresses and write beats that left. */
  datatype MasterLog<W> = MasterLog(grants: seq<Burst>, awOut: seq<Burst>, out: seq<Beat<W>>)

  datatype Log<W> = Log(s: seq<SlaveLog<W>>, t: seq<MasterLog<W>>)

  predicate LogFits<W>(cfg: Config, log: Log<W>) {
    |log.s| == cfg.slaves && |log.t| == cfg.masters
  }

  /** The number of finished bursts. */
  function Bursts<W>(beats: seq<Beat<W>>): nat {
    if beats == [] then 0 else Bursts(beats[..|beats| - 1]) + (if beats[|beats| - 1].last then 1 else 0)
  }

  /** The address that slave interface m holds up now. */
  function Newest<W>(l: SlaveLog<W>, m: nat): Burst {
    Burst(m, if l.aw == [] then 0 else |l.aw| - 1)
  }

  function NextSlaveLog<W>(l: SlaveLog<W>, s: Slave, i: SlaveIn<W>, taken: bool): SlaveLog<W> {
    SlaveLog(
      l.aw + (if Admits(s, i.decoded, i.admit) then [Burst(i.decoded.value, |l.aw|)] else []),
      l.sent + (if taken then [Beat(Burst(s.wsel, Bursts(l.sent)), i.wlast, i.wdata)] else []))
  }

  /** `granted` and `acked` name the addresses of these events, `beat` what is delivered. */
  function NextMasterLog<W>(l: MasterLog<W>, granted: Option<Burst>, acked: Option<Burst>,
                            beat: Option<Beat<W>>): MasterLog<W> {
    MasterLog(l.grants + Listed(granted), l.awOut + Listed(acked), l.out + Listed(beat))
  }

  function Granted<W>(cfg: Config, st: State, i: Inputs<W>, log: Log<W>, n: nat, t': Master): Option<Burst>
    requires Shaped(cfg, st) && InputsFit(cfg, i) && LogFits(cfg, log) && n < cfg.masters && MasterShaped(cfg, t')
  {
    match t'.arb.holder
    case Some(p) => if GrantsAt(cfg, st, i, n) then Some(Newest(log.s[p], p)) else None
    case None => None
  }

  function AckedAddress<W>(cfg: Config, st: State, i: Inputs<W>, log: Log<W>, n: nat): Option<Burst>
    requires Shaped(cfg, st) && InputsFit(cfg, i) && LogFits(cfg, log) && n < cfg.masters
  {
    if AckedAt(cfg, st, i, n) then var p := st.t[n].arb.holder.value; Some(Newest(log.s[p], p)) else None
  }

  function DeliveredBeat<W>(cfg: Config, st: State, i: Inputs<W>, log: Log<W>, n: nat): Option<Beat<W>>
    requires Shaped(cfg, st) && InputsFit(cfg, i) && LogFits(cfg, log) && n < cfg.masters
  {
    var p := st.t[n].wsel;
    if Delivered(cfg, st, i, n) then Some(Beat(Burst(p, Bursts(log.s[p].sent)), i.s[p].wlast, i.s[p].wdata)) else None
  }

  ghost predicate LogNext<W>(cfg: Config, st: State, i: Inputs<W>, st': State, log: Log<W>, log': Log<W>)
    requires Shaped(cfg, st) && InputsFit(cfg, i) && LogFits(cfg, log) && Shaped(cfg, st')
  {
    && LogFits(cfg, log')
    && (forall m :: 0 <= m < cfg.slaves ==>
          log'.s[m] == NextSlaveLog(log.s[m], st.s[m], i.s[m], Taken(cfg, st, i, m)))
    && (forall n :: 0 <= n < cfg.masters ==>
          log'.t[n] == NextMasterLog(log.t[n], Granted(cfg, st, i, log, n, st'.t[n]),
                                     AckedAddress(cfg, st, i, log, n), DeliveredBeat(cfg, st, i, log, n)))
  }

  // What holds of the log

  lemma BurstsGrow<W>(beats: seq<Beat<W>>, b: Beat<W>)
    ensures Bursts(beats + [b]) == Bursts(beats) + (if b.last then 1 else 0)
  {
    assert (beats + [b])[..|beats|] == beats;
  }

  predicate FollowsAt<W>(beats: seq<Beat<W>>, plan: seq<Burst>, k: nat)
    requires k < |beats|
  {
    Bursts(beats[..k]) < |plan| && beats[k].of == plan[Bursts(beats[..k])]
  }

  /** The beats come burst by burst, without mixing, in the order of the plan: a
      beat after k finished bursts belongs to burst k of the plan. */
  predicate Follows<W>(beats: seq<Beat<W>>, plan: seq<Burst>) {
    forall k :: 0 <= k < |beats| ==> FollowsAt(beats, plan, k)
  }

  lemma FollowsGrows<W>(beats: seq<Beat<W>>, plan: seq<Burst>, beat: Option<Beat<W>>, more: Option<Burst>)
    requires Follows(beats, plan)
    requires beat.Some? ==> Bursts(beats) < |plan| && beat.value.of == plan[Bursts(beats)]
    ensures Follows(beats + Listed(beat), plan + Listed(more))
  {
    var beats', plan' := beats + Listed(beat), plan + Listed(more);
    forall k | 0 <= k < |beats'|
      ensures FollowsAt(beats', plan', k)
    {
      assert beats'[..k] == beats[..k];
      if k < |beats| {
        assert FollowsAt(beats, plan, k);
      } else {
        assert beats[..k] == beats;
      }
    }
  }

  /** The beats exchanged with one peer. */
  function Select<W>(beats: seq<Beat<W>>, peer: nat): seq<(nat, bool, W)> {
    if beats == [] then []
    else
      var b := beats[|beats| - 1];
      Select(beats[..|beats| - 1], peer) + (if b.of.peer == peer then [(b.of.index, b.last, b.data)] else [])
  }

  lemma SelectGrows<W>(beats: seq<Beat<W>>, b: Beat<W>, peer: nat)
    ensures Select(beats + [b], peer)
            == Select(beats, peer) + (if b.of.peer == peer then [(b.of.index, b.last, b.data)] else [])
  {
    assert (beats + [b])[..|beats|] == beats;
  }

  /** The registers point where the addresses admitted last go. */
  predicate Aims(s: Slave, aw: seq<Burst>, done: nat) {
    && (s.avalid || s.wcv ==> aw != [] && aw[|aw| - 1].peer == s.sel)
    && (s.wval ==> done < |aw| && aw[done].peer == s.wsel)
  }

  predicate Numbered(aw: seq<Burst>) {
    forall k :: 0 <= k < |aw| ==> aw[k].index == k
  }

  lemma AimsKept(s: Slave, aw: seq<Burst>, done: nat, decoded: Option<nat>, admit: bool, awReady: bool, lastTaken: bool)
    requires SlaveSound(s, |aw|, done) && Aims(s, aw, done) && (lastTaken ==> s.wval)
    ensures Aims(SlaveNext(s, decoded, admit, awReady, lastTaken),
                 aw + (if Admits(s, decoded, admit) then [Burst(decoded.value, |aw|)] else []),
                 done + (if lastTaken then 1 else 0))
  {
    if !Admits(s, decoded, admit) {
      assert aw + [] == aw;
    }
  }

  predicate SlaveInv<W>(s: Slave, l: SlaveLog<W>) {
    && SlaveSound(s, |l.aw|, Bursts(l.sent))
    && Aims(s, l.aw, Bursts(l.sent))
    && Numbered(l.aw)
    && Follows(l.sent, l.aw)
  }

  /** Finished bursts, the routed one and the one about to be routed are all there is. */
  predicate Accounts(t: Master, granted: nat, finished: nat) {
    granted == finished + (if t.wval then 1 else 0) + (if t.arb.holder.Some? && t.wnew then 1 else 0)
  }

  /** The registers point at the source of the last grant. */
  predicate Points(t: Master, grants: seq<Burst>) {
    && (t.wval ==> grants != [] && grants[|grants| - 1].peer == t.wsel)
    && (t.arb.holder.Some? ==> grants != [] && grants[|grants| - 1].peer == t.arb.holder.value)
  }

  /** All addresses granted have left, but for the one that still holds the grant. */
  predicate LeftInOrder(t: Master, grants: seq<Burst>, awOut: seq<Burst>) {
    if t.arb.holder.Some? then grants != [] && awOut == grants[..|grants| - 1] else awOut == grants
  }

  predicate MasterInv<W>(t: Master, l: MasterLog<W>) {
    && MasterSound(t)
    && Accounts(t, |l.grants|, Bursts(l.out))
    && Points(t, l.grants)
    && LeftInOrder(t, l.grants, l.awOut)
    && Follows(l.out, l.grants)
  }

  lemma PointsKept(t: Master, grants: seq<Burst>, finished: nat, lastTaken: bool, acked: bool, t': Master,
                   granted: Option<Burst>)
    requires MasterSound(t) && Accounts(t, |grants|, finished) && Points(t, grants)
    requires MasterMoves(t, lastTaken, granted.Some?, acked, t') && (lastTaken ==> t.wval)
    requires granted.Some? ==> t'.arb.holder == Some(granted.value.peer)
    ensures MasterSound(t') && Accounts(t', |grants + Listed(granted)|, finished + if lastTaken then 1 else 0)
    ensures Points(t', grants + Listed(granted))
  {
  }

  lemma LeftKept(t: Master, grants: seq<Burst>, awOut: seq<Burst>, lastTaken: bool, acked: Option<Burst>, t': Master,
                 granted: Option<Burst>)
    requires LeftInOrder(t, grants, awOut)
    requires MasterMoves(t, lastTaken, granted.Some?, acked.Some?, t')
    requires acked.Some? ==> acked.value == grants[|grants| - 1]
    ensures LeftInOrder(t', grants + Listed(granted), awOut + Listed(acked))
  {
    hide RouteNext, TakesRoute;
    assert granted.None? ==> grants + Listed(granted) == grants;
    assert acked.None? ==> awOut + Listed(acked) == awOut;
  }

  function Tag<W>(l: MasterLog<W>): nat {
    if l.grants == [] then 0 else l.grants[|l.grants| - 1].index
  }

  /** Address `g` of slave m, granted at n, is one of m's for n, and is not the one waiting. */
  predicate GrantedFrom<W>(g: Burst, s: Slave, l: SlaveLog<W>, t: Master, m: nat, n: nat) {
    g.peer == m ==>
      && g.index < |l.aw| && l.aw[g.index].peer == n
      && (s.avalid && s.sel == n && t.arb.holder != Some(m) ==> g.index + 1 < |l.aw|)
  }

  /** Grants to the same slave have increasing numbers: no address is granted twice. */
  predicate Increasing(grants: seq<Burst>) {
    forall j, k :: 0 <= j < k < |grants| && grants[j].peer == grants[k].peer ==> grants[j].index < grants[k].index
  }

  predicate Known(cfg: Config, grants: seq<Burst>) {
    forall k :: 0 <= k < |grants| ==> grants[k].peer < cfg.slaves
  }

  ghost predicate PairInv<W>(s: Slave, sl: SlaveLog<W>, t: Master, tl: MasterLog<W>, m: nat, n: nat) {
    && Linked(s, |sl.aw|, Bursts(sl.sent), t, Tag(tl), m, n)
    && Select(sl.sent, n) == Select(tl.out, m)
    && (forall k :: 0 <= k < |tl.grants| ==> GrantedFrom(tl.grants[k], s, sl, t, m, n))
  }

  ghost predicate Inv<W>(cfg: Config, st: State, log: Log<W>) {
    && Shaped(cfg, st) && LogFits(cfg, log)
    && (forall m :: 0 <= m < cfg.slaves ==> SlaveInv(st.s[m], log.s[m]))
    && (forall n :: 0 <= n < cfg.masters ==>
          MasterInv(st.t[n], log.t[n]) && Increasing(log.t[n].grants) && Known(cfg, log.t[n].grants))
    && (forall m, n :: 0 <= m < cfg.slaves && 0 <= n < cfg.masters ==>
          PairInv(st.s[m], log.s[m], st.t[n], log.t[n], m, n))
  }

  lemma SlaveLogGrows<W>(l: SlaveLog<W>, s: Slave, i: SlaveIn<W>, taken: bool, n: nat)
    ensures
      var l' := NextSlaveLog(l, s, i, taken);
      && |l'.aw| == |l.aw| + (if Admits(s, i.decoded, i.admit) then 1 else 0)
      && Bursts(l'.sent) == Bursts(l.sent) + (if taken && i.wlast then 1 else 0)
      && Select(l'.sent, n) == Select(l.sent, n) +
           (if taken && s.wsel == n then [(Bursts(l.sent), i.wlast, i.wdata)] else [])
  {
    if taken {
      var sent := Beat(Burst(s.wsel, Bursts(l.sent)), i.wlast, i.wdata);
      BurstsGrow(l.sent, sent);
      SelectGrows(l.sent, sent, n);
    } else {
      assert NextSlaveLog(l, s, i, taken).sent == l.sent;
    }
  }

  lemma OutGrows<W>(out: seq<Beat<W>>, beat: Option<Beat<W>>, m: nat)
    ensures Bursts(out + Listed(beat)) == Bursts(out) + (if beat.Some? && beat.value.last then 1 else 0)
    ensures Select(out + Listed(beat), m) == Select(out, m) +
              (if beat.Some? && beat.value.of.peer == m then [(beat.value.of.index, beat.value.last, beat.value.data)]
               else [])
  {
    if beat.Some? {
      BurstsGrow(out, beat.value);
      SelectGrows(out, beat.value, m);
    } else {
      assert out + Listed(beat) == out;
    }
  }

  lemma TagGrows<W>(l: MasterLog<W>, granted: Option<Burst>, acked: Option<Burst>, beat: Option<Beat<W>>)
    ensures Tag(NextMasterLog(l, granted, acked, beat)) == if granted.Some? then granted.value.index else Tag(l)
  {
    if granted.None? {
      assert l.grants + Listed(granted) == l.grants;
    }
  }

  lemma SlaveInvKept<W>(s: Slave, l: SlaveLog<W>, i: SlaveIn<W>, awReady: bool, taken: bool)
    requires SlaveInv(s, l)
    requires taken ==> s.wval
    ensures SlaveInv(SlaveNext(s, i.decoded, i.admit, awReady, taken && i.wlast), NextSlaveLog(l, s, i, taken))
  {
    hide Follows, Bursts, Select, SlaveNext, SlaveSound;
    SlaveSoundKept(s, |l.aw|, Bursts(l.sent), i.decoded, i.admit, awReady, taken && i.wlast);
    AimsKept(s, l.aw, Bursts(l.sent), i.decoded, i.admit, awReady, taken && i.wlast);
    SlaveLogGrows(l, s, i, taken, 0);
    SentFollows(s, l, i, taken);
    hide Aims, Admits;
    assert Numbered(NextSlaveLog(l, s, i, taken).aw);
    hide Numbered;
  }

  lemma SentFollows<W>(s: Slave, l: SlaveLog<W>, i: SlaveIn<W>, taken: bool)
    requires Numbered(l.aw) && Follows(l.sent, l.aw) && Aims(s, l.aw, Bursts(l.sent)) && (taken ==> s.wval)
    ensures Follows(NextSlaveLog(l, s, i, taken).sent, NextSlaveLog(l, s, i, taken).aw)
  {
    hide Follows, Bursts;
    var more := if Admits(s, i.decoded, i.admit) then Some(Burst(i.decoded.value, |l.aw|)) else None;
    var beat := if taken then Some(Beat(Burst(s.wsel, Bursts(l.sent)), i.wlast, i.wdata)) else None;
    FollowsGrows(l.sent, l.aw, beat, more);
  }

  lemma MasterInvKept<W>(t: Master, l: MasterLog<W>, t': Master,
                         granted: Option<Burst>, acked: Option<Burst>, beat: Option<Beat<W>>)
    requires MasterInv(t, l)
    requires MasterMoves(t, beat.Some? && beat.value.last, granted.Some?, acked.Some?, t')
    requires granted.Some? ==> t'.arb.holder == Some(granted.value.peer)
    requires acked.Some? ==> acked.value == l.grants[|l.grants| - 1]
    requires beat.Some? ==> t.wval && beat.value.of == l.grants[|l.grants| - 1]
    ensures MasterInv(t', NextMasterLog(l, granted, acked, beat))
  {
    hide Follows, Bursts, Select, MasterMoves, LeftInOrder;
    var last := beat.Some? && beat.value.last;
    FollowsGrows(l.out, l.grants, beat, granted);
    OutGrows(l.out, beat, 0);
    PointsKept(t, l.grants, Bursts(l.out), last, acked.Some?, t', granted);
    LeftKept(t, l.grants, l.awOut, last, acked, t', granted);
    hide Accounts, Points, MasterSound;
  }

  lemma IncreasingKept<W>(s: Slave, sl: SlaveLog<W>, t: Master, tl: MasterLog<W>, m: nat, n: nat)
    requires PairInv(s, sl, t, tl, m, n) && Increasing(tl.grants) && SlaveInv(s, sl)
    requires s.avalid && s.sel == n && t.arb.holder != Some(m)
    ensures Increasing(tl.grants + [Newest(sl, m)])
  {
    hide Linked, Select, Follows, Bursts;
    forall k | 0 <= k < |tl.grants| && tl.grants[k].peer == m
      ensures tl.grants[k].index < Newest(sl, m).index
    {
      assert GrantedFrom(tl.grants[k], s, sl, t, m, n);
    }
  }

  lemma PairInvKept<W>(s: Slave, sl: SlaveLog<W>, t: Master, tl: MasterLog<W>, m: nat, n: nat,
                       i: SlaveIn<W>, awReady: bool, taken: bool, grants: bool, acked: bool, s': Slave, t': Master,
                       granted: Option<Burst>, ackedAddress: Option<Burst>, beat: Option<Beat<W>>)
    requires SlaveInv(s, sl) && MasterInv(t, tl) && PairInv(s, sl, t, tl, m, n)
    requires PairStep(s, t, m, n, i.decoded, i.admit, awReady, taken && i.wlast,
                      beat.Some? && beat.value.last, grants, acked, s', t')
    requires taken ==> s.wval
    requires granted.Some? <==> grants
    requires grants ==> granted.value.peer == t'.arb.holder.value
    requires grants && t'.arb.holder == Some(m) ==> granted.value == Newest(sl, m)
    requires (taken && s.wsel == n) <==> (beat.Some? && beat.value.of.peer == m)
    requires taken && s.wsel == n ==> beat.value == Beat(Burst(m, Bursts(sl.sent)), i.wlast, i.wdata)
    ensures PairInv(s', NextSlaveLog(sl, s, i, taken), t', NextMasterLog(tl, granted, ackedAddress, beat), m, n)
  {
    var sl', tl' := NextSlaveLog(sl, s, i, taken), NextMasterLog(tl, granted, ackedAddress, beat);
    SlaveLogGrows(sl, s, i, taken, n);
    OutGrows(tl.out, beat, m);
    TagGrows(tl, granted, ackedAddress, beat);
    hide Follows, Bursts, Select;
    GrantedIsWaiting(s, sl, t, m, n, i.decoded, i.admit, awReady, taken && i.wlast,
                     beat.Some? && beat.value.last, grants, acked, s', t');
    hide Linked, PairStep;
    PairKept(s, |sl.aw|, Bursts(sl.sent), t, Tag(tl), m, n, i.decoded, i.admit, awReady, taken && i.wlast,
             beat.Some? && beat.value.last, grants, acked, s', |sl'.aw|, Bursts(sl'.sent), t', Tag(tl'));
    forall k | 0 <= k < |tl'.grants|
      ensures GrantedFrom(tl'.grants[k], s', sl', t', m, n)
    {
      if k < |tl.grants| {
        assert GrantedFrom(tl.grants[k], s, sl, t, m, n);
      }
      GrantedFromKept(tl'.grants[k], s, sl, t, m, n, i, awReady, taken,
                      beat.Some? && beat.value.last, grants, acked, s', t');
    }
  }

  lemma GrantedIsWaiting<W>(s: Slave, sl: SlaveLog<W>, t: Master, m: nat, n: nat, decoded: Option<nat>, admit: bool,
                            awReady: bool,
                            slaveLast: bool, masterLast: bool, grants: bool, acked: bool, s': Slave, t': Master)
    requires SlaveInv(s, sl)
    requires PairStep(s, t, m, n, decoded, admit, awReady, slaveLast, masterLast, grants, acked, s', t')
    ensures grants && t'.arb.holder == Some(m) ==>
              s.avalid && s.sel == n && sl.aw != [] && sl.aw[|sl.aw| - 1] == Burst(n, |sl.aw| - 1)
  {
  }

  lemma GrantedFromKept<W>(g: Burst, s: Slave, sl: SlaveLog<W>, t: Master, m: nat, n: nat, i: SlaveIn<W>, awReady: bool,
                           taken: bool, masterLast: bool, grants: bool, acked: bool, s': Slave, t': Master)
    requires SlaveSound(s, |sl.aw|, Bursts(sl.sent))
    requires PairStep(s, t, m, n, i.decoded, i.admit, awReady, taken && i.wlast, masterLast, grants, acked, s', t')
    requires GrantedFrom(g, s, sl, t, m, n) ||
             (grants && t'.arb.holder == Some(g.peer)
              && (g.peer == m ==> sl.aw != [] && g.index == |sl.aw| - 1 && sl.aw[g.index].peer == n))
    ensures GrantedFrom(g, s', NextSlaveLog(sl, s, i, taken), t', m, n)
  {
    hide Bursts;
  }

  /** No loss and no invention: a beat leaves slave interface m towards n in exactly
      the clocks in which one of m's leaves the crossbar at n. */
  lemma TakenIffDelivered<W>(cfg: Config, st: State, log: Log<W>, i: Inputs<W>, m: nat, n: nat)
    requires Inv(cfg, st, log) && InputsFit(cfg, i) && m < cfg.slaves && n < cfg.masters
    ensures Taken(cfg, st, i, m) && st.s[m].wsel == n <==> Delivered(cfg, st, i, n) && st.t[n].wsel == m
    ensures Taken(cfg, st, i, m) ==> st.s[m].wval
    ensures Delivered(cfg, st, i, n) && st.t[n].wsel == m ==>
              log.t[n].grants != [] && log.t[n].grants[|log.t[n].grants| - 1] == Burst(m, Bursts(log.s[m].sent))
  {
    hide Bursts, Follows, Select, Linked, SlaveSound, GrantedFrom;
    assert SlaveInv(st.s[m], log.s[m]) && MasterInv(st.t[n], log.t[n]);
    var d := st.s[m].wsel;
    assert PairInv(st.s[m], log.s[m], st.t[n], log.t[n], m, n);
    assert SlaveShaped(cfg, st.s[m]);
    assert PairInv(st.s[m], log.s[m], st.t[d], log.t[d], m, d);
    BeatTakenIffDelivered(st.s[m], |log.s[m].aw|, Bursts(log.s[m].sent), st.t[n], Tag(log.t[n]), m, n,
                          i.s[m].wvalid, i.t[n].wready);
    BeatTakenIffDelivered(st.s[m], |log.s[m].aw|, Bursts(log.s[m].sent), st.t[d], Tag(log.t[d]), m, d,
                          i.s[m].wvalid, i.t[d].wready);
  }

  lemma MasterSees<W>(cfg: Config, st: State, i: Inputs<W>, st': State, n: nat)
    requires Shaped(cfg, st) && InputsFit(cfg, i) && Next(cfg, st, i, st') && n < cfg.masters
    ensures MasterMoves(st.t[n], MasterLast(cfg, st, i, n), GrantsAt(cfg, st, i, n), AckedAt(cfg, st, i, n), st'.t[n])
    ensures MasterShaped(cfg, st'.t[n])
    ensures GrantsAt(cfg, st, i, n) ==> st'.t[n].arb.holder.Some? && Wanted(cfg, st, n)[st'.t[n].arb.holder.value]
  {
    hide RoundRobin.Next, RoundRobin.Decides, MasterMoves, SlaveStep, Delivered, Wanted;
    assert MasterStep(cfg, st, i, n, st'.t[n]) && MasterShaped(cfg, st.t[n]);
    GrantOutcome(st.t[n], Wanted(cfg, st, n), i.t[n].limit, i.t[n].awready, MasterLast(cfg, st, i, n), st'.t[n]);
    MasterStaysShaped(cfg, st.t[n], Wanted(cfg, st, n), i.t[n].limit, i.t[n].awready, MasterLast(cfg, st, i, n),
                      st'.t[n]);
  }

  lemma PairSees<W>(cfg: Config, st: State, i: Inputs<W>, st': State, m: nat, n: nat)
    requires Shaped(cfg, st) && InputsFit(cfg, i) && Next(cfg, st, i, st') && m < cfg.slaves && n < cfg.masters
    ensures PairStep(st.s[m], st.t[n], m, n, i.s[m].decoded, i.s[m].admit, AwReady(cfg, st, i, m),
                     SlaveLast(cfg, st, i, m), MasterLast(cfg, st, i, n), GrantsAt(cfg, st, i, n),
                     AckedAt(cfg, st, i, n),
                     st'.s[m], st'.t[n])
  {
    MasterSees(cfg, st, i, st', n);
    hide MasterMoves, SlaveNext, MasterStep, Grants, RoundRobin.InRange;
    assert SlaveStep(cfg, st, i, m, st'.s[m]);
    assert SlaveShaped(cfg, st.s[m]) && MasterShaped(cfg, st.t[n]);
  }

  lemma SlaveKeptInSystem<W>(cfg: Config, st: State, i: Inputs<W>, st': State, log: Log<W>, log': Log<W>, m: nat)
    requires Inv(cfg, st, log) && InputsFit(cfg, i) && Next(cfg, st, i, st') && Shaped(cfg, st')
    requires LogNext(cfg, st, i, st', log, log') && m < cfg.slaves
    ensures SlaveInv(st'.s[m], log'.s[m])
  {
    assert Taken(cfg, st, i, m) ==> st.s[m].wval by {
      assert SlaveShaped(cfg, st.s[m]);
      TakenIffDelivered(cfg, st, log, i, m, st.s[m].wsel);
    }
    assert SlaveStep(cfg, st, i, m, st'.s[m]);
    hide Taken, AwReady, SlaveNext, NextSlaveLog, PairInv, MasterInv;
    SlaveInvKept(st.s[m], log.s[m], i.s[m], AwReady(cfg, st, i, m), Taken(cfg, st, i, m));
  }

  /** What is logged at a master interface belongs to the address it granted last. */
  lemma EventsMatchGrant<W>(cfg: Config, st: State, i: Inputs<W>, st': State, log: Log<W>, n: nat)
    requires Inv(cfg, st, log) && InputsFit(cfg, i) && Next(cfg, st, i, st') && Shaped(cfg, st') && n < cfg.masters
    ensures
      var grants := log.t[n].grants;
      var granted, acked, beat := Granted(cfg, st, i, log, n, st'.t[n]), AckedAddress(cfg, st, i, log, n),
        DeliveredBeat(cfg, st, i, log, n);
      && (granted.Some? <==> GrantsAt(cfg, st, i, n))
      && (granted.Some? ==> st'.t[n].arb.holder == Some(granted.value.peer)
                            && granted.value == Newest(log.s[granted.value.peer], granted.value.peer))
      && (acked.Some? <==> AckedAt(cfg, st, i, n))
      && (acked.Some? ==> grants != [] && acked.value == grants[|grants| - 1])
      && (beat.Some? ==> st.t[n].wval && grants != [] && beat.value.of == grants[|grants| - 1])
      && (beat.Some? && beat.value.last <==> MasterLast(cfg, st, i, n))
  {
    MasterSees(cfg, st, i, st', n);
    hide MasterMoves, GrantsAt, Bursts, Follows, Select, SlaveInv, GrantedFrom;
    assert MasterShaped(cfg, st.t[n]) && MasterInv(st.t[n], log.t[n]);
    TakenIffDelivered(cfg, st, log, i, st.t[n].wsel, n);
    if AckedAt(cfg, st, i, n) {
      var p := st.t[n].arb.holder.value;
      assert PairInv(st.s[p], log.s[p], st.t[n], log.t[n], p, n);
    }
  }

  lemma MasterKeptInSystem<W>(cfg: Config, st: State, i: Inputs<W>, st': State, log: Log<W>, log': Log<W>, n: nat)
    requires Inv(cfg, st, log) && InputsFit(cfg, i) && Next(cfg, st, i, st') && Shaped(cfg, st')
    requires LogNext(cfg, st, i, st', log, log') && n < cfg.masters
    ensures MasterInv(st'.t[n], log'.t[n]) && Increasing(log'.t[n].grants) && Known(cfg, log'.t[n].grants)
  {
    MasterSees(cfg, st, i, st', n);
    EventsMatchGrant(cfg, st, i, st', log, n);
    var granted, acked, beat := Granted(cfg, st, i, log, n, st'.t[n]), AckedAddress(cfg, st, i, log, n),
      DeliveredBeat(cfg, st, i, log, n);
    hide Granted, AckedAddress, DeliveredBeat, MasterMoves, GrantsAt, AckedAt, MasterLast, Follows, Bursts, Next,
         Newest;
    assert MasterInv(st.t[n], log.t[n]);
    MasterInvKept(st.t[n], log.t[n], st'.t[n], granted, acked, beat);
    if granted.Some? {
      var p := granted.value.peer;
      assert Wanted(cfg, st, n)[p] && MasterShaped(cfg, st'.t[n]);
      assert SlaveInv(st.s[p], log.s[p]) && PairInv(st.s[p], log.s[p], st.t[n], log.t[n], p, n);
      assert st.t[n].arb.holder != Some(p) by {
        MovesAway(st.t[n], MasterLast(cfg, st, i, n), AckedAt(cfg, st, i, n), st'.t[n]);
      }
      IncreasingKept(st.s[p], log.s[p], st.t[n], log.t[n], p, n);
    }
  }

  lemma MovesAway(t: Master, last: bool, acked: bool, t': Master)
    requires MasterMoves(t, last, true, acked, t')
    ensures t.arb.holder != t'.arb.holder
  {
  }

  lemma PairKeptInSystem<W>(cfg: Config, st: State, i: Inputs<W>, st': State, log: Log<W>, log': Log<W>, m: nat, n: nat)
    requires Inv(cfg, st, log) && InputsFit(cfg, i) && Next(cfg, st, i, st') && Shaped(cfg, st')
    requires LogNext(cfg, st, i, st', log, log') && m < cfg.slaves && n < cfg.masters
    ensures PairInv(st'.s[m], log'.s[m], st'.t[n], log'.t[n], m, n)
  {
    TakenIffDelivered(cfg, st, log, i, m, n);
    PairSees(cfg, st, i, st', m, n);
    EventsMatchGrant(cfg, st, i, st', log, n);
    hide GrantsAt, AckedAt, Granted, AckedAddress, PairStep, PairInv, SlaveInv, MasterInv, Taken, AwReady, Next, Bursts;
    PairInvKept(st.s[m], log.s[m], st.t[n], log.t[n], m, n, i.s[m], AwReady(cfg, st, i, m), Taken(cfg, st, i, m),
                GrantsAt(cfg, st, i, n), AckedAt(cfg, st, i, n), st'.s[m], st'.t[n],
                Granted(cfg, st, i, log, n, st'.t[n]), AckedAddress(cfg, st, i, log, n),
                DeliveredBeat(cfg, st, i, log, n));
  }

  lemma InvKept<W>(cfg: Config, st: State, i: Inputs<W>, st': State, log: Log<W>, log': Log<W>)
    requires Inv(cfg, st, log) && InputsFit(cfg, i) && Next(cfg, st, i, st') && Shaped(cfg, st')
    requires LogNext(cfg, st, i, st', log, log')
    ensures Inv(cfg, st', log')
  {
    forall m | 0 <= m < cfg.slaves
      ensures SlaveInv(st'.s[m], log'.s[m])
    {
      SlaveKeptInSystem(cfg, st, i, st', log, log', m);
    }
    forall n | 0 <= n < cfg.masters
      ensures MasterInv(st'.t[n], log'.t[n]) && Increasing(log'.t[n].grants) && Known(cfg, log'.t[n].grants)
    {
      MasterKeptInSystem(cfg, st, i, st', log, log', n);
    }
    forall m, n | 0 <= m < cfg.slaves && 0 <= n < cfg.masters
      ensures PairInv(st'.s[m], log'.s[m], st'.t[n], log'.t[n], m, n)
    {
      PairKeptInSystem(cfg, st, i, st', log, log', m, n);
    }
  }

  // Whole runs

  function Start(cfg: Config): (st: State)
    requires cfg.slaves > 0
    ensures Shaped(cfg, st) || cfg.masters == 0
  {
    State(seq(cfg.slaves, _ => IDLE_SLAVE), seq(cfg.masters, _ => IdleMaster(cfg.slaves)))
  }

  function EmptyLog<W>(cfg: Config): Log<W> {
    Log(seq(cfg.slaves, _ => SlaveLog([], [])), seq(cfg.masters, _ => MasterLog([], [], [])))
  }

  lemma StartInv<W>(cfg: Config)
    requires cfg.slaves > 0 && cfg.masters > 0
    ensures Inv(cfg, Start(cfg), EmptyLog<W>(cfg))
  {
  }

  /** A run of the crossbar and its log, from reset on. */
  datatype Run<W> = Run(states: seq<State>, inputs: seq<Inputs<W>>, logs: seq<Log<W>>)

  ghost predicate StepAt<W>(cfg: Config, run: Run<W>, k: nat)
    requires |run.states| == |run.logs| == |run.inputs| + 1 && k < |run.inputs|
  {
    var st, st', i := run.states[k], run.states[k + 1], run.inputs[k];
    && Shaped(cfg, st) && Shaped(cfg, st') && InputsFit(cfg, i) && LogFits(cfg, run.logs[k])
    && Next(cfg, st, i, st')
    && LogNext(cfg, st, i, st', run.logs[k], run.logs[k + 1])
  }

  ghost predicate IsRun<W>(cfg: Config, run: Run<W>) {
    && cfg.slaves > 0 && cfg.masters > 0
    && |run.states| == |run.logs| == |run.inputs| + 1
    && run.states[0] == Start(cfg) && run.logs[0] == EmptyLog(cfg)
    && forall k :: 0 <= k < |run.inputs| ==> StepAt(cfg, run, k)
  }

  lemma {:induction false} RunKeepsInv<W>(cfg: Config, run: Run<W>, k: nat)
    requires IsRun(cfg, run) && k < |run.states|
    ensures Inv(cfg, run.states[k], run.logs[k])
  {
    hide Inv, Next, LogNext, Start, EmptyLog;
    if k == 0 {
      StartInv<W>(cfg);
    } else {
      RunKeepsInv(cfg, run, k - 1);
      assert StepAt(cfg, run, k - 1);
      InvKept(cfg, run.states[k - 1], run.inputs[k - 1], run.states[k], run.logs[k - 1], run.logs[k]);
    }
  }

  /** Every address admitted for n and granted there is granted once, in the order
      of its slave interface. */
  predicate GrantsAreAddresses<W>(log: Log<W>, n: nat)
    requires n < |log.t|
  {
    var grants := log.t[n].grants;
    && Increasing(grants)
    && forall k :: 0 <= k < |grants| ==>
         grants[k].peer < |log.s| && grants[k].index < |log.s[grants[k].peer].aw|
         && log.s[grants[k].peer].aw[grants[k].index] == Burst(n, grants[k].index)
  }

  lemma GrantIsAddress<W>(cfg: Config, st: State, log: Log<W>, n: nat, j: nat)
    requires Inv(cfg, st, log) && n < cfg.masters && j < |log.t[n].grants|
    ensures
      var g := log.t[n].grants[j];
      && g.peer < |log.s| && g.index < |log.s[g.peer].aw|
      && log.s[g.peer].aw[g.index] == Burst(n, g.index)
  {
    hide Linked, Select, Follows, Bursts, MasterInv;
    var p := log.t[n].grants[j].peer;
    assert Known(cfg, log.t[n].grants);
    assert SlaveInv(st.s[p], log.s[p]) && PairInv(st.s[p], log.s[p], st.t[n], log.t[n], p, n);
    assert GrantedFrom(log.t[n].grants[j], st.s[p], log.s[p], st.t[n], p, n);
  }

  /** Main result on the order of write data. In every run, at every master
      interface: the k-th burst of write data that leaves is, beat after beat up to
      its last one and without a foreign beat in between, the burst of the k-th
      address granted there; the addresses leave in that same order; and each of
      them is an address that its slave interface sent to this master. */
  lemma BurstsLeaveInGrantOrder<W>(cfg: Config, run: Run<W>, k: nat, n: nat)
    requires IsRun(cfg, run) && k < |run.states| && n < cfg.masters
    ensures LogFits(cfg, run.logs[k])
    ensures
      var l := run.logs[k].t[n];
      && Follows(l.out, l.grants)
      && (l.awOut == l.grants || (l.grants != [] && l.awOut == l.grants[..|l.grants| - 1]))
      && GrantsAreAddresses(run.logs[k], n)
  {
    RunKeepsInv(cfg, run, k);
    var st, log := run.states[k], run.logs[k];
    assert MasterInv(st.t[n], log.t[n]);
    var grants := log.t[n].grants;
    forall j | 0 <= j < |grants|
      ensures grants[j].peer < |log.s| && grants[j].index < |log.s[grants[j].peer].aw|
              && log.s[grants[j].peer].aw[grants[j].index] == Burst(n, grants[j].index)
    {
      GrantIsAddress(cfg, st, log, n, j);
    }
  }

  /** Main result on loss. In every run, for every pair of interfaces: the beats that
      the slave interface handed over for this master interface are exactly the beats
      of that slave that left there, in the same order and with the same burst
      numbers; and each slave interface sends its bursts in the order of its addresses. */
  lemma NothingLostOrInvented<W>(cfg: Config, run: Run<W>, k: nat, m: nat, n: nat)
    requires IsRun(cfg, run) && k < |run.states| && m < cfg.slaves && n < cfg.masters
    ensures LogFits(cfg, run.logs[k])
    ensures Select(run.logs[k].t[n].out, m) == Select(run.logs[k].s[m].sent, n)
    ensures Follows(run.logs[k].s[m].sent, run.logs[k].s[m].aw)
  {
    RunKeepsInv(cfg, run, k);
    var st, log := run.states[k], run.logs[k];
    assert SlaveInv(st.s[m], log.s[m]);
    assert PairInv(st.s[m], log.s[m], st.t[n], log.t[n], m, n);
  }
}
