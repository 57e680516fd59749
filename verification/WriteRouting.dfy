/** Write routing in the crossbar: how the write command of each slave interface
    and the address grant of each master interface find each other. */
module WriteRouting {
  import opened Common
  import RoundRobin

  /** Slave interface: the address stage (state, m_select, m_axi_avalid, m_wc_valid)
      and the write command registers w_select and w_select_valid. */
  datatype Slave = Slave(decode: bool, sel: nat, avalid: bool, wcv: bool, wsel: nat, wval: bool)

  /** Master interface: the address arbiter and the w_select, w_select_valid and
      w_select_new registers. */
  datatype Master = Master(arb: RoundRobin.State, wsel: nat, wval: bool, wnew: bool)

  const IDLE_SLAVE := Slave(false, 0, false, false, 0, false)

  function IdleMaster(slaves: nat): Master
    requires slaves > 0
  {
    Master(RoundRobin.State(None, slaves - 1), 0, false, true)
  }

  function ArbiterConfig(slaves: nat): RoundRobin.Config {
    RoundRobin.Config(slaves, RoundRobin.BlockAcknowledge, true)
  }

  /** The address stage looks at an address that decodes to `decoded`. */
  predicate Admits(s: Slave, decoded: Option<nat>, admit: bool) {
    !s.decode && decoded.Some? && admit
  }

  /** One clock of a slave interface; every address decodes. */
  function SlaveNext(s: Slave, decoded: Option<nat>, admit: bool, awReady: bool, lastTaken: bool): Slave {
    var avalid, wcv := s.avalid && !awReady, s.wcv && s.wval;
    var front :=
      if s.decode then s.(decode := avalid || wcv, avalid := avalid, wcv := wcv)
      else if Admits(s, decoded, admit) then s.(decode := true, sel := decoded.value, avalid := true, wcv := true)
      else s.(sel := if decoded.Some? then decoded.value else s.sel, avalid := avalid, wcv := wcv);
    if s.wcv && !s.wval then front.(wsel := s.sel, wval := true) else front.(wval := s.wval && !lastTaken)
  }

  /** The granted slave still asks, and the address is taken. */
  predicate Acked(t: Master, wanted: seq<bool>, awReady: bool)
    requires t.arb.holder.Some? ==> t.arb.holder.value < |wanted|
  {
    t.arb.holder.Some? && wanted[t.arb.holder.value] && awReady
  }

  /** The write data route is set from a grant, once per grant. */
  predicate TakesRoute(t: Master) {
    t.arb.holder.Some? && !t.wval && t.wnew
  }

  predicate RouteNext(t: Master, lastTaken: bool) {
    TakesRoute(t) || (t.wval && !lastTaken)
  }

  function Requests(t: Master, wanted: seq<bool>, limit: bool, lastTaken: bool): (r: seq<bool>)
    ensures |r| == |wanted|
  {
    seq(|wanted|, m requires 0 <= m < |wanted| =>
      wanted[m] && t.arb.holder != Some(m) && !limit && !RouteNext(t, lastTaken))
  }

  function Acknowledges(t: Master, wanted: seq<bool>, awReady: bool): (r: seq<bool>)
    ensures |r| == |wanted|
  {
    seq(|wanted|, m requires 0 <= m < |wanted| => t.arb.holder == Some(m) && wanted[m] && awReady)
  }

  /** One clock of a master interface. */
  predicate MasterNext(t: Master, wanted: seq<bool>, limit: bool, awReady: bool, lastTaken: bool, t': Master)
    requires RoundRobin.InRange(ArbiterConfig(|wanted|), t.arb)
  {
    && RoundRobin.Next(ArbiterConfig(|wanted|), t.arb, Requests(t, wanted, limit, lastTaken),
                       Acknowledges(t, wanted, awReady), t'.arb)
    && t'.wval == RouteNext(t, lastTaken)
    && t'.wsel == (if TakesRoute(t) then t.arb.holder.value else t.wsel)
    && t'.wnew == (!TakesRoute(t) && (t.wnew || t.arb.holder.None? || Acked(t, wanted, awReady)))
  }

  /** A clock in which the master interface grants anew. */
  predicate Grants(t: Master, wanted: seq<bool>, limit: bool, awReady: bool, lastTaken: bool)
    requires RoundRobin.InRange(ArbiterConfig(|wanted|), t.arb)
  {
    RoundRobin.Decides(ArbiterConfig(|wanted|), t.arb, Requests(t, wanted, limit, lastTaken),
                       Acknowledges(t, wanted, awReady))
  }

  /** The clock of a master interface without its scan order: a new grant comes
      only where no route is in use and the last grant, if any, was acknowledged. */
  predicate MasterMoves(t: Master, lastTaken: bool, grants: bool, acked: bool, t': Master) {
    && t'.wval == RouteNext(t, lastTaken)
    && t'.wsel == (if TakesRoute(t) then t.arb.holder.value else t.wsel)
    && t'.wnew == (!TakesRoute(t) && (t.wnew || t.arb.holder.None? || acked))
    && (acked ==> t.arb.holder.Some?)
    && (if grants then
          && t'.arb.holder.Some? && t.arb.holder != t'.arb.holder && !RouteNext(t, lastTaken)
          && (t.arb.holder.Some? ==> acked)
        else t'.arb.holder == if t.arb.holder.Some? && !acked then t.arb.holder else None)
  }

  lemma GrantOutcome(t: Master, wanted: seq<bool>, limit: bool, awReady: bool, lastTaken: bool, t': Master)
    requires RoundRobin.InRange(ArbiterConfig(|wanted|), t.arb)
    requires MasterNext(t, wanted, limit, awReady, lastTaken, t')
    ensures RoundRobin.InRange(ArbiterConfig(|wanted|), t'.arb)
    ensures MasterMoves(t, lastTaken, Grants(t, wanted, limit, awReady, lastTaken), Acked(t, wanted, awReady), t')
    ensures Grants(t, wanted, limit, awReady, lastTaken) ==> wanted[t'.arb.holder.value]
  {
  }

  predicate SlaveSound(s: Slave, started: nat, done: nat) {
    && (s.avalid || s.wcv ==> s.decode)
    && started == done + (if s.wval then 1 else 0) + (if s.wcv then 1 else 0)
    && (s.avalid ==> started > 0)
  }

  lemma SlaveSoundKept(s: Slave, started: nat, done: nat, decoded: Option<nat>, admit: bool, awReady: bool,
                       lastTaken: bool)
    requires SlaveSound(s, started, done) && (lastTaken ==> s.wval)
    ensures SlaveSound(SlaveNext(s, decoded, admit, awReady, lastTaken),
                       started + (if Admits(s, decoded, admit) then 1 else 0), done + (if lastTaken then 1 else 0))
  {
  }

  predicate MasterSound(t: Master) {
    t.arb.holder.Some? && t.wnew ==> !t.wval
  }

  /** The slave's pending address has not yet set the route at its master. */
  predicate Unrouted(s: Slave, t: Master, m: nat) {
    s.avalid && !(t.arb.holder == Some(m) && !t.wnew)
  }

  predicate Routes(t: Master, m: nat) {
    t.wval && t.wsel == m
  }

  predicate SendsTo(s: Slave, n: nat) {
    s.wval && s.wsel == n
  }

  /** How slave interface m and master interface n agree. The address granted last
      at n is number `tag` of its slave; m has had `started` addresses admitted and
      has finished `done` bursts. */
  predicate Linked(s: Slave, started: nat, done: nat, t: Master, tag: nat, m: nat, n: nat) {
    && (t.arb.holder == Some(m) ==> s.avalid && s.sel == n && tag + 1 == started)
    && (Routes(t, m) ==>
          || (SendsTo(s, n) && tag == done)
          || (s.wcv && s.sel == n && !Unrouted(s, t, m) && tag + 1 == started))
    && (SendsTo(s, n) ==> Routes(t, m) || (s.avalid && s.sel == n && Unrouted(s, t, m) && !s.wcv))
    && (s.avalid && s.sel == n && Unrouted(s, t, m) && !s.wcv ==> SendsTo(s, n) && !Routes(t, m))
    && (s.wcv && s.sel == n && !Unrouted(s, t, m) ==> Routes(t, m))
    && (s.wval && s.wcv && s.sel == s.wsel == n ==> Unrouted(s, t, m))
    && (s.wcv && !s.wval && s.sel == s.wsel == n ==> !Routes(t, m))
  }

  /** The W handshake seen from the slave: ready follows w_select even while
      w_select_valid is low. */
  predicate WReady(s: Slave, t: Master, m: nat, n: nat, wready: bool) {
    s.wsel == n && Routes(t, m) && wready
  }

  /** The W handshake seen from the master. */
  predicate WValid(s: Slave, t: Master, m: nat, n: nat, wvalid: bool) {
    Routes(t, m) && SendsTo(s, n) && wvalid
  }

  /** No loss: where slave and master agree, a beat leaves the slave if and only
      if it reaches the master, also in the gap clock between two bursts. */
  lemma BeatTakenIffDelivered(s: Slave, started: nat, done: nat, t: Master, tag: nat, m: nat, n: nat, wvalid: bool,
                              wready: bool)
    requires SlaveSound(s, started, done) && Linked(s, started, done, t, tag, m, n)
    ensures (wvalid && WReady(s, t, m, n, wready)) <==> (s.wsel == n && WValid(s, t, m, n, wvalid) && wready)
    ensures WValid(s, t, m, n, wvalid) ==> tag == done
  {
  }

  /** What the pair (m, n) sees of one clock. The signals of other interfaces are free. */
  predicate PairStep(s: Slave, t: Master, m: nat, n: nat, decoded: Option<nat>, admit: bool, awReady: bool,
                     slaveLast: bool, masterLast: bool, grants: bool, acked: bool, s': Slave, t': Master)
  {
    && s' == SlaveNext(s, decoded, admit, awReady, slaveLast)
    && (s.sel == n ==> (awReady ==> t.arb.holder == Some(m)))
    && (t.arb.holder == Some(m) ==> (acked <==> s.sel == n && s.avalid && awReady))
    && (s.wsel == n ==> (slaveLast ==> Routes(t, m)))
    && (Routes(t, m) ==> (masterLast <==> SendsTo(s, n) && slaveLast))
    && MasterMoves(t, masterLast, grants, acked, t')
    && (grants && t'.arb.holder == Some(m) ==> s.avalid && s.sel == n)
  }

  lemma PairKept(s: Slave, started: nat, done: nat, t: Master, tag: nat, m: nat, n: nat,
                 decoded: Option<nat>, admit: bool, awReady: bool,
                 slaveLast: bool, masterLast: bool, grants: bool, acked: bool,
                 s': Slave, started': nat, done': nat, t': Master, tag': nat)
    requires SlaveSound(s, started, done) && MasterSound(t) && Linked(s, started, done, t, tag, m, n)
    requires PairStep(s, t, m, n, decoded, admit, awReady, slaveLast, masterLast, grants, acked, s', t')
    requires slaveLast ==> s.wval
    requires started' == started + (if Admits(s, decoded, admit) then 1 else 0)
    requires done' == done + (if slaveLast then 1 else 0)
    requires if grants then t'.arb.holder == Some(m) ==> tag' + 1 == started else tag' == tag
    ensures SlaveSound(s', started', done') && MasterSound(t')
    ensures Linked(s', started', done', t', tag', m, n)
  {
  }
}
