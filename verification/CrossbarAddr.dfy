/** The address stage in front of each slave interface of the crossbar: decode,
    admission control by thread table and total count, hand-off of the address
    and of the write command. */
module CrossbarAddr {
  import opened Common
  import AddressMap
  import ThreadTable

  datatype Config = Config(amap: AddressMap.Map, threads: nat, accept: nat, wcOutput: bool)

  predicate ValidConfig(cfg: Config) {
    cfg.threads >= 1 && cfg.accept >= 1 && AddressMap.ValidMap(cfg.amap)
  }

  /** S_INT_THREADS. */
  function Rows(cfg: Config): nat {
    if cfg.threads > cfg.accept then cfg.accept else cfg.threads
  }

  /** The control registers. */
  datatype Stage = Stage(decode: bool, aready: bool, region: nat, select: nat,
                         avalid: bool, decerr: bool, wcValid: bool, rcValid: bool)

  datatype Inputs = Inputs(avalid: bool, aid: nat, aaddr: nat, nonsecure: bool,
                           mready: bool, wcReady: bool, rcReady: bool, cplValid: bool, cplId: nat)

  /** An address is looked at: the stage is idle and has not just accepted one. */
  predicate Looks(s: Stage, i: Inputs) {
    !s.decode && i.avalid && !s.aready
  }

  function NextStage(wcOutput: bool, s: Stage, i: Inputs, hit: Option<(nat, nat)>, started: bool): Stage {
    var left := s.(avalid := s.avalid && !i.mready, wcValid := s.wcValid && !i.wcReady,
                   rcValid := s.rcValid && !i.rcReady);
    if s.decode then
      var done := !left.avalid && (!left.wcValid || !wcOutput) && !left.rcValid;
      left.(aready := done, decode := !done)
    else if !Looks(s, i) then
      left.(aready := false)
    else match hit
      case None =>
        left.(aready := false, decode := true, avalid := false, decerr := true, wcValid := wcOutput, rcValid := true)
      case Some((select, region)) =>
        if started then
          Stage(true, false, region, select, true, false, wcOutput, false)
        else
          left.(aready := false, select := select, region := region)
  }

  /** thread_matcheddest, thread_match and thread_active put together. */
  method Admission(rows: seq<ThreadTable.Thread>, r: ThreadTable.Request, regions: nat) returns (ok: bool)
    ensures ok == ThreadTable.Admits(rows, r, regions)
  {
    var dest, matched, active, k := false, false, true, 0;
    while k < |rows|
      invariant 0 <= k <= |rows|
      invariant dest == exists j :: 0 <= j < k && ThreadTable.MatchesDest(rows[j], r, regions)
      invariant matched == exists j :: 0 <= j < k && ThreadTable.Matches(rows[j], r.id)
      invariant active == forall j :: 0 <= j < k ==> ThreadTable.Active(rows[j])
    {
      dest := dest || ThreadTable.MatchesDest(rows[k], r, regions);
      matched := matched || ThreadTable.Matches(rows[k], r.id);
      active := active && ThreadTable.Active(rows[k]);
      k := k + 1;
    }
    ok := dest || (!active && !matched);
  }

  /** The thread registers of every row load together. */
  method LoadThreads(rows: seq<ThreadTable.Thread>, start: bool, r: ThreadTable.Request, complete: bool, id: nat,
                     values: nat)
    returns (rows': seq<ThreadTable.Thread>)
    requires ThreadTable.InRange(rows, values)
    ensures rows' == ThreadTable.NextRows(rows, start, r, complete, id, values)
  {
    hide ThreadTable.NextRow, ThreadTable.Matches, ThreadTable.Active;
    rows' := [];
    ghost var next := ThreadTable.NextRows(rows, start, r, complete, id, values);
    var someMatch := ThreadTable.AnyMatch(rows, r.id);
    var bits: seq<bool> := [];
    var k := 0;
    while k < |rows|
      invariant 0 <= k <= |rows| == |next|
      invariant |bits| == |rows'| == k && bits == ThreadTable.StartBits(rows, r.id, k)
      invariant rows' == next[..k]
    {
      var t := rows[k];
      var starts := ThreadTable.Matches(t, r.id) || (!ThreadTable.Active(t) && !someMatch && true !in bits);
      bits := bits + [starts];
      BitsPrefix(rows, r.id, k + 1, |rows|);
      assert ThreadTable.StartBits(rows, r.id, |rows|)[k] == ThreadTable.StartBits(rows, r.id, |rows|)[..k + 1][k]
             == starts;
      assert next[..k + 1] == next[..k] + [next[k]];
      rows' := rows' + [ThreadTable.NextRow(t, r, start && starts, complete && ThreadTable.Matches(t, id), values)];
      k := k + 1;
    }
    assert next[..|rows|] == next;
  }

  lemma {:induction false} BitsPrefix(rows: seq<ThreadTable.Thread>, id: nat, n: nat, m: nat)
    requires n <= m <= |rows|
    ensures ThreadTable.StartBits(rows, id, m)[..n] == ThreadTable.StartBits(rows, id, n)
    decreases m
  {
    if n < m {
      BitsPrefix(rows, id, n, m - 1);
    }
  }

  /** The registers stand for the requests in flight, at most S_ACCEPT of them. */
  ghost predicate Tracked(cfg: Config, rows: seq<ThreadTable.Thread>, total: nat, flight: seq<ThreadTable.Request>) {
    && ThreadTable.Tracks(rows, flight)
    && ThreadTable.RegionsExist(flight, cfg.amap.regions)
    && total == |flight| <= cfg.accept
  }

  lemma RegionExists(amap: AddressMap.Map, i: Inputs, hit: Option<(nat, nat)>)
    requires AddressMap.ValidMap(amap)
    requires AddressMap.LastHit(amap, i.nonsecure, i.aaddr, |amap.secure|, 0, hit)
    ensures Request(i, hit).region < amap.regions
  {
  }

  /** When a request starts: the stage looks at it, it decodes, there is room or
      something completes, and the requests in flight with its ID allow it to go
      where it decodes to. */
  predicate Starts(cfg: Config, threads: nat, flight: seq<ThreadTable.Request>, s: Stage, i: Inputs,
                   hit: Option<(nat, nat)>) {
    && Looks(s, i) && hit.Some?
    && (|flight| < cfg.accept || i.cplValid)
    && ThreadTable.MayStart(flight, ThreadTable.Request(i.aid, hit.value.0, hit.value.1), threads)
  }

  /** The decision as the registers make it. */
  predicate Decides(cfg: Config, s: Stage, rows: seq<ThreadTable.Thread>, total: nat, i: Inputs,
                    hit: Option<(nat, nat)>, started: bool)
  {
    started == (&& Looks(s, i) && hit.Some? && !(total >= cfg.accept && !i.cplValid)
                && ThreadTable.Admits(rows, Request(i, hit), cfg.amap.regions))
  }

  lemma KeepsTracking(cfg: Config, s: Stage, rows: seq<ThreadTable.Thread>, total: nat,
                      flight: seq<ThreadTable.Request>,
                      i: Inputs, hit: Option<(nat, nat)>, started: bool)
    requires ValidConfig(cfg) && ThreadTable.InRange(rows, CounterValues(cfg.accept))
             && total < CounterValues(cfg.accept)
    requires Tracked(cfg, rows, total, flight)
    requires AddressMap.LastHit(cfg.amap, i.nonsecure, i.aaddr, |cfg.amap.secure|, 0, hit)
    requires i.cplValid ==> i.cplId in ThreadTable.Ids(flight)
    requires Decides(cfg, s, rows, total, i, hit, started)
    ensures started <==> Starts(cfg, |rows|, flight, s, i, hit)
    ensures started ==> GoesTo(NextStage(cfg.wcOutput, s, i, hit, started), Request(i, hit), i.aid)
    ensures Tracked(cfg, ThreadTable.NextRows(rows, started, Request(i, hit), i.cplValid, i.cplId,
                                              CounterValues(cfg.accept)),
                    Counted(total, started, i.cplValid, CounterValues(cfg.accept)),
                    ThreadTable.NextFlight(flight, started, Request(i, hit), i.cplValid, i.cplId))
  {
    hide ThreadTable.Admits, ThreadTable.MayStart, ThreadTable.Tracks, ThreadTable.NextFlight, ThreadTable.CountId;
    hide Pow2, Clog2, Looks, AddressMap.LastHit, Request;
    var r, values := Request(i, hit), CounterValues(cfg.accept);
    RegionExists(cfg.amap, i, hit);
    ThreadTable.AdmissionMeaning(rows, flight, r, cfg.amap.regions);
    ThreadTable.CountPositive(flight, i.cplId);
    ThreadTable.NextCounts(flight, started, r, i.cplValid, i.cplId, i.cplId);
    ThreadTable.TrackingIsKept(rows, flight, started, r, i.cplValid, i.cplId, cfg.amap.regions, values);
    RequestIsHandedOff(cfg.wcOutput, s, i, hit, started);
  }

  /** The request is the address in the hand-off registers and goes where they say. */
  predicate GoesTo(s: Stage, r: ThreadTable.Request, id: nat) {
    s.avalid && r.id == id && r.dest == s.select && r.region == s.region
  }

  lemma RequestIsHandedOff(wcOutput: bool, s: Stage, i: Inputs, hit: Option<(nat, nat)>, started: bool)
    ensures hit.Some? ==> Request(i, hit) == ThreadTable.Request(i.aid, hit.value.0, hit.value.1)
    ensures started && Looks(s, i) && hit.Some? ==>
              GoesTo(NextStage(wcOutput, s, i, hit, started), Request(i, hit), i.aid)
  {
  }

  class Decoder {
    const cfg: Config
    var decode: bool
    var aready: bool
    var region: nat
    var select: nat
    var avalid: bool
    var decerr: bool
    var wcValid: bool
    var rcValid: bool
    var transCount: nat
    var threads: seq<ThreadTable.Thread>
    // The requests admitted and not yet completed, oldest first.
    ghost var flight: seq<ThreadTable.Request>

    ghost predicate Valid()
      reads this
    {
      && ValidConfig(cfg)
      && |threads| == Rows(cfg)
      && transCount < CounterValues(cfg.accept)
      && ThreadTable.InRange(threads, CounterValues(cfg.accept))
    }

    ghost predicate Tracking()
      reads this
    {
      Tracked(cfg, threads, transCount, flight)
    }

    /** The step told by the requests in flight: if the counters stood for them and a
        completion names one of them, then the counters stand for what is in flight
        now, and a request started exactly when it was allowed to. */
    ghost predicate Stepped(tracking: bool, before: seq<ThreadTable.Request>, s: Stage, i: Inputs,
                            hit: Option<(nat, nat)>, started: bool)
      reads this
    {
      tracking && (i.cplValid ==> i.cplId in ThreadTable.Ids(before)) ==>
        && Tracking()
        && flight == ThreadTable.NextFlight(before, started, Request(i, hit), i.cplValid, i.cplId)
        && (started <==> Starts(cfg, Rows(cfg), before, s, i, hit))
    }

    function Control(): Stage
      reads this
    {
      Stage(decode, aready, region, select, avalid, decerr, wcValid, rcValid)
    }

    constructor (cfg: Config)
      requires ValidConfig(cfg)
      ensures Valid() && Tracking() && this.cfg == cfg && flight == []
      ensures Control() == Stage(false, false, 0, 0, false, false, false, false)
      ensures threads == seq(Rows(cfg), _ => ThreadTable.Thread(0, 0, 0, 0)) && transCount == 0
    {
      this.cfg := cfg;
      decode, aready, region, select := false, false, 0, 0;
      avalid, decerr, wcValid, rcValid := false, false, false, false;
      transCount := 0;
      threads := seq(Rows(cfg), _ => ThreadTable.Thread(0, 0, 0, 0));
      flight := [];
    }

    /** What this clock decides: the decoded slot and whether a request starts. */
    method Decide(i: Inputs) returns (hit: Option<(nat, nat)>, started: bool)
      requires Valid()
      ensures AddressMap.LastHit(cfg.amap, i.nonsecure, i.aaddr, |cfg.amap.secure|, 0, hit)
      ensures Decides(cfg, Control(), threads, transCount, i, hit, started)
    {
      hide ThreadTable.Admits, AddressMap.LastHit, Request, Looks;
      hit := AddressMap.Decode(cfg.amap, i.nonsecure, i.aaddr);
      var limit := transCount >= cfg.accept && !i.cplValid;
      var admits := Admission(threads, Request(i, hit), cfg.amap.regions);
      started := Looks(Control(), i) && hit.Some? && !limit && admits;
    }

    method LoadControl(next: Stage)
      modifies this`decode, this`aready, this`region, this`select, this`avalid, this`decerr, this`wcValid, this`rcValid
      ensures Control() == next
    {
      decode, aready, region, select := next.decode, next.aready, next.region, next.select;
      avalid, decerr, wcValid, rcValid := next.avalid, next.decerr, next.wcValid, next.rcValid;
    }

    method Clock(i: Inputs) returns (hit: Option<(nat, nat)>, started: bool)
      requires Valid()
      modifies this
      ensures Valid()
      ensures AddressMap.LastHit(cfg.amap, i.nonsecure, i.aaddr, |cfg.amap.secure|, 0, hit)
      ensures Control() == NextStage(cfg.wcOutput, old(Control()), i, hit, started)
      ensures started ==> Looks(old(Control()), i) && hit.Some?
      ensures Decides(cfg, old(Control()), old(threads), old(transCount), i, hit, started)
      ensures threads == ThreadTable.NextRows(old(threads), started, Request(i, hit), i.cplValid, i.cplId,
                                              CounterValues(cfg.accept))
      ensures transCount == Counted(old(transCount), started, i.cplValid, CounterValues(cfg.accept))
      ensures Stepped(old(Tracking()), old(flight), old(Control()), i, hit, started)
      ensures started ==> avalid && (select, region) == hit.value
                          && flight != [] && flight[|flight| - 1] == ThreadTable.Request(i.aid, select, region)
    {
      hide ThreadTable.Admits, ThreadTable.NextFlight, ThreadTable.NextRows, Counted, ThreadTable.Ids;
      hide NextStage, Tracked, AddressMap.LastHit, CounterValues, ThreadTable.InRange, Request, Looks, Starts;
      hit, started := Decide(i);
      assert started ==> Looks(Control(), i) && hit.Some?;
      hide Decides;
      if Tracking() && (i.cplValid ==> i.cplId in ThreadTable.Ids(flight)) {
        KeepsTracking(cfg, Control(), threads, transCount, flight, i, hit, started);
      }
      var r, values := Request(i, hit), CounterValues(cfg.accept);
      RequestIsHandedOff(cfg.wcOutput, Control(), i, hit, started);
      StartedIsLast(flight, r, i.cplValid, i.cplId);
      flight := ThreadTable.NextFlight(flight, started, r, i.cplValid, i.cplId);
      threads := LoadThreads(threads, started, r, i.cplValid, i.cplId, values);
      transCount := Counted(transCount, started, i.cplValid, values);
      LoadControl(NextStage(cfg.wcOutput, Control(), i, hit, started));
    }
  }

  lemma StartedIsLast(flight: seq<ThreadTable.Request>, r: ThreadTable.Request, complete: bool, id: nat)
    ensures
      var flight' := ThreadTable.NextFlight(flight, true, r, complete, id);
      flight' != [] && flight'[|flight'| - 1] == r
  {
  }

  /** The request that the stage would admit: its ID and where it goes. */
  function Request(i: Inputs, hit: Option<(nat, nat)>): ThreadTable.Request {
    match hit
    case Some((select, region)) => ThreadTable.Request(i.aid, select, region)
    case None => ThreadTable.Request(i.aid, 0, 0)
  }
}
