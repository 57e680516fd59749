/** What an address that does not decode does to the ordering rule: its reply is counted
    for a request in flight with the same ID, and the next address with that ID may then
    go to another master interface while the first is still under way. */
module SameIdOrder {
  import opened Common
  import opened CrossbarAddr
  import opened AddressIntake
  import AddressMap
  import ThreadTable

  /** An access that the crossbar may be asked for, and what it decodes to. */
  datatype Access = Access(nonsecure: bool, addr: nat, hit: Option<(nat, nat)>)

  predicate Decoded(cfg: Config, space: nat, a: Access)
    requires ValidConfig(cfg)
  {
    a.addr < space && AddressMap.LastHit(cfg.amap, a.nonsecure, a.addr, |cfg.amap.secure|, 0, a.hit)
  }

  /** Addresses with one ID that are on their way together go to one place, in all runs. */
  ghost predicate OrderKept(cfg: Config, space: nat) {
    forall run: Run, n: nat, a: Sent, b: Sent ::
      IsRun(cfg, space, run) && n < |run.states| && a in Unanswered(run, n) && b in Unanswered(run, n) && a.id == b.id
      ==> a.select == b.select && a.region == b.region
  }

  /** All addresses that decode go to one master interface and region. */
  ghost predicate OnePlace(cfg: Config, space: nat)
    requires ValidConfig(cfg)
  {
    forall a: Access, b: Access ::
      Decoded(cfg, space, a) && Decoded(cfg, space, b) && a.hit.Some? && b.hit.Some? ==> a.hit == b.hit
  }

  // The run: x goes out, e does not decode and is answered, y goes out

  function Idle(cfg: Config): (rows: seq<ThreadTable.Thread>)
    requires ValidConfig(cfg)
    ensures |rows| > 0
  {
    seq(Rows(cfg), _ => ThreadTable.Thread(0, 0, 0, 0))
  }

  function WithRow(cfg: Config, hit: (nat, nat), count: nat): (rows: seq<ThreadTable.Thread>)
    requires ValidConfig(cfg)
    ensures |rows| == Rows(cfg)
  {
    Idle(cfg)[0 := ThreadTable.Thread(0, hit.0, hit.1, count)]
  }

  function Flight(hit: (nat, nat)): ThreadTable.Request {
    ThreadTable.Request(0, hit.0, hit.1)
  }

  predicate Breaks(cfg: Config, space: nat, x: Access, e: Access, y: Access) {
    && ValidConfig(cfg) && Decoded(cfg, space, x) && Decoded(cfg, space, e) && Decoded(cfg, space, y)
    && x.hit.Some? && e.hit.None? && y.hit.Some? && x.hit != y.hit
  }

  function StateAt(cfg: Config, x: (nat, nat), y: (nat, nat), k: nat): State
    requires ValidConfig(cfg)
  {
    var wc := cfg.wcOutput;
    if k == 0 then Reset(cfg)
    else if k == 1 then
      State(Stage(true, false, x.1, x.0, true, false, wc, false), WithRow(cfg, x, 1), 1, NoReply, [Flight(x)])
    else if k == 2 then
      State(Stage(false, true, x.1, x.0, false, false, false, false), WithRow(cfg, x, 1), 1, NoReply, [Flight(x)])
    else if k == 3 then
      State(Stage(false, false, x.1, x.0, false, false, false, false), WithRow(cfg, x, 1), 1, NoReply, [Flight(x)])
    else if k == 4 then
      State(Stage(true, false, x.1, x.0, false, true, wc, true), WithRow(cfg, x, 1), 1, NoReply, [Flight(x)])
    else if k == 5 then
      State(Stage(false, true, x.1, x.0, false, true, false, false), WithRow(cfg, x, 1), 1, Replying(0, 0), [Flight(x)])
    else if k == 6 then
      State(Stage(false, false, x.1, x.0, false, true, false, false), WithRow(cfg, x, 0), 0, NoReply, [Flight(x)])
    else
      State(Stage(true, false, y.1, y.0, true, false, wc, false), WithRow(cfg, y, 1), 1, NoReply,
            [Flight(x), Flight(y)])
  }

  function EdgeAt(x: Access, e: Access, y: Access, k: nat): Edge {
    var a := if k <= 2 then x else if k <= 5 then e else y;
    Edge(Offer(true, 0, a.addr, 0, a.nonsecure, true, true, if k == 5 then ReplyBeat else Nothing), a.hit,
         k == 0 || k == 6)
  }

  function BreakingRun(cfg: Config, x: Access, e: Access, y: Access): Run
    requires ValidConfig(cfg) && x.hit.Some? && y.hit.Some?
  {
    Run(seq(8, k requires 0 <= k < 8 => StateAt(cfg, x.hit.value, y.hit.value, k)),
        seq(7, k requires 0 <= k < 7 => EdgeAt(x, e, y, k)))
  }

  /** With no request counted, an address is admitted and takes row 0. */
  lemma StartsInRow(cfg: Config, rows: seq<ThreadTable.Thread>, hit: (nat, nat))
    requires ValidConfig(cfg) && |rows| == Rows(cfg) && forall k :: 0 <= k < |rows| ==> rows[k].count == 0
    requires forall k :: 0 < k < |rows| ==> rows[k] == ThreadTable.Thread(0, 0, 0, 0)
    ensures ThreadTable.InRange(rows, CounterValues(cfg.accept))
    ensures ThreadTable.Admits(rows, Flight(hit), cfg.amap.regions)
    ensures ThreadTable.NextRows(rows, true, Flight(hit), false, 0, CounterValues(cfg.accept)) == WithRow(cfg, hit, 1)
  {
    hide ThreadTable.StartBits, CounterValues;
    assert CounterValues(cfg.accept) > 1;
    ThreadTable.FreeStarts(rows, 0, 0);
    assert !ThreadTable.Active(rows[0]);
    var rows' := ThreadTable.NextRows(rows, true, Flight(hit), false, 0, CounterValues(cfg.accept));
    forall k | 0 <= k < |rows|
      ensures rows'[k] == WithRow(cfg, hit, 1)[k]
    {
    }
  }

  /** Without a start row 0 counts down exactly when something with its ID completes. */
  lemma RowCounts(cfg: Config, hit: (nat, nat), r: ThreadTable.Request, count: nat, complete: bool)
    requires ValidConfig(cfg) && count <= 1 && (complete ==> count == 1)
    ensures ThreadTable.InRange(WithRow(cfg, hit, count), CounterValues(cfg.accept))
    ensures ThreadTable.NextRows(WithRow(cfg, hit, count), false, r, complete, 0, CounterValues(cfg.accept))
            == WithRow(cfg, hit, if complete then 0 else count)
  {
    hide ThreadTable.StartBits, CounterValues;
    assert CounterValues(cfg.accept) > 1;
    var rows' := ThreadTable.NextRows(WithRow(cfg, hit, count), false, r, complete, 0, CounterValues(cfg.accept));
    forall k | 0 <= k < |rows'|
      ensures rows'[k] == WithRow(cfg, hit, if complete then 0 else count)[k]
    {
    }
  }

  lemma StartSteps(cfg: Config, space: nat, x: Access, e: Access, y: Access, k: nat)
    requires Breaks(cfg, space, x, e, y) && (k == 0 || k == 6)
    ensures StepAt(cfg, space, BreakingRun(cfg, x, e, y), k)
  {
    var s, i := StateAt(cfg, x.hit.value, y.hit.value, k), EdgeAt(x, e, y, k).offer;
    StartsInRow(cfg, s.rows, if k == 0 then x.hit.value else y.hit.value);
    hide AddressMap.LastHit, ThreadTable.NextRows, ThreadTable.InRange, ThreadTable.Admits, CounterValues, Idle;
    assert CounterValues(cfg.accept) > 1;
    assert [Flight(x.hit.value)] + [Flight(y.hit.value)] == [Flight(x.hit.value), Flight(y.hit.value)];
  }

  lemma OtherSteps(cfg: Config, space: nat, x: Access, e: Access, y: Access, k: nat)
    requires Breaks(cfg, space, x, e, y) && 0 < k < 6
    ensures StepAt(cfg, space, BreakingRun(cfg, x, e, y), k)
  {
    var s, i := StateAt(cfg, x.hit.value, y.hit.value, k), EdgeAt(x, e, y, k);
    RowCounts(cfg, x.hit.value, Request(ToStage(s, i.offer), i.hit), 1, k == 5);
    hide AddressMap.LastHit, ThreadTable.NextRows, ThreadTable.InRange, ThreadTable.Admits, CounterValues, WithRow;
    assert CounterValues(cfg.accept) > 1;
    assert [Flight(x.hit.value)] + [] == [Flight(x.hit.value)];
  }

  /** Address x is still on its way to its place when y, with the same ID, is sent to another. */
  lemma ReplyBreaksOrder(cfg: Config, space: nat, x: Access, e: Access, y: Access) returns (run: Run)
    requires Breaks(cfg, space, x, e, y)
    ensures IsRun(cfg, space, run) && |run.states| == 8
    ensures Unanswered(run, 7) == [Sent(0, x.hit.value.0, x.hit.value.1), Sent(0, y.hit.value.0, y.hit.value.1)]
  {
    run := BreakingRun(cfg, x, e, y);
    forall k | 0 <= k < 7
      ensures StepAt(cfg, space, run, k)
    {
      if k == 0 || k == 6 {
        StartSteps(cfg, space, x, e, y, k);
      } else {
        OtherSteps(cfg, space, x, e, y, k);
      }
    }
    hide StepAt;
    UnansweredInRun(cfg, x, e, y);
  }

  lemma UnansweredInRun(cfg: Config, x: Access, e: Access, y: Access)
    requires ValidConfig(cfg) && x.hit.Some? && y.hit.Some?
    ensures Unanswered(BreakingRun(cfg, x, e, y), 7)
            == [Sent(0, x.hit.value.0, x.hit.value.1), Sent(0, y.hit.value.0, y.hit.value.1)]
  {
    var run := BreakingRun(cfg, x, e, y);
    var first := [Sent(0, x.hit.value.0, x.hit.value.1)];
    hide WithRow, Idle;
    assert Unanswered(run, 1) == first;
    forall n: nat | 1 <= n <= 6
      ensures Unanswered(run, n) == first
    {
      StillUnanswered(cfg, x, e, y, n);
    }
  }

  lemma {:induction false} StillUnanswered(cfg: Config, x: Access, e: Access, y: Access, n: nat)
    requires ValidConfig(cfg) && x.hit.Some? && y.hit.Some? && 1 <= n <= 6
    ensures Unanswered(BreakingRun(cfg, x, e, y), n) == [Sent(0, x.hit.value.0, x.hit.value.1)]
  {
    hide WithRow, Idle;
    if n > 1 {
      StillUnanswered(cfg, x, e, y, n - 1);
    } else {
      assert Unanswered(BreakingRun(cfg, x, e, y), 0) == [];
    }
  }

  // The exact condition

  /** Whatever is on its way was decoded by the map. */
  lemma {:induction false} SentWasDecoded(cfg: Config, space: nat, run: Run, n: nat, a: Sent) returns (access: Access)
    requires ValidConfig(cfg) && IsRun(cfg, space, run) && n < |run.states| && a in Unanswered(run, n)
    ensures Decoded(cfg, space, access) && access.hit == Some((a.select, a.region))
  {
    var k := run.clocks[n - 1];
    assert StepAt(cfg, space, run, n - 1);
    var before := Unanswered(run, n - 1);
    if k.offer.done.Response? && a in Answered(before, k.offer.done.id) {
      AnsweredWasThere(before, k.offer.done.id, a);
    }
    if a in before {
      access := SentWasDecoded(cfg, space, run, n - 1, a);
    } else {
      access := Access(k.offer.nonsecure, k.offer.aaddr, k.hit);
      var s := run.states[n - 1];
      hide AddressMap.LastHit, ThreadTable.NextRows, ThreadTable.NextFlight, ThreadTable.Admits, NextStage, Request;
      RequestIsHandedOff(cfg.wcOutput, s.stage, ToStage(s, k.offer), k.hit, k.started);
    }
  }

  lemma {:induction false} AnsweredWasThere(sent: seq<Sent>, id: nat, a: Sent)
    requires a in Answered(sent, id)
    ensures a in sent
  {
    if sent[0].id != id && a != sent[0] {
      AnsweredWasThere(sent[1..], id, a);
    }
  }

  /** Main result: the same-ID rule holds in all runs if and only if every address decodes,
      or all that decode go to one place, where there is nothing to confuse. */
  lemma OrderKeptExactly(cfg: Config, space: nat)
    requires ValidConfig(cfg)
    ensures OrderKept(cfg, space) <==> EveryAddressDecodes(cfg, space) || OnePlace(cfg, space)
  {
    hide Undecodable, Decoded, Unanswered, StepAt;
    if EveryAddressDecodes(cfg, space) || OnePlace(cfg, space) {
      forall run: Run, n: nat, a: Sent, b: Sent |
        IsRun(cfg, space, run) && n < |run.states| && a in Unanswered(run, n) && b in Unanswered(run, n) && a.id == b.id
        ensures a.select == b.select && a.region == b.region
      {
        if OnePlace(cfg, space) {
          var x := SentWasDecoded(cfg, space, run, n, a);
          var y := SentWasDecoded(cfg, space, run, n, b);
        } else {
          AllDecode(cfg, space, run, n);
          DecodingRunKeepsOrder(cfg, space, run, n, a, b);
        }
      }
    } else {
      var nonsecure: bool, addr: nat :| addr < space && Undecodable(cfg, nonsecure, addr);
      var x: Access, y: Access :| Decoded(cfg, space, x) && Decoded(cfg, space, y) && x.hit.Some? && y.hit.Some?
                                  && x.hit != y.hit;
      var e := Access(nonsecure, addr, None);
      NotDecoded(cfg, space, e);
      var run := ReplyBreaksOrder(cfg, space, x, e, y);
      assert Unanswered(run, 7)[0] in Unanswered(run, 7) && Unanswered(run, 7)[1] in Unanswered(run, 7);
    }
  }

  lemma NotDecoded(cfg: Config, space: nat, e: Access)
    requires ValidConfig(cfg) && e.addr < space && Undecodable(cfg, e.nonsecure, e.addr) && e.hit.None?
    ensures Decoded(cfg, space, e)
  {
  }

  lemma AllDecode(cfg: Config, space: nat, run: Run, n: nat)
    requires ValidConfig(cfg) && IsRun(cfg, space, run) && n < |run.states| && EveryAddressDecodes(cfg, space)
    ensures forall k :: 0 <= k < n ==> Decodes(run.states[k], run.clocks[k])
  {
    hide Undecodable, Next;
    forall k | 0 <= k < n
      ensures Decodes(run.states[k], run.clocks[k])
    {
      assert StepAt(cfg, space, run, k);
      HitUnlessUndecodable(cfg, run.states[k], run.clocks[k], run.states[k + 1]);
    }
  }
}
