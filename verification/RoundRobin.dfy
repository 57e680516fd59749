/** The arbiter of the crossbar: registered grant, a mask register that rotates
    the priority, and optional blocking until release or acknowledge. */
module RoundRobin {
  import opened Common
  import PriorityEncoder

  datatype Blocking = NoBlock | BlockRequest | BlockAcknowledge

  datatype Config = Config(ports: nat, blocking: Blocking, lsbHigh: bool)

  /** The arbiter seen from outside: who holds the grant, and after which port
      the scan for the next one starts. */
  datatype State = State(holder: Option<nat>, last: nat)

  predicate InRange(cfg: Config, s: State) {
    s.last < cfg.ports && (s.holder.Some? ==> s.holder.value < cfg.ports)
  }

  /** Position of a port in one scan: upwards if the lowest bit has priority. */
  function Position(cfg: Config, port: nat): nat
    requires port < cfg.ports
  {
    if cfg.lsbHigh then port else cfg.ports - 1 - port
  }

  /** How many ports the scan passes before it reaches `port`; `last` comes last. */
  function Distance(cfg: Config, last: nat, port: nat): (d: nat)
    requires last < cfg.ports && port < cfg.ports
    ensures d < cfg.ports
  {
    var l, p := Position(cfg, last), Position(cfg, port);
    if p > l then p - l - 1 else p + cfg.ports - l - 1
  }

  predicate Nearest(cfg: Config, last: nat, request: seq<bool>, port: nat)
    requires |request| == cfg.ports && last < cfg.ports
  {
    && port < cfg.ports && request[port]
    && forall k :: 0 <= k < cfg.ports && request[k] ==> Distance(cfg, last, port) <= Distance(cfg, last, k)
  }

  predicate Holds(cfg: Config, s: State, request: seq<bool>, acknowledge: seq<bool>)
    requires InRange(cfg, s) && |request| == |acknowledge| == cfg.ports
  {
    && s.holder.Some?
    && match cfg.blocking
       case NoBlock => false
       case BlockRequest => request[s.holder.value]
       case BlockAcknowledge => !acknowledge[s.holder.value]
  }

  /** A clock in which the arbiter chooses a new holder. */
  predicate Decides(cfg: Config, s: State, request: seq<bool>, acknowledge: seq<bool>)
    requires InRange(cfg, s) && |request| == |acknowledge| == cfg.ports
  {
    !Holds(cfg, s, request, acknowledge) && true in request
  }

  /** One clock of the round-robin arbiter, as a relation. */
  predicate Next(cfg: Config, s: State, request: seq<bool>, acknowledge: seq<bool>, s': State)
    requires InRange(cfg, s) && |request| == |acknowledge| == cfg.ports
  {
    if Holds(cfg, s, request, acknowledge) then
      s' == s
    else if true !in request then
      s' == State(None, s.last)
    else
      s'.holder == Some(s'.last) && Nearest(cfg, s.last, request, s'.last)
  }

  lemma DistancesDiffer(cfg: Config, last: nat, a: nat, b: nat)
    requires last < cfg.ports && a < cfg.ports && b < cfg.ports
    ensures Distance(cfg, last, a) == Distance(cfg, last, b) ==> a == b
  {
  }

  /** The relation leaves no choice: a clock has exactly one outcome. */
  lemma NextIsUnique(cfg: Config, s: State, request: seq<bool>, acknowledge: seq<bool>, a: State, b: State)
    requires InRange(cfg, s) && |request| == |acknowledge| == cfg.ports
    requires Next(cfg, s, request, acknowledge, a) && Next(cfg, s, request, acknowledge, b)
    ensures a == b
  {
    if Decides(cfg, s, request, acknowledge) {
      DistancesDiffer(cfg, s.last, a.last, b.last);
    }
  }

  /** When a grant stays: in the one blocking mode as long as it is requested, in the
      other until it is acknowledged, and without blocking never. Otherwise the grant
      goes to the next port in turn that requests, or to none if there is none. */
  lemma NextInTurn(cfg: Config, s: State, request: seq<bool>, acknowledge: seq<bool>, s': State)
    requires InRange(cfg, s) && |request| == |acknowledge| == cfg.ports
    requires Next(cfg, s, request, acknowledge, s')
    ensures
      var stays := && s.holder.Some?
                   && ((cfg.blocking == BlockRequest && request[s.holder.value])
                       || (cfg.blocking == BlockAcknowledge && !acknowledge[s.holder.value]));
      if stays then s' == s
      else if s'.holder.None? then s'.last == s.last && forall k :: 0 <= k < cfg.ports ==> !request[k]
      else
        var p := s'.last;
        && s'.holder == Some(p) && p < cfg.ports && request[p]
        && (cfg.lsbHigh ==>
              (p > s.last && forall k :: s.last < k < p ==> !request[k])
              || (p <= s.last && forall k :: s.last < k < cfg.ports || 0 <= k < p ==> !request[k]))
        && (!cfg.lsbHigh ==>
              (p < s.last && forall k :: p < k < s.last ==> !request[k])
              || (p >= s.last && forall k :: 0 <= k < s.last || p < k < cfg.ports ==> !request[k]))
  {
  }

  /** A decision for another port brings a requesting port strictly closer. */
  lemma DecisionBringsCloser(cfg: Config, s: State, request: seq<bool>, acknowledge: seq<bool>, s': State, p: nat)
    requires InRange(cfg, s) && |request| == |acknowledge| == cfg.ports
    requires p < cfg.ports && request[p]
    requires Decides(cfg, s, request, acknowledge) && Next(cfg, s, request, acknowledge, s')
    ensures InRange(cfg, s')
    ensures s'.last == p || Distance(cfg, s'.last, p) < Distance(cfg, s.last, p)
  {
    DistancesDiffer(cfg, s.last, s'.last, p);
  }

  datatype Inputs = Inputs(request: seq<bool>, acknowledge: seq<bool>)

  /** A run: each state follows from the one before under the inputs of that clock. */
  predicate IsRun(cfg: Config, states: seq<State>, inputs: seq<Inputs>) {
    && |states| == |inputs| + 1
    && (forall k :: 0 <= k < |states| ==> InRange(cfg, states[k]))
    && (forall k :: 0 <= k < |inputs| ==> |inputs[k].request| == |inputs[k].acknowledge| == cfg.ports)
    && (forall k :: 0 <= k < |inputs| ==> Follows(cfg, states, inputs, k))
  }

  predicate Follows(cfg: Config, states: seq<State>, inputs: seq<Inputs>, k: nat)
    requires k < |inputs| && k + 1 < |states| && InRange(cfg, states[k])
    requires |inputs[k].request| == |inputs[k].acknowledge| == cfg.ports
  {
    Next(cfg, states[k], inputs[k].request, inputs[k].acknowledge, states[k + 1])
  }

  predicate DecidesAt(cfg: Config, states: seq<State>, inputs: seq<Inputs>, k: nat)
    requires IsRun(cfg, states, inputs) && k < |inputs|
  {
    Decides(cfg, states[k], inputs[k].request, inputs[k].acknowledge)
  }

  /** The number of decisions in the first n clocks of a run. */
  function Decisions(cfg: Config, states: seq<State>, inputs: seq<Inputs>, n: nat): nat
    requires IsRun(cfg, states, inputs) && n <= |inputs|
  {
    if n == 0 then 0
    else Decisions(cfg, states, inputs, n - 1) + (if DecidesAt(cfg, states, inputs, n - 1) then 1 else 0)
  }

  /** In no clock of the run does a decision choose port p. */
  predicate PassedOver(cfg: Config, states: seq<State>, inputs: seq<Inputs>, p: nat)
    requires IsRun(cfg, states, inputs)
  {
    forall k :: 0 <= k < |inputs| && DecidesAt(cfg, states, inputs, k) ==> states[k + 1].holder != Some(p)
  }

  /** While a requesting port is passed over, every decision uses up distance. */
  lemma {:induction false} WaitUsesDistance(cfg: Config, states: seq<State>, inputs: seq<Inputs>, n: nat, p: nat)
    requires IsRun(cfg, states, inputs) && n <= |inputs| && p < cfg.ports
    requires forall k :: 0 <= k < |inputs| ==> inputs[k].request[p]
    requires PassedOver(cfg, states, inputs, p)
    ensures Decisions(cfg, states, inputs, n) + Distance(cfg, states[n].last, p)
            <= Distance(cfg, states[0].last, p)
  {
    if n > 0 {
      WaitUsesDistance(cfg, states, inputs, n - 1, p);
      assert Follows(cfg, states, inputs, n - 1);
      var i := inputs[n - 1];
      if DecidesAt(cfg, states, inputs, n - 1) {
        DecisionBringsCloser(cfg, states[n - 1], i.request, i.acknowledge, states[n], p);
      }
    }
  }

  /** Bounded bypass: in both scan directions and under every blocking mode, a
      port that keeps requesting is passed over in at most PORTS-1 decisions. */
  lemma BoundedBypass(cfg: Config, states: seq<State>, inputs: seq<Inputs>, p: nat)
    requires IsRun(cfg, states, inputs) && p < cfg.ports
    requires forall k :: 0 <= k < |inputs| ==> inputs[k].request[p]
    requires PassedOver(cfg, states, inputs, p)
    ensures Decisions(cfg, states, inputs, |inputs|) <= cfg.ports - 1
  {
    WaitUsesDistance(cfg, states, inputs, |inputs|, p);
  }

  /** The leader among the requests beyond the mask, or else among all, is the
      request nearest in scan order. */
  lemma LeaderIsNearest(cfg: Config, last: nat, request: seq<bool>, masked: seq<bool>, w: nat)
    requires last < cfg.ports && |request| == |masked| == cfg.ports
    requires forall k :: 0 <= k < cfg.ports ==>
               masked[k] == (request[k] && Position(cfg, k) > Position(cfg, last))
    requires if true in masked then PriorityEncoder.Leads(cfg.lsbHigh, masked, 0, cfg.ports, w)
             else PriorityEncoder.Leads(cfg.lsbHigh, request, 0, cfg.ports, w)
    ensures Nearest(cfg, last, request, w)
  {
    if true in masked {
      assert request[w];
    }
  }

  class Arbiter {
    const cfg: Config
    var grant: seq<bool>
    var grantValid: bool
    var grantEncoded: nat
    var mask: seq<bool>
    // The port chosen last; after reset the scan starts over.
    ghost var last: nat

    ghost predicate Valid()
      reads this
    {
      && last < cfg.ports
      && |grant| == |mask| == cfg.ports
      && (grantValid ==> grantEncoded < cfg.ports)
      && (forall k :: 0 <= k < cfg.ports ==> grant[k] == (grantValid && k == grantEncoded))
      && (forall k :: 0 <= k < cfg.ports ==> mask[k] == (Position(cfg, k) > Position(cfg, last)))
    }

    ghost function Abs(): State
      reads this
    {
      State(if grantValid then Some(grantEncoded) else None, last)
    }

    constructor (cfg: Config)
      requires cfg.ports > 0
      ensures Valid() && this.cfg == cfg && Abs() == State(None, Position(cfg, cfg.ports - 1))
    {
      this.cfg := cfg;
      grant, mask := seq(cfg.ports, _ => false), seq(cfg.ports, _ => false);
      grantValid, grantEncoded := false, 0;
      last := Position(cfg, cfg.ports - 1);
    }

    /** The port the two encoders select: beyond the mask first, else anywhere. */
    method Choose(request: seq<bool>) returns (valid: bool, index: nat)
      requires Valid() && |request| == cfg.ports
      ensures valid <==> true in request
      ensures valid ==> index < cfg.ports && Nearest(cfg, last, request, index)
    {
      hide PriorityEncoder.Encode;
      var masked := And(request, mask);
      var all := PriorityEncoder.Encode(cfg.lsbHigh, request);
      var beyond := PriorityEncoder.Encode(cfg.lsbHigh, masked);
      PriorityEncoder.EncoderFindsLeader(cfg.lsbHigh, request);
      PriorityEncoder.EncoderFindsLeader(cfg.lsbHigh, masked);
      valid := all.valid;
      index := if beyond.valid then beyond.index else all.index;
      if valid {
        LeaderIsNearest(cfg, last, request, masked, index);
      }
    }

    predicate Blocked(request: seq<bool>, acknowledge: seq<bool>)
      requires Valid() && |request| == |acknowledge| == cfg.ports
      reads this
      ensures Blocked(request, acknowledge) == Holds(cfg, Abs(), request, acknowledge)
    {
      assert forall k :: 0 <= k < cfg.ports && grant[k] ==> And(grant, request)[k] == request[k];
      assert forall k :: 0 <= k < cfg.ports && grant[k] ==> And(grant, acknowledge)[k] == acknowledge[k];
      assert grantValid ==> grant[grantEncoded];
      || (cfg.blocking == BlockRequest && true in And(grant, request))
      || (cfg.blocking == BlockAcknowledge && grantValid && true !in And(grant, acknowledge))
    }

    method Clock(request: seq<bool>, acknowledge: seq<bool>)
      requires Valid() && |request| == |acknowledge| == cfg.ports
      modifies this
      ensures Valid()
      ensures Next(cfg, old(Abs()), request, acknowledge, Abs())
    {
      hide Nearest;
      var valid, index := Choose(request);
      if Blocked(request, acknowledge) {
        // granted port still requesting, or not yet acknowledged; hold it
      } else if valid {
        grantValid, grantEncoded := true, index;
        grant := seq(cfg.ports, k => k == index);
        mask := if cfg.lsbHigh then seq(cfg.ports, k => k > index) else seq(cfg.ports, k => k < index);
        last := index;
      } else {
        grantValid, grantEncoded, grant := false, 0, seq(cfg.ports, _ => false);
      }
    }
  }

  function And(a: seq<bool>, b: seq<bool>): (r: seq<bool>)
    requires |a| == |b|
    ensures |r| == |a|
    ensures forall k :: 0 <= k < |r| ==> r[k] == (a[k] && b[k])
  {
    seq(|a|, k requires 0 <= k < |a| => a[k] && b[k])
  }
}
