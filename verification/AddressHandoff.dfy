/** The life of an address in the address stage, on the read and on the write side: it
    is looked at once, each of its hand-offs is taken once, then it is accepted once;
    and an address that does not decode is answered once, with all its beats. */
module AddressHandoff {
  import opened Common
  import opened CrossbarAddr
  import opened AddressIntake
  import AddressMap
  import ThreadTable

  /** The stage is busy exactly while something is left to hand off. */
  predicate Tidy(wcOutput: bool, s: Stage) {
    && (s.decode <==> s.avalid || s.wcValid || s.rcValid)
    && (s.wcValid ==> wcOutput)
    && (s.aready ==> !s.decode)
    && (s.avalid ==> !s.decerr && !s.rcValid) && (s.rcValid ==> s.decerr)
  }

  /** The address looked at does not decode. */
  predicate Errs(s: Stage, i: Inputs, hit: Option<(nat, nat)>) {
    !s.decode && !s.aready && i.avalid && hit.None?
  }

  /** An offer stays with its place until it is taken; the address is accepted in the
      clock after its last hand-off was taken. */
  lemma StageMoves(wcOutput: bool, s: Stage, i: Inputs, hit: Option<(nat, nat)>, started: bool)
    requires Tidy(wcOutput, s)
    requires started ==> !s.decode && !s.aready && i.avalid && hit.Some?
    ensures
      var s' := NextStage(wcOutput, s, i, hit, started);
      && Tidy(wcOutput, s')
      && (s'.avalid <==> started || (s.avalid && !i.mready))
      && (s'.wcValid <==> (wcOutput && (started || Errs(s, i, hit))) || (s.wcValid && !i.wcReady))
      && (s'.rcValid <==> Errs(s, i, hit) || (s.rcValid && !i.rcReady))
      && (s'.aready <==> s.decode && !s'.decode)
      && (started ==> (s'.select, s'.region) == hit.value && !s'.decerr)
      && (Errs(s, i, hit) ==> s'.decerr)
      && (s.decode ==> s'.select == s.select && s'.region == s.region && s'.decerr == s.decerr)
  {
  }

  // Counting over runs

  function One(b: bool): nat {
    if b then 1 else 0
  }

  /** How often what happened in the first n clocks. */
  datatype Counts = Counts(starts: nat, errors: nat, taken: nat, commands: nat, rejects: nat, accepted: nat,
                           ends: nat, beats: nat, owed: nat,
                           responses: nat, completions: nat)

  function NextCounts(wcOutput: bool, c: Counts, s: State, k: Edge): Counts {
    var i := ToStage(s, k.offer);
    var load := s.stage.rcValid && s.reply.NoReply?;
    Counts(c.starts + One(k.started), c.errors + One(Errs(s.stage, i, k.hit)),
           c.taken + One(s.stage.avalid && k.offer.mready),
           c.commands + One(s.stage.wcValid && k.offer.wcReady),
           c.rejects + One(load),
           c.accepted + One(s.stage.aready),
           c.ends + One(s.reply.Replying? && s.reply.left == 0 && k.offer.done.ReplyBeat?),
           c.beats + One(k.offer.done.ReplyBeat?),
           c.owed + (if !load then 0 else if wcOutput then 1 else k.offer.alen + 1),
           c.responses + One(k.offer.done.Response?), c.completions + One(i.cplValid))
  }

  function Count(cfg: Config, run: Run, n: nat): Counts
    requires |run.states| == |run.clocks| + 1 && n < |run.states|
  {
    if n == 0 then Counts(0, 0, 0, 0, 0, 0, 0, 0, 0, 0, 0)
    else NextCounts(cfg.wcOutput, Count(cfg, run, n - 1), run.states[n - 1], run.clocks[n - 1])
  }

  function LeftOver(r: Reply): nat {
    match r
    case NoReply => 0
    case Replying(_, left) => left + 1
  }

  /** Everything that came in has been handed off or is about to be. */
  predicate Balanced(wcOutput: bool, s: State, c: Counts) {
    && c.starts == c.taken + One(s.stage.avalid)
    && c.errors == c.rejects + One(s.stage.rcValid)
    && (if wcOutput then c.starts + c.errors else 0) == c.commands + One(s.stage.wcValid)
    && c.starts + c.errors == c.accepted + One(s.stage.decode || s.stage.aready)
    && c.rejects == c.ends + One(s.reply.Replying?)
    && c.owed == c.beats + LeftOver(s.reply)
    && c.completions == c.responses + c.ends
  }

  lemma BalanceKept(cfg: Config, space: nat, s: State, k: Edge, s': State, c: Counts)
    requires Shaped(cfg, s) && OfferFits(space, s, k.offer) && Next(cfg, s, k, s')
    requires Tidy(cfg.wcOutput, s.stage) && Balanced(cfg.wcOutput, s, c)
    ensures Tidy(cfg.wcOutput, s'.stage) && Balanced(cfg.wcOutput, s', NextCounts(cfg.wcOutput, c, s, k))
  {
    hide AddressMap.LastHit, ThreadTable.NextRows, ThreadTable.NextFlight, ThreadTable.Admits, Counted, CounterValues;
    StageMoves(cfg.wcOutput, s.stage, ToStage(s, k.offer), k.hit, k.started);
    hide NextStage, Tidy;
    assert k.started ==> !s.stage.decode && !s.stage.aready;
    BalanceOfStage(cfg, s, k, s', c);
    BalanceOfReply(cfg, s, k, s', c);
  }

  lemma BalanceOfStage(cfg: Config, s: State, k: Edge, s': State, c: Counts)
    requires Tidy(cfg.wcOutput, s.stage) && Tidy(cfg.wcOutput, s'.stage) && Balanced(cfg.wcOutput, s, c)
    requires k.started ==> !s.stage.decode && !s.stage.aready && k.offer.avalid && k.hit.Some?
    requires s'.stage == NextStage(cfg.wcOutput, s.stage, ToStage(s, k.offer), k.hit, k.started)
    ensures
      var c' := NextCounts(cfg.wcOutput, c, s, k);
      && c'.starts == c'.taken + One(s'.stage.avalid)
      && c'.errors == c'.rejects + One(s'.stage.rcValid)
      && (if cfg.wcOutput then c'.starts + c'.errors else 0) == c'.commands + One(s'.stage.wcValid)
      && c'.starts + c'.errors == c'.accepted + One(s'.stage.decode || s'.stage.aready)
  {
    StageMoves(cfg.wcOutput, s.stage, ToStage(s, k.offer), k.hit, k.started);
    hide NextStage;
  }

  lemma BalanceOfReply(cfg: Config, s: State, k: Edge, s': State, c: Counts)
    requires Balanced(cfg.wcOutput, s, c) && (k.offer.done.ReplyBeat? ==> s.reply.Replying?)
    requires s'.reply == NextReply(cfg.wcOutput, s, k.offer)
    ensures
      var c' := NextCounts(cfg.wcOutput, c, s, k);
      && c'.rejects == c'.ends + One(s'.reply.Replying?)
      && c'.owed == c'.beats + LeftOver(s'.reply)
      && c'.completions == c'.responses + c'.ends
  {
  }

  /** In every run, on either side: of the addresses looked at each was handed off once
      if it decoded and reported once if not, gave one write command on the write side
      and none on the read side, and was accepted once, but for the one in the stage; and
      each report was answered by as many beats as asked for, one for a write. What counts
      as completed is each response and each answer as a whole. */
  lemma {:induction false} EachAddressOnce(cfg: Config, space: nat, run: Run, n: nat)
    requires ValidConfig(cfg) && IsRun(cfg, space, run) && n < |run.states|
    ensures Tidy(cfg.wcOutput, run.states[n].stage)
    ensures Balanced(cfg.wcOutput, run.states[n], Count(cfg, run, n))
  {
    if n > 0 {
      hide Next, Shaped, OfferFits, Tidy, Balanced, NextCounts;
      EachAddressOnce(cfg, space, run, n - 1);
      assert StepAt(cfg, space, run, n - 1);
      BalanceKept(cfg, space, run.states[n - 1], run.clocks[n - 1], run.states[n], Count(cfg, run, n - 1));
    }
  }

  // Whose reply it is

  /** An address offered stays as it is until it has been accepted. */
  predicate Holds(run: Run) {
    forall k :: 0 <= k < |run.clocks| - 1 && k < |run.states| && HeldAt(run, k) ==>
      var a, b := run.clocks[k].offer, run.clocks[k + 1].offer;
      b.avalid && b.aid == a.aid && b.alen == a.alen && b.aaddr == a.aaddr && b.nonsecure == a.nonsecure
  }

  predicate HeldAt(run: Run, k: nat)
    requires k < |run.clocks| && k < |run.states|
  {
    run.clocks[k].offer.avalid && !run.states[k].stage.aready
  }

  /** The IDs of the addresses that did not decode, in the order of the looks. */
  function Errors(run: Run, n: nat): seq<nat>
    requires |run.states| == |run.clocks| + 1 && n < |run.states|
  {
    if n == 0 then []
    else
      var s, k := run.states[n - 1], run.clocks[n - 1];
      Errors(run, n - 1) + (if Errs(s.stage, ToStage(s, k.offer), k.hit) then [k.offer.aid] else [])
  }

  /** The address under way is still offered, and reports and replies carry its ID. */
  ghost predicate Answering(cfg: Config, run: Run, n: nat)
    requires |run.states| == |run.clocks| + 1 && n < |run.states|
  {
    var s, ids, c := run.states[n], Errors(run, n), Count(cfg, run, n);
    && |ids| == c.errors
    && (s.stage.decode ==> n > 0 && HeldAt(run, n - 1))
    && (s.stage.rcValid ==> n > 0 && ids != [] && run.clocks[n - 1].offer.aid == ids[|ids| - 1])
    && (s.reply.Replying? ==> 0 < c.rejects <= |ids| && s.reply.id == ids[c.rejects - 1])
  }

  /** Every address that did not decode is answered with its own ID, in order. */
  lemma {:induction false} AnswersInOrder(cfg: Config, space: nat, run: Run, n: nat)
    requires ValidConfig(cfg) && IsRun(cfg, space, run) && Holds(run) && n < |run.states|
    ensures Answering(cfg, run, n)
  {
    if n > 0 {
      hide Holds, Shaped, OfferFits, IsRun, Balanced, Tidy;
      AnswersInOrder(cfg, space, run, n - 1);
      EachAddressOnce(cfg, space, run, n - 1);
      Stepped(cfg, space, run, n - 1);
      if n > 1 {
        StillHeld(run, n - 2);
      }
      AnswerMoves(cfg, run, n);
    }
  }

  lemma Stepped(cfg: Config, space: nat, run: Run, k: nat)
    requires IsRun(cfg, space, run) && k < |run.clocks|
    ensures Shaped(cfg, run.states[k]) && Next(cfg, run.states[k], run.clocks[k], run.states[k + 1])
  {
    assert StepAt(cfg, space, run, k);
  }

  lemma StillHeld(run: Run, k: nat)
    requires Holds(run) && |run.states| == |run.clocks| + 1 && k + 1 < |run.clocks|
    ensures HeldAt(run, k) ==> run.clocks[k + 1].offer.avalid && run.clocks[k + 1].offer.aid == run.clocks[k].offer.aid
  {
  }

  lemma AnswerMoves(cfg: Config, run: Run, n: nat)
    requires |run.states| == |run.clocks| + 1 && 0 < n < |run.states|
    requires Shaped(cfg, run.states[n - 1]) && Next(cfg, run.states[n - 1], run.clocks[n - 1], run.states[n])
    requires Tidy(cfg.wcOutput, run.states[n - 1].stage)
    requires Balanced(cfg.wcOutput, run.states[n - 1], Count(cfg, run, n - 1))
    requires Answering(cfg, run, n - 1)
    requires n > 1 && HeldAt(run, n - 2) ==>
               run.clocks[n - 1].offer.avalid && run.clocks[n - 1].offer.aid == run.clocks[n - 2].offer.aid
    ensures Answering(cfg, run, n)
  {
    hide AddressMap.LastHit, ThreadTable.NextRows, ThreadTable.NextFlight, ThreadTable.Admits, Counted, CounterValues;
    var s, k := run.states[n - 1], run.clocks[n - 1];
    StageMoves(cfg.wcOutput, s.stage, ToStage(s, k.offer), k.hit, k.started);
    hide NextStage;
  }
}
