/** The ring of DMA descriptors that driver and hardware share. The driver submits
    at the tail and reaps finished descriptors at the head; the hardware walks the
    ring on its own from slot 0 and marks active descriptors done. */
module DescriptorRing {
  import opened Common
  import Ring

  datatype ChannelState = Inactive | Active

  datatype Code = DmaDone | DmaStopped

  /** Per slot the status word and the request it was submitted for. */
  datatype Chan<I> = Chan(status: seq<nat>, iocb: seq<I>, head: nat, tail: nat, full: bool, state: ChannelState)

  const NOT_IN_USE: nat := 4

  /** SG_REC_DONE is bit 0, SG_REC_ACTIVE bit 1. */
  predicate IsDone(status: nat) {
    status % 2 == 1
  }

  predicate IsActive(status: nat) {
    status / 2 % 2 == 1
  }

  predicate Waiting(status: nat) {
    IsActive(status) && !IsDone(status)
  }

  predicate Idle(status: nat) {
    !IsActive(status) && !IsDone(status)
  }

  /** The status word of a request: its length in 32 bits shifted left by two, and active. */
  function Submitted(len: int): (status: nat)
    ensures Waiting(status) && status < 0x1_0000_0000
    ensures status % 4 == 2 && status / 4 == len % 0x4000_0000
  {
    ShiftedIs(len);
    FlagsOver(len % 0x4000_0000);
    var shifted := len % 0x1_0000_0000 * 4 % 0x1_0000_0000;
    shifted + 2
  }

  /** Shifting left by two within 32 bits loses the two top bits. */
  lemma ShiftedIs(len: int)
    ensures len % 0x1_0000_0000 * 4 % 0x1_0000_0000 == 4 * (len % 0x4000_0000)
  {
    var p, x := len / 0x1_0000_0000, len % 0x1_0000_0000;
    var a, r := x / 0x4000_0000, x % 0x4000_0000;
    DivUnique(len, 0x4000_0000, 4 * p + a, r);
    DivUnique(x * 4, 0x1_0000_0000, a, 4 * r);
  }

  lemma FlagsOver(r: nat)
    ensures Waiting(4 * r + 2) && (4 * r + 2) % 4 == 2 && (4 * r + 2) / 4 == r
  {
  }

  /** The length that stands above the two flags of a status word. */
  function LengthField(status: nat): nat {
    status / 4
  }

  /** The status word carries the length of a request exactly if that is under 1 GiB:
      two of the 32 bits are taken by the flags. */
  lemma LengthArrives(len: int)
    ensures LengthField(Submitted(len)) == len <==> 0 <= len < 0x4000_0000
  {
  }

  predicate Valid<I>(c: Chan<I>) {
    && 0 < |c.status| == |c.iocb|
    && c.head < |c.status| && c.tail < |c.status|
    && (c.full ==> c.head == c.tail)
  }

  function Size<I>(c: Chan<I>): nat {
    |c.status|
  }

  function Next(i: nat, size: nat): nat
    requires i < size
  {
    Ring.Wrap(i + 1, size)
  }

  /** The number of slots from head to tail. */
  function Count<I>(c: Chan<I>): (k: nat)
    requires Valid(c)
    ensures k <= Size(c)
    ensures c.full <==> k == Size(c)
  {
    if c.full then Size(c) else if c.tail >= c.head then c.tail - c.head else c.tail + Size(c) - c.head
  }

  /** The requests in the ring, oldest first. */
  function Pending<I>(c: Chan<I>): (p: seq<I>)
    requires Valid(c)
    ensures |p| == Count(c)
  {
    Ring.Contents(c.iocb, c.head, Count(c))
  }

  // What the driver does

  function Submit<I>(c: Chan<I>, i: I, len: int): (r: Chan<I>)
    requires Valid(c)
    ensures Valid(r) && Size(r) == Size(c)
  {
    if c.full then c
    else
      var tail := Next(c.tail, Size(c));
      c.(status := c.status[c.tail := Submitted(len)], iocb := c.iocb[c.tail := i], tail := tail,
         full := tail == c.head)
  }

  /** The number of done slots in a row from slot `from` on, at most `limit`. */
  function DoneRun(status: seq<nat>, from: nat, limit: nat): (k: nat)
    requires from < |status|
    ensures k <= limit
    decreases limit
  {
    if limit == 0 || !IsDone(status[from]) then 0
    else DoneRun(status, Next(from, |status|), limit - 1) + 1
  }

  /** k slots from slot `from` on are given back. */
  function Cleared(status: seq<nat>, from: nat, k: nat): (r: seq<nat>)
    requires from < |status|
    ensures |r| == |status|
    decreases k
  {
    if k == 0 then status
    else Cleared(status[from := NOT_IN_USE], Next(from, |status|), k - 1)
  }

  function ReapCount<I>(c: Chan<I>): (k: nat)
    requires Valid(c)
    ensures k <= Size(c)
  {
    if c.state == Active then DoneRun(c.status, c.head, Size(c)) else 0
  }

  function Reap<I>(c: Chan<I>): (r: Chan<I>)
    requires Valid(c)
    ensures Valid(r) && Size(r) == Size(c)
  {
    var k := ReapCount(c);
    if k == 0 then c
    else c.(status := Cleared(c.status, c.head, k), head := Ring.Wrap(c.head + k, Size(c)), full := false)
  }

  /** The requests that Reap completes. */
  function Reaped<I>(c: Chan<I>): (p: seq<I>)
    requires Valid(c)
    ensures |p| == ReapCount(c)
  {
    Ring.Contents(c.iocb, c.head, ReapCount(c))
  }

  function StartChannel<I>(c: Chan<I>): Chan<I> {
    c.(state := Active)
  }

  /** Stopping flushes the ring but leaves the status words as they are. */
  function StopChannel<I>(c: Chan<I>): (r: Chan<I>)
    requires Valid(c)
    ensures Valid(r) && Size(r) == Size(c) && Pending(r) == []
  {
    c.(head := 0, tail := 0, full := false, state := Inactive)
  }

  lemma CountNext<I>(c: Chan<I>)
    requires Valid(c) && !c.full
    ensures c.tail == Ring.Wrap(c.head + Count(c), Size(c))
    ensures Next(c.tail, Size(c)) == c.head <==> Count(c) + 1 == Size(c)
  {
  }

  /** The ring is a queue of bounded length: a submission appends, or changes
      nothing when all slots are taken. */
  lemma SubmitAppends<I>(c: Chan<I>, i: I, len: int)
    requires Valid(c)
    ensures Pending(Submit(c, i, len)) == if |Pending(c)| < Size(c) then Pending(c) + [i] else Pending(c)
  {
    hide Ring.Contents, Ring.Wrap;
    if !c.full {
      CountNext(c);
      assert Count(Submit(c, i, len)) == Count(c) + 1 by { CountAfterSubmit(c, i, len); }
      Ring.WriteAppends(c.iocb, c.head, Count(c), i);
    }
  }

  lemma CountAfterSubmit<I>(c: Chan<I>, i: I, len: int)
    requires Valid(c) && !c.full
    ensures Count(Submit(c, i, len)) == Count(c) + 1
  {
  }

  /** As long as it stays between head and tail, reaping removes from the front. */
  lemma ReapDrops<I>(c: Chan<I>)
    requires Valid(c) && ReapCount(c) <= Count(c)
    ensures Reaped(c) + Pending(Reap(c)) == Pending(c)
  {
    var k := ReapCount(c);
    if 0 < k < Size(c) {
      assert Count(Reap(c)) == Count(c) - k;
      Ring.Split(c.iocb, c.head, k, Count(c) - k);
    } else if k == Size(c) {
      assert Count(Reap(c)) == 0;
    } else {
      assert Reaped(c) == [];
    }
  }

  // Done, waiting and idle slots

  /** The status of the j-th slot from slot `from` on. */
  function Slot(status: seq<nat>, from: nat, j: nat): nat
    requires from < |status| && j < |status|
  {
    status[Ring.Wrap(from + j, |status|)]
  }

  lemma {:induction false} DoneRunIs(status: seq<nat>, from: nat, limit: nat, d: nat)
    requires from < |status| && d <= limit <= |status|
    requires forall j :: 0 <= j < d ==> IsDone(Slot(status, from, j))
    requires d < limit ==> !IsDone(Slot(status, from, d))
    ensures DoneRun(status, from, limit) == d
    decreases limit
  {
    if d > 0 {
      assert IsDone(Slot(status, from, 0));
      var next := Next(from, |status|);
      forall j | 0 <= j < d - 1
        ensures IsDone(Slot(status, next, j))
      {
        assert Slot(status, next, j) == Slot(status, from, j + 1);
      }
      assert d < limit ==> Slot(status, next, d - 1) == Slot(status, from, d);
      DoneRunIs(status, next, limit - 1, d - 1);
    } else if limit > 0 {
      assert Slot(status, from, 0) == status[from];
    }
  }

  /** Reaping takes a maximal run: all of it is done, and the slot after it is not. */
  lemma {:induction false} DoneRunIsMaximal(status: seq<nat>, from: nat, limit: nat)
    requires from < |status| && limit <= |status|
    ensures
      var k := DoneRun(status, from, limit);
      && (forall j :: 0 <= j < k ==> IsDone(Slot(status, from, j)))
      && (k < limit ==> !IsDone(Slot(status, from, k)))
    decreases limit
  {
    if limit > 0 {
      assert Slot(status, from, 0) == status[from];
      if IsDone(status[from]) {
        var next := Next(from, |status|);
        DoneRunIsMaximal(status, next, limit - 1);
        var k := DoneRun(status, from, limit);
        forall j | 0 < j <= k && j < limit
          ensures Slot(status, from, j) == Slot(status, next, j - 1)
        {
        }
      }
    }
  }

  lemma {:induction false} ClearedSlots(status: seq<nat>, from: nat, k: nat, j: nat)
    requires from < |status| && k <= |status| && j < |status|
    ensures Slot(Cleared(status, from, k), from, j) == if j < k then NOT_IN_USE else Slot(status, from, j)
    decreases k
  {
    if k > 0 {
      var next, one := Next(from, |status|), status[from := NOT_IN_USE];
      if j > 0 {
        ClearedSlots(one, next, k - 1, j - 1);
        assert Slot(Cleared(status, from, k), from, j) == Slot(Cleared(one, next, k - 1), next, j - 1);
        assert Slot(one, next, j - 1) == Slot(status, from, j);
      } else {
        ClearedSlots(one, next, k - 1, |status| - 1);
        assert Slot(Cleared(one, next, k - 1), next, |status| - 1) == Slot(Cleared(status, from, k), from, 0);
      }
    }
  }

  /** Of the requests in the ring the first d are done and the rest wait for the
      hardware; every other slot is idle. */
  predicate Marked<I>(c: Chan<I>, d: nat)
    requires Valid(c)
  {
    && d <= Count(c)
    && (forall j :: 0 <= j < d ==> IsDone(Slot(c.status, c.head, j)))
    && (forall j :: d <= j < Count(c) ==> Waiting(Slot(c.status, c.head, j)))
    && (forall j :: Count(c) <= j < Size(c) ==> Idle(Slot(c.status, c.head, j)))
  }

  lemma MarkedReapCount<I>(c: Chan<I>, d: nat)
    requires Valid(c) && Marked(c, d) && c.state == Active
    ensures ReapCount(c) == d
  {
    assert d < Size(c) ==> !IsDone(Slot(c.status, c.head, d));
    DoneRunIs(c.status, c.head, Size(c), d);
  }

  lemma SlotUpdate(status: seq<nat>, from: nat, j: nat, v: nat, k: nat)
    requires from < |status| && j < |status| && k < |status|
    ensures Slot(status[Ring.Wrap(from + j, |status|) := v], from, k) == if k == j then v else Slot(status, from, k)
  {
  }

  lemma SubmitMarks<I>(c: Chan<I>, i: I, len: int, d: nat)
    requires Valid(c) && Marked(c, d)
    ensures Marked(Submit(c, i, len), d)
  {
    if !c.full {
      CountNext(c);
      CountAfterSubmit(c, i, len);
      forall k | 0 <= k < Size(c)
        ensures Slot(Submit(c, i, len).status, c.head, k)
                == if k == Count(c) then Submitted(len) else Slot(c.status, c.head, k)
      {
        SlotUpdate(c.status, c.head, Count(c), Submitted(len), k);
      }
      hide Submitted, Slot;
    }
  }

  lemma RotatedSlot(status: seq<nat>, from: nat, d: nat, j: nat)
    requires from < |status| && d <= |status| && j < |status|
    ensures Slot(status, Ring.Wrap(from + d, |status|), j)
            == if j + d < |status| then Slot(status, from, j + d) else Slot(status, from, j + d - |status|)
  {
  }

  lemma ReapMarks<I>(c: Chan<I>, d: nat)
    requires Valid(c) && Marked(c, d) && c.state == Active
    ensures Marked(Reap(c), 0)
  {
    MarkedReapCount(c, d);
    if d > 0 {
      var r := Reap(c);
      assert Count(r) == Count(c) - d;
      forall j | 0 <= j < Size(c)
        ensures Slot(r.status, r.head, j) == if j + d < Size(c) then Slot(c.status, c.head, j + d) else NOT_IN_USE
      {
        RotatedSlot(r.status, c.head, d, j);
        ClearedSlots(c.status, c.head, d, if j + d < Size(c) then j + d else j + d - Size(c));
      }
      hide Slot, Cleared, Reap, ReapCount;
    }
  }

  // Sessions

  datatype Completion<I> = Completion(iocb: I, code: Code)

  /** The channel, the slot the hardware looks at, and what was submitted and
      completed since the session began. */
  datatype Sys<I> = Sys(c: Chan<I>, hw: nat, submitted: seq<I>, completed: seq<Completion<I>>)

  datatype Event<I> =
    | SubmitIo(iocb: I, len: int)
    | HardwareDone(status: nat)
    | Completions
    | Start

  function Completed<I>(p: seq<I>, code: Code): (r: seq<Completion<I>>)
    ensures |r| == |p|
  {
    seq(|p|, k requires 0 <= k < |p| => Completion(p[k], code))
  }

  predicate ValidSys<I>(s: Sys<I>) {
    Valid(s.c) && s.hw < Size(s.c)
  }

  /** One event. The hardware acts only on an active channel, on a waiting slot,
      and leaves a status word with the done bit. */
  function Step<I>(s: Sys<I>, e: Event<I>): (r: Sys<I>)
    requires ValidSys(s)
    ensures ValidSys(r) && Size(r.c) == Size(s.c)
  {
    match e
    case SubmitIo(i, len) =>
      s.(c := Submit(s.c, i, len), submitted := if s.c.full then s.submitted else s.submitted + [i])
    case HardwareDone(v) =>
      if s.c.state == Active && Waiting(s.c.status[s.hw]) && IsDone(v) then
        s.(c := s.c.(status := s.c.status[s.hw := v]), hw := Next(s.hw, Size(s.c)))
      else s
    case Completions =>
      s.(c := Reap(s.c), completed := s.completed + Completed(Reaped(s.c), DmaDone))
    case Start =>
      if s.c.state == Inactive then s.(c := StartChannel(s.c), hw := 0) else s
  }

  function Stop<I>(s: Sys<I>): Sys<I>
    requires ValidSys(s)
  {
    s.(c := StopChannel(s.c), completed := s.completed + Completed(Pending(s.c), DmaStopped))
  }

  function Exec<I>(s: Sys<I>, events: seq<Event<I>>): (r: Sys<I>)
    requires ValidSys(s)
    ensures ValidSys(r) && Size(r.c) == Size(s.c)
  {
    if events == [] then s else Step(Exec(s, events[..|events| - 1]), events[|events| - 1])
  }

  /** Completed so far: the oldest submissions, once each, in order, as done; the
      others are in the ring. */
  ghost predicate Exact<I>(s: Sys<I>)
    requires ValidSys(s)
  {
    && |s.completed| <= |s.submitted|
    && s.completed == Completed(s.submitted[..|s.completed|], DmaDone)
    && Pending(s.c) == s.submitted[|s.completed|..]
  }

  ghost predicate SessionInv<I>(s: Sys<I>, d: nat) {
    && ValidSys(s) && Marked(s.c, d) && Exact(s)
    && (s.c.state == Active ==> s.hw == Ring.Wrap(s.c.head + d, Size(s.c)))
    && (s.c.state == Inactive ==> s.c.head == 0 && d == 0)
  }

  lemma SubmitKeeps<I>(s: Sys<I>, i: I, len: int, d: nat)
    requires SessionInv(s, d)
    ensures SessionInv(Step(s, SubmitIo(i, len)), d)
  {
    SubmitMarks(s.c, i, len, d);
    SubmitAppends(s.c, i, len);
    var s' := Step(s, SubmitIo(i, len));
    assert s'.submitted[..|s.completed|] == s.submitted[..|s.completed|];
    hide Marked, Pending;
  }

  lemma SlotWraps(status: seq<nat>, from: nat, d: nat)
    requires from < |status| && d <= |status|
    ensures status[Ring.Wrap(from + d, |status|)] == Slot(status, from, if d < |status| then d else 0)
  {
  }

  lemma WaitingIsPending<I>(c: Chan<I>, d: nat)
    requires Valid(c) && Marked(c, d) && Waiting(c.status[Ring.Wrap(c.head + d, Size(c))])
    ensures d < Count(c)
  {
    SlotWraps(c.status, c.head, d);
  }

  /** The hardware finishes the oldest waiting request. */
  lemma HardwareMarks<I>(c: Chan<I>, c': Chan<I>, v: nat, d: nat)
    requires Valid(c) && Marked(c, d) && d < Count(c) && IsDone(v)
    requires c' == c.(status := c.status[Ring.Wrap(c.head + d, Size(c)) := v])
    ensures Valid(c') && Marked(c', d + 1) && Pending(c') == Pending(c)
  {
    forall k | 0 <= k < Size(c)
      ensures Slot(c'.status, c.head, k) == if k == d then v else Slot(c.status, c.head, k)
    {
      SlotUpdate(c.status, c.head, d, v, k);
    }
    hide Slot;
  }

  lemma HardwareKeeps<I>(s: Sys<I>, v: nat, d: nat) returns (d': nat)
    requires SessionInv(s, d)
    ensures SessionInv(Step(s, HardwareDone(v)), d')
  {
    d' := d;
    hide Marked, Pending, IsDone, IsActive;
    if s.c.state == Active && Waiting(s.c.status[s.hw]) && IsDone(v) {
      WaitingIsPending(s.c, d);
      HardwareMarks(s.c, Step(s, HardwareDone(v)).c, v, d);
      d' := d + 1;
    }
  }

  lemma CompletedMore<I>(submitted: seq<I>, a: nat, reaped: seq<I>, left: seq<I>)
    requires a <= |submitted| && submitted[a..] == reaped + left
    ensures a + |reaped| <= |submitted| && left == submitted[a + |reaped|..]
    ensures Completed(submitted[..a], DmaDone) + Completed(reaped, DmaDone)
            == Completed(submitted[..a + |reaped|], DmaDone)
  {
    assert |submitted| == a + |reaped| + |left|;
    forall k | 0 <= k < |reaped|
      ensures submitted[a + k] == reaped[k]
    {
      assert submitted[a..][k] == reaped[k];
    }
    forall k | 0 <= k < |left|
      ensures submitted[a + |reaped| + k] == left[k]
    {
      assert submitted[a..][|reaped| + k] == left[k];
    }
  }

  lemma ReapKeeps<I>(s: Sys<I>, d: nat)
    requires SessionInv(s, d)
    ensures SessionInv(Step(s, Completions), 0)
  {
    hide Ring.Contents, DoneRun, Cleared, Slot, Completed;
    if s.c.state == Active {
      MarkedReapCount(s.c, d);
      ReapMarks(s.c, d);
      ReapDrops(s.c);
      CompletedMore(s.submitted, |s.completed|, Reaped(s.c), Pending(Reap(s.c)));
      hide Marked, Pending, Reaped, ReapCount;
    } else {
      assert Reaped(s.c) == [];
      assert s.completed + Completed(Reaped(s.c), DmaDone) == s.completed;
    }
  }

  lemma StartKeeps<I>(s: Sys<I>, d: nat)
    requires SessionInv(s, d)
    ensures SessionInv(Step(s, Start), d)
  {
    hide Slot, Pending;
    if s.c.state == Inactive {
      assert Count(StartChannel(s.c)) == Count(s.c);
      assert Pending(StartChannel(s.c)) == Pending(s.c) by {
        SamePending(s.c, StartChannel(s.c));
      }
    }
  }

  lemma SamePending<I>(a: Chan<I>, b: Chan<I>)
    requires Valid(a) && Valid(b) && b == a.(state := b.state)
    ensures Pending(a) == Pending(b)
  {
  }

  lemma {:induction false} SessionKeepsInv<I>(s: Sys<I>, events: seq<Event<I>>) returns (d: nat)
    requires SessionInv(s, 0)
    ensures SessionInv(Exec(s, events), d)
  {
    if events == [] {
      d := 0;
    } else {
      var before := Exec(s, events[..|events| - 1]);
      d := SessionKeepsInv(s, events[..|events| - 1]);
      hide SessionInv, Step, Exec;
      match events[|events| - 1] {
        case SubmitIo(i, len) => SubmitKeeps(before, i, len, d);
        case HardwareDone(v) => d := HardwareKeeps(before, v, d);
        case Completions =>
          ReapKeeps(before, d);
          d := 0;
        case Start => StartKeeps(before, d);
      }
      ExecLast(s, events);
    }
  }

  lemma ExecLast<I>(s: Sys<I>, events: seq<Event<I>>)
    requires ValidSys(s) && events != []
    ensures Exec(s, events) == Step(Exec(s, events[..|events| - 1]), events[|events| - 1])
  {
  }

  /** A channel between sessions: inactive, and nothing in the ring. */
  predicate AtRest<I>(c: Chan<I>) {
    Valid(c) && c.state == Inactive && c.head == c.tail == 0 && !c.full
  }

  predicate AllIdle(status: seq<nat>) {
    forall k :: 0 <= k < |status| ==> Idle(status[k])
  }

  function Begin<I>(c: Chan<I>): Sys<I> {
    Sys(c, 0, [], [])
  }

  lemma BeginInv<I>(c: Chan<I>)
    requires AtRest(c) && AllIdle(c.status)
    ensures SessionInv(Begin(c), 0)
  {
    forall j | 0 <= j < Size(c)
      ensures Idle(Slot(c.status, c.head, j))
    {
    }
  }

  /** Every session from this channel is exact, whatever is submitted, finished and
      reaped, in any order. */
  ghost predicate SessionsAreExact<I(!new)>(c: Chan<I>)
    requires Valid(c)
  {
    forall events: seq<Event<I>> :: Exact(Exec(Begin(c), events))
  }

  /** Stopping an exact session completes each submission exactly once, in order of
      submission: done ones first, then stopped ones. */
  lemma StopCompletesAll<I>(s: Sys<I>)
    requires ValidSys(s) && Exact(s)
    ensures
      var a := |s.completed|;
      && a <= |s.submitted|
      && Stop(s).completed == Completed(s.submitted[..a], DmaDone) + Completed(s.submitted[a..], DmaStopped)
    ensures |Stop(s).completed| == |s.submitted|
    ensures forall k :: 0 <= k < |s.submitted| ==> Stop(s).completed[k].iocb == s.submitted[k]
    ensures AtRest(Stop(s).c)
  {
    hide Pending;
  }

  /** After a session the ring is free of stale slots exactly if nothing was left in
      the ring when it was stopped. */
  lemma RestartIsClean<I>(s: Sys<I>, d: nat)
    requires SessionInv(s, d)
    ensures AllIdle(Stop(s).c.status) <==> Pending(s.c) == []
  {
    var c := s.c;
    if Count(c) == 0 {
      forall k | 0 <= k < Size(c)
        ensures Idle(c.status[k])
      {
        var j := if k >= c.head then k - c.head else k + Size(c) - c.head;
        assert Slot(c.status, c.head, j) == c.status[k];
      }
    } else {
      assert Slot(c.status, c.head, 0) == c.status[c.head];
    }
  }

  // Sessions that begin with a stale slot

  lemma ExecAppend<I>(s: Sys<I>, events: seq<Event<I>>, e: Event<I>)
    requires ValidSys(s)
    ensures Exec(s, events + [e]) == Step(Exec(s, events), e)
  {
    assert (events + [e])[..|events|] == events;
  }

  function Submits<I>(i: I, j: nat): seq<Event<I>> {
    if j == 0 then [] else Submits(i, j - 1) + [SubmitIo(i, 0)]
  }

  function Finishes<I>(i: I, j: nat, k: nat): seq<Event<I>> {
    if k == 0 then Submits(i, j) + [Start] else Finishes(i, j, k - 1) + [HardwareDone(1)]
  }

  /** j requests are submitted to a channel c0 at rest and the hardware has finished k of them. */
  predicate Finishing<I>(c0: Chan<I>, s: Sys<I>, j: nat, k: nat, state: ChannelState)
    requires k <= j < Size(c0)
  {
    && ValidSys(s) && Size(s.c) == Size(c0)
    && s.c.head == 0 && s.c.tail == j && !s.c.full && s.c.state == state && s.hw == k
    && |s.submitted| == j && s.completed == []
    && forall q :: 0 <= q < Size(c0) ==>
                     s.c.status[q] == if q < k then 1 else if q < j then Submitted(0) else c0.status[q]
  }

  lemma OneMoreSubmitted<I>(c0: Chan<I>, s: Sys<I>, i: I, j: nat)
    requires 0 < j < Size(c0) && Finishing(c0, s, j - 1, 0, Inactive)
    ensures Finishing(c0, Step(s, SubmitIo(i, 0)), j, 0, Inactive)
  {
    hide Submitted;
  }

  lemma {:induction false} AfterSubmits<I>(c: Chan<I>, i: I, j: nat)
    requires AtRest(c) && j < Size(c)
    ensures Finishing(c, Exec(Begin(c), Submits(i, j)), j, 0, Inactive)
  {
    if j > 0 {
      AfterSubmits(c, i, j - 1);
      hide Finishing, Exec, Step;
      ExecAppend(Begin(c), Submits(i, j - 1), SubmitIo(i, 0));
      OneMoreSubmitted(c, Exec(Begin(c), Submits(i, j - 1)), i, j);
    }
  }

  lemma OneMoreFinished<I>(c0: Chan<I>, s: Sys<I>, j: nat, k: nat)
    requires 0 < k <= j && j < Size(c0) && Finishing(c0, s, j, k - 1, Active)
    ensures Finishing(c0, Step(s, HardwareDone(1)), j, k, Active)
  {
    assert s.c.status[s.hw] == Submitted(0);
    hide Submitted;
  }

  lemma StartedAfter<I>(c0: Chan<I>, s: Sys<I>, j: nat)
    requires j < Size(c0) && Finishing(c0, s, j, 0, Inactive)
    ensures Finishing(c0, Step(s, Start), j, 0, Active)
  {
    hide Submitted;
  }

  lemma {:induction false} AfterFinishes<I>(c: Chan<I>, i: I, j: nat, k: nat)
    requires AtRest(c) && k <= j < Size(c)
    ensures Finishing(c, Exec(Begin(c), Finishes(i, j, k)), j, k, Active)
  {
    hide Finishing, Exec, Step;
    if k == 0 {
      AfterSubmits(c, i, j);
      ExecAppend(Begin(c), Submits(i, j), Start);
      StartedAfter(c, Exec(Begin(c), Submits(i, j)), j);
    } else {
      AfterFinishes(c, i, j, k - 1);
      ExecAppend(Begin(c), Finishes(i, j, k - 1), HardwareDone(1));
      OneMoreFinished(c, Exec(Begin(c), Finishes(i, j, k - 1)), j, k);
    }
  }

  lemma RunsBeyond(status: seq<nat>, j: nat)
    requires j < |status| && forall q :: 0 <= q <= j ==> IsDone(status[q])
    ensures DoneRun(status, 0, |status|) > j
  {
    var k := DoneRun(status, 0, |status|);
    DoneRunIsMaximal(status, 0, |status|);
    assert k < |status| ==> Slot(status, 0, k) == status[k];
  }

  /** One more hardware step leaves slot j done, whatever was stale about it. */
  lemma StaleSlotDone<I>(c0: Chan<I>, s: Sys<I>, j: nat)
    requires j < Size(c0) && Finishing(c0, s, j, j, Active) && !Idle(c0.status[j])
    ensures
      var s' := Step(s, HardwareDone(1));
      && s'.c.head == 0 && s'.c.state == Active && |s'.submitted| == j && s'.completed == []
      && forall q :: 0 <= q <= j ==> IsDone(s'.c.status[q])
  {
    hide Submitted;
  }

  /** A stale slot j is completed again after j submissions: more completions than submissions. */
  lemma StaleSlotBreaks<I>(c: Chan<I>, i: I, j: nat)
    requires AtRest(c) && j < Size(c) && !Idle(c.status[j])
    ensures
      var s := Exec(Begin(c), Finishes(i, j, j) + [HardwareDone(1)] + [Completions]);
      !Exact(s) && |s.completed| > |s.submitted|
  {
    hide Submitted, Exec, Finishes, Pending, Idle, IsDone, DoneRun, Cleared, Finishing;
    AfterFinishes(c, i, j, j);
    var events := Finishes(i, j, j) + [HardwareDone(1)];
    ExecAppend(Begin(c), Finishes(i, j, j), HardwareDone(1));
    ExecAppend(Begin(c), events, Completions);
    StaleSlotDone(c, Exec(Begin(c), Finishes(i, j, j)), j);
    RunsBeyond(Exec(Begin(c), events).c.status, j);
  }

  /** Exactly-once completion holds for all sessions of a channel if and only if no
      slot is left done or active from an earlier session. */
  lemma ExactIfNoStaleSlot<I(!new)>(c: Chan<I>, i: I)
    requires AtRest(c)
    ensures SessionsAreExact(c) <==> AllIdle(c.status)
  {
    if AllIdle(c.status) {
      BeginInv(c);
      forall events: seq<Event<I>>
        ensures Exact(Exec(Begin(c), events))
      {
        var d := SessionKeepsInv(Begin(c), events);
      }
    } else {
      var j :| 0 <= j < |c.status| && !Idle(c.status[j]);
      StaleSlotBreaks(c, i, j);
    }
  }
}
