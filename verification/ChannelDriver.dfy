/** One DMA channel of the driver: the descriptor ring with its head, tail and full
    flag, updated in place. */
module ChannelDriver {
  import opened Common
  import opened DescriptorRing
  import Ring
  import ScatterGather

  /** A request as the kernel hands it to the driver. */
  datatype Iocb = Iocb(id: nat)

  lemma {:induction false} ClearedLast(status: seq<nat>, from: nat, k: nat)
    requires from < |status| && k < |status|
    ensures Cleared(status, from, k + 1) == Cleared(status, from, k)[Ring.Wrap(from + k, |status|) := NOT_IN_USE]
    decreases k
  {
    if k > 0 {
      ClearedLast(status[from := NOT_IN_USE], Next(from, |status|), k - 1);
    } else {
      assert Cleared(status, from, 1) == Cleared(status[from := NOT_IN_USE], Next(from, |status|), 0);
    }
  }

  lemma ContentsLast<T>(mem: seq<T>, from: nat, k: nat)
    requires from < |mem| && k < |mem|
    ensures Ring.Contents(mem, from, k + 1) == Ring.Contents(mem, from, k) + [mem[Ring.Wrap(from + k, |mem|)]]
  {
  }

  lemma CompletedJoin<I>(a: seq<I>, b: seq<I>, code: Code)
    ensures Completed(a + b, code) == Completed(a, code) + Completed(b, code)
  {
  }

  /** j slots from the head on have been reaped. */
  ghost predicate Reaping(c: Chan<Iocb>, j: nat, status: seq<nat>, head: nat) {
    && Valid(c) && j <= Size(c)
    && status == Cleared(c.status, c.head, j) && head == Ring.Wrap(c.head + j, Size(c))
    && forall q :: 0 <= q < j ==> IsDone(Slot(c.status, c.head, q))
  }

  lemma ReapsOneMore(c: Chan<Iocb>, j: nat, status: seq<nat>, head: nat)
    requires Reaping(c, j, status, head) && head < |status| == Size(c) && IsDone(status[head])
    ensures j < Size(c)
    ensures Reaping(c, j + 1, status[head := NOT_IN_USE], Next(head, Size(c)))
  {
    ClearedAhead(c, j);
    ClearedLast(c.status, c.head, j);
  }

  lemma ClearedAhead(c: Chan<Iocb>, j: nat)
    requires Valid(c) && j <= Size(c)
    ensures Cleared(c.status, c.head, j)[Ring.Wrap(c.head + j, Size(c))]
            == if j < Size(c) then Slot(c.status, c.head, j) else NOT_IN_USE
  {
    ClearedSlots(c.status, c.head, j, if j < Size(c) then j else 0);
    SlotWraps(Cleared(c.status, c.head, j), c.head, j);
  }

  lemma ReapsAll(c: Chan<Iocb>, j: nat, status: seq<nat>, head: nat)
    requires Reaping(c, j, status, head) && head < |status| == Size(c) && !IsDone(status[head]) && c.state == Active
    ensures ReapCount(c) == j && Reaped(c) == Ring.Contents(c.iocb, c.head, j)
    ensures Reap(c) == c.(status := status, head := head, full := c.full && j == 0)
  {
    hide Ring.Contents;
    ClearedAhead(c, j);
    DoneRunIs(c.status, c.head, Size(c), j);
  }

  lemma ReapsNone(c: Chan<Iocb>)
    requires Valid(c)
    ensures Reaping(c, 0, c.status, c.head) && Ring.Contents(c.iocb, c.head, 0) == []
    ensures c.state != Active ==> ReapCount(c) == 0 && Reap(c) == c && Reaped(c) == []
  {
  }

  lemma NothingCompleted(code: Code)
    ensures Completed<Iocb>([], code) == []
  {
  }

  /** The next slot from slot j on, and the request in it. */
  lemma OneMoreCompleted(c: Chan<Iocb>, j: nat, head: nat, before: seq<Completion<Iocb>>, code: Code)
    requires Valid(c) && j < Size(c) && head == Ring.Wrap(c.head + j, Size(c))
    ensures before + Completed(Ring.Contents(c.iocb, c.head, j), code) + Completed([c.iocb[head]], code)
            == before + Completed(Ring.Contents(c.iocb, c.head, j + 1), code)
    ensures Next(head, Size(c)) == Ring.Wrap(c.head + (j + 1), Size(c))
  {
    ContentsLast(c.iocb, c.head, j);
    CompletedJoin(Ring.Contents(c.iocb, c.head, j), [c.iocb[head]], code);
  }

  class Channel {
    const status: array<nat>
    const iocb: array<Iocb>
    var head: nat
    var tail: nat
    var full: bool
    var state: ChannelState
    var startedCount: int
    var completedCount: int
    var completionNum: int
    // The completions reported so far.
    ghost var completed: seq<Completion<Iocb>>

    ghost predicate Shaped()
      reads this, status, iocb
    {
      status.Length == iocb.Length && Valid(Abs())
    }

    ghost function Abs(): Chan<Iocb>
      reads this, status, iocb
    {
      Chan(status[..], iocb[..], head, tail, full, state)
    }

    constructor (numOfDesc: nat, none: Iocb)
      requires numOfDesc > 0
      ensures Shaped() && fresh(status) && fresh(iocb)
      ensures AtRest(Abs()) && AllIdle(Abs().status) && Size(Abs()) == numOfDesc && completed == []
    {
      status := new nat[numOfDesc](_ => NOT_IN_USE);
      iocb := new Iocb[numOfDesc](_ => none);
      head, tail, full, state := 0, 0, false, Inactive;
      startedCount, completedCount, completionNum := 0, 0, 0;
      completed := [];
    }

    /** start_io: queue a request on the tail descriptor, unless the ring is full. */
    method StartIo(i: Iocb, lub: ScatterGather.LockedBuffer, reqLen: int) returns (queued: bool)
      requires Shaped() && lub.Valid() && lub.rec.Length > 0
      modifies this, status, iocb, lub.rec
      ensures Shaped() && lub.Valid()
      ensures queued <==> |Pending(old(Abs()))| < Size(old(Abs()))
      ensures Abs() == Submit(old(Abs()), i, reqLen)
      ensures queued ==> status[old(tail)] % 4 == 2 && status[old(tail)] / 4 == reqLen % 0x4000_0000
      ensures completed == old(completed)
      ensures startedCount == if queued then old(startedCount) else old(startedCount) - 1
      ensures queued && 0 < reqLen <= ScatterGather.TotalLen(lub.segs) ==>
                && ScatterGather.PagesIn(reqLen) <= lub.rec.Length
                && ScatterGather.RecordBytes(lub.rec[..ScatterGather.PagesIn(reqLen)])
                   == ScatterGather.SegmentBytes(lub.segs)[..reqLen]
    {
      queued := !full;
      if queued {
        var n := lub.Mark(reqLen);
        status[tail] := Submitted(reqLen);
        iocb[tail] := i;
        tail := Next(tail, status.Length);
        if tail == head {
          full := true;
        }
      } else {
        startedCount := startedCount - 1;
      }
    }

    /** handle_channel_completion: complete all done requests from the head on. */
    method HandleCompletion()
      requires Shaped()
      modifies this, status
      ensures Shaped()
      ensures Abs() == Reap(old(Abs()))
      ensures completed == old(completed) + Completed(Reaped(old(Abs())), DmaDone)
      ensures completedCount == old(completedCount) + ReapCount(old(Abs()))
      ensures completionNum == old(completionNum) + if ReapCount(old(Abs())) > 0 then 1 else 0
    {
      hide Ring.Contents, Ring.Wrap, Completed, Reap, Reaped, ReapCount, Cleared, DoneRun, Slot, IsDone, Count, Pending;
      ghost var c, j := Abs(), 0;
      ReapsNone(c);
      NothingCompleted(DmaDone);
      if state != Active {
        return;
      }
      if IsDone(status[head]) {
        completionNum := completionNum + 1;
      }
      while IsDone(status[head])
        invariant Shaped() && Reaping(c, j, status[..], head)
        invariant iocb[..] == c.iocb && tail == c.tail && state == c.state && full == (c.full && j == 0)
        invariant completedCount == old(completedCount) + j
        invariant completionNum == old(completionNum) + if j > 0 || IsDone(status[head]) then 1 else 0
        invariant completed == old(completed) + Completed(Ring.Contents(c.iocb, c.head, j), DmaDone)
        decreases Size(c) - j
      {
        ReapsOneMore(c, j, status[..], head);
        OneMoreCompleted(c, j, head, old(completed), DmaDone);
        completed := completed + Completed([iocb[head]], DmaDone);
        status[head] := NOT_IN_USE;
        head, full, completedCount := Next(head, status.Length), false, completedCount + 1;
        j := j + 1;
      }
      ReapsAll(c, j, status[..], head);
    }

    /** flush_desc_list: complete all requests in the ring as stopped and go back to slot 0. */
    method FlushDescList()
      requires Shaped()
      modifies this
      ensures Shaped()
      ensures Abs() == old(Abs()).(head := 0, tail := 0, full := false)
      ensures completed == old(completed) + Completed(Pending(old(Abs())), DmaStopped)
    {
      ghost var c, j := Abs(), 0;
      ReapsNone(c);
      NothingCompleted(DmaStopped);
      hide Ring.Contents, Completed;
      while full || head != tail
        invariant Shaped() && j <= Count(c) && head == Ring.Wrap(c.head + j, Size(c))
        invariant tail == c.tail && state == c.state && full == (c.full && j == 0)
        invariant completed == old(completed) + Completed(Ring.Contents(c.iocb, c.head, j), DmaStopped)
        decreases Count(c) - j
      {
        OneMoreCompleted(c, j, head, old(completed), DmaStopped);
        completed := completed + Completed([iocb[head]], DmaStopped);
        head := Next(head, status.Length);
        full := false;
        j := j + 1;
      }
      head, tail := 0, 0;
    }

    method StartChannel()
      requires Shaped()
      modifies this
      ensures Shaped()
      ensures Abs() == DescriptorRing.StartChannel(old(Abs())) && completed == old(completed)
    {
      if state == Inactive {
        state, startedCount := Active, 0;
      }
    }

    method StopChannel()
      requires Shaped()
      modifies this
      ensures Shaped()
      ensures Abs() == DescriptorRing.StopChannel(old(Abs()))
      ensures completed == old(completed) + Completed(Pending(old(Abs())), DmaStopped)
    {
      assert Pending(Abs().(state := Inactive)) == Pending(Abs());
      state := Inactive;
      FlushDescList();
    }
  }
}
