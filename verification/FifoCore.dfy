/** The word-count FIFO: a dual-port memory, a read pointer and a word count;
    read data and its flag arrive one clock after the read enable. */
module FifoCore {
  import opened Common
  import Ring

  /** What one clock does to the queue: a write is ignored when the queue holds
      2^L-1 words, a read when it is empty, each judged before the clock. */
  function NextQueue<T>(capacity: nat, queue: seq<T>, we: bool, wd: T, re: bool): seq<T> {
    (if re && queue != [] then queue[1..] else queue) + (if we && |queue| != capacity then [wd] else [])
  }

  /** The write pointer is the word count past the read pointer; a write that
      does not count lands outside the words in use. */
  function NextRam<T>(ram: seq<T>, rp: nat, wc: nat, we: bool, wd: T): (r: seq<T>)
    requires rp < |ram| && wc < |ram|
    ensures |r| == |ram|
  {
    if we then ram[Ring.Wrap(rp + wc, |ram|) := wd] else ram
  }

  lemma WriteEnds<T>(ram: seq<T>, rp: nat, wc: nat, we: bool, wd: T)
    requires rp < |ram| && wc < |ram|
    ensures
      var queue, ram' := Ring.Contents(ram, rp, wc), NextRam(ram, rp, wc, we, wd);
      if we && wc != |ram| - 1
      then Ring.Contents(ram', rp, wc + 1) == queue + [wd]
      else Ring.Contents(ram', rp, wc) == queue
  {
    hide Ring.Contents, Ring.Wrap;
    if we {
      Ring.WriteBeyond(ram, rp, wc, wc, wd);
      Ring.WriteAppends(ram, rp, wc, wd);
    }
  }

  lemma ClockMovesQueue<T>(ram: seq<T>, rp: nat, wc: nat, we: bool, wd: T, re: bool)
    requires rp < |ram| && wc < |ram|
    ensures
      var ram', stored := NextRam(ram, rp, wc, we, wd), if we && wc != |ram| - 1 then wc + 1 else wc;
      var next := NextQueue(|ram| - 1, Ring.Contents(ram, rp, wc), we, wd, re);
      if re && wc > 0
      then next == Ring.Contents(ram', Ring.Wrap(rp + 1, |ram|), stored - 1)
      else next == Ring.Contents(ram', rp, stored)
    ensures wc > 0 ==> Ring.Contents(ram, rp, wc)[0] == ram[rp]
  {
    hide Ring.Contents, Ring.Wrap;
    if wc > 0 {
      Ring.ReadDrops(ram, rp, wc);
    }
    var ram', stored := NextRam(ram, rp, wc, we, wd), if we && wc != |ram| - 1 then wc + 1 else wc;
    WriteEnds(ram, rp, wc, we, wd);
    if re && wc > 0 {
      Ring.ReadDrops(ram', rp, stored);
    }
  }

  datatype Inputs<T> = Inputs(we: bool, wd: T, re: bool)

  /** The queue after the first n clocks, the words that it took and those it gave. */
  function Run<T>(capacity: nat, inputs: seq<Inputs<T>>, n: nat): (seq<T>, seq<T>, seq<T>)
    requires n <= |inputs|
  {
    if n == 0 then ([], [], [])
    else
      var (queue, taken, given) := Run(capacity, inputs, n - 1);
      var i := inputs[n - 1];
      (NextQueue(capacity, queue, i.we, i.wd, i.re),
       taken + (if i.we && |queue| != capacity then [i.wd] else []),
       given + (if i.re && queue != [] then [queue[0]] else []))
  }

  /** No loss, duplication or reordering of the words taken, and never more than
      2^L-1 of them inside, over any run, also when a write meets a full queue and
      when a write and a read come together. */
  lemma {:induction false} RunConserves<T>(capacity: nat, inputs: seq<Inputs<T>>, n: nat)
    requires n <= |inputs|
    ensures
      var (queue, taken, given) := Run(capacity, inputs, n);
      taken == given + queue && |queue| <= capacity
  {
    if n > 0 {
      RunConserves(capacity, inputs, n - 1);
      var (queue, taken, given) := Run(capacity, inputs, n - 1);
      var i := inputs[n - 1];
      if i.re && queue != [] {
        assert given + queue == given + [queue[0]] + queue[1..];
      }
    }
  }

  class Fifo<T> {
    const log2Depth: nat
    const dpram: array<T>
    var rp: nat
    var wc: nat
    var rd: T
    var dav: bool
    // The words in the queue, oldest first.
    ghost var queue: seq<T>

    ghost predicate Valid()
      reads this, dpram
    {
      && log2Depth > 0
      && dpram.Length == Pow2(log2Depth) > 1
      && rp < dpram.Length && wc < dpram.Length
      && queue == Ring.Contents(dpram[..], rp, wc)
    }

    ghost function Capacity(): nat {
      Pow2(log2Depth) - 1
    }

    constructor (log2Depth: nat, idle: T)
      requires log2Depth > 0
      ensures Valid() && fresh(dpram) && this.log2Depth == log2Depth
      ensures queue == [] && !dav && rd == idle
    {
      this.log2Depth := log2Depth;
      dpram := new T[Pow2(log2Depth)](_ => idle);
      rp, wc, rd, dav, queue := 0, 0, idle, false, [];
    }

    predicate Full()
      requires Valid()
      reads this, dpram
      ensures Full() <==> |queue| == Capacity()
    {
      wc == dpram.Length - 1
    }

    predicate Empty()
      requires Valid()
      reads this, dpram
      ensures Empty() <==> queue == []
    {
      wc == 0
    }

    method Clock(we: bool, wd: T, re: bool)
      requires Valid()
      modifies this, dpram
      ensures Valid()
      ensures queue == NextQueue(Capacity(), old(queue), we, wd, re)
      ensures dav <==> re && old(queue) != []
      ensures dav ==> rd == old(queue)[0]
    {
      hide Ring.Contents, NextQueue, Pow2;
      ClockMovesQueue(dpram[..], rp, wc, we, wd, re);
      var full, empty := Full(), Empty();
      queue := NextQueue(Capacity(), queue, we, wd, re);
      var wp := Ring.Wrap(rp + wc, dpram.Length);
      rd := dpram[rp];
      if we {
        dpram[wp] := wd;
      }
      assert dpram[..] == NextRam(old(dpram[..]), rp, wc, we, wd);
      if !full && we && (empty || !re) {
        wc := wc + 1;
      } else if !empty && re && (full || !we) {
        wc := wc - 1;
      }
      if !empty && re {
        rp := Ring.Wrap(rp + 1, dpram.Length);
        dav := true;
      } else {
        dav := false;
      }
    }
  }
}
