/** The two circular memories of axis_fifo: the main one with a speculative and
    a committed write pointer, and the plain one of the output FIFO. */
module FrameMemory {
  import opened StreamFifo
  import Ring

  class Memory {
    const size: nat
    const mem: array<Beat>
    var wrPtr: nat
    var wrPtrCommit: nat
    var rdPtr: nat
    // The words between the pointers, oldest first.
    ghost var committed: seq<Beat>
    ghost var pending: seq<Beat>

    ghost predicate Valid()
      reads this, mem
    {
      && mem.Length == size > 0
      && Ring.InOrder(rdPtr, wrPtrCommit, wrPtr, size)
      && committed == Ring.Between(mem[..], rdPtr, wrPtrCommit)
      && pending == Ring.Between(mem[..], wrPtrCommit, wrPtr)
    }

    constructor (size: nat, idle: Beat)
      requires size > 0
      ensures Valid() && fresh(mem) && this.size == size
      ensures committed == [] && pending == []
    {
      this.size := size;
      mem := new Beat[size](_ => idle);
      wrPtr, wrPtrCommit, rdPtr := 0, 0, 0;
      committed, pending := [], [];
    }

    /** The write pointer equals the read pointer but for the top bit. */
    predicate Full()
      requires Valid()
      reads this, mem
      ensures Full() <==> |committed| + |pending| == size
    {
      Ring.FullTurn(wrPtr, rdPtr, size);
      wrPtr == Ring.FlipTop(rdPtr, size)
    }

    /** The uncommitted words alone fill the memory. */
    predicate FullFrame()
      requires Valid()
      reads this, mem
      ensures FullFrame() <==> |pending| == size
    {
      Ring.FullTurn(wrPtr, wrPtrCommit, size);
      wrPtr == Ring.FlipTop(wrPtrCommit, size)
    }

    predicate Empty()
      requires Valid()
      reads this, mem
      ensures Empty() <==> committed == []
    {
      Ring.FullTurn(wrPtrCommit, rdPtr, size);
      wrPtrCommit == rdPtr
    }

    function Count(): nat
      requires Valid()
      reads this, mem
      ensures Count() == |committed|
    {
      Ring.Ahead(wrPtrCommit, rdPtr, size)
    }

    method Store(word: Beat)
      requires Valid() && |committed| + |pending| < size
      modifies this`wrPtr, this`pending, mem
      ensures Valid()
      ensures pending == old(pending) + [word]
    {
      ghost var words, slot := mem[..], Ring.Wrap(wrPtr, size);
      Ring.StoreAppends(words, rdPtr, wrPtrCommit, wrPtr, word);
      Ring.StoreKeeps(words, rdPtr, wrPtrCommit, wrPtr, word);
      mem[Ring.Wrap(wrPtr, size)] := word;
      assert mem[..] == words[slot := word];
      wrPtr := Ring.Next(wrPtr, size);
      pending := pending + [word];
    }

    method Commit()
      requires Valid()
      modifies this`wrPtrCommit, this`committed, this`pending
      ensures Valid()
      ensures pending == []
      ensures committed == old(committed + pending)
    {
      Ring.Join(mem[..], rdPtr, wrPtrCommit, wrPtr);
      wrPtrCommit := wrPtr;
      committed, pending := committed + pending, [];
    }

    method Rollback()
      requires Valid()
      modifies this`wrPtr, this`pending
      ensures Valid()
      ensures pending == []
    {
      wrPtr := wrPtrCommit;
      pending := [];
    }

    /** The word at the read pointer; it is the oldest committed one, if any. */
    function Front(): Beat
      requires Valid()
      reads this, mem
      ensures committed != [] ==> Front() == committed[0]
    {
      assert committed != [] ==> committed[0] == mem[..][Ring.Wrap(Ring.Wrap(rdPtr, size) + 0, size)];
      mem[Ring.Wrap(rdPtr, size)]
    }

    method Advance()
      requires Valid() && committed != []
      modifies this`rdPtr, this`committed
      ensures Valid()
      ensures committed == old(committed)[1..]
    {
      Ring.FullTurn(wrPtrCommit, rdPtr, size);
      Ring.Fetch(mem[..], rdPtr, wrPtrCommit, wrPtr);
      rdPtr := Ring.Next(rdPtr, size);
      committed := committed[1..];
    }
  }
}
