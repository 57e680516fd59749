/** Circular memories: the contents of a ring as a sequence, and what a write
    at its end and a read at its start do to them. */
module Ring {

  function Wrap(i: nat, size: nat): (r: nat)
    requires i < 2 * size
    ensures r < size
  {
    if i < size then i else i - size
  }

  /** The n words that start at index `start`. */
  function Contents<T>(mem: seq<T>, start: nat, n: nat): (r: seq<T>)
    requires start < |mem| && n <= |mem|
    ensures |r| == n
    ensures forall k :: 0 <= k < n ==> r[k] == mem[Wrap(start + k, |mem|)]
  {
    seq(n, k requires 0 <= k < n => mem[Wrap(start + k, |mem|)])
  }

  lemma WriteAppends<T>(mem: seq<T>, start: nat, n: nat, x: T)
    requires start < |mem| && n < |mem|
    ensures Contents(mem[Wrap(start + n, |mem|) := x], start, n + 1) == Contents(mem, start, n) + [x]
  {
    WriteBeyond(mem, start, n, n, x);
    var mem' := mem[Wrap(start + n, |mem|) := x];
    assert Contents(mem', start, n + 1)[..n] == Contents(mem', start, n);
  }

  /** A write past the words in use leaves them alone. */
  lemma WriteBeyond<T>(mem: seq<T>, start: nat, n: nat, m: nat, x: T)
    requires start < |mem| && n <= m < |mem|
    ensures Contents(mem[Wrap(start + m, |mem|) := x], start, n) == Contents(mem, start, n)
  {
    var mem' := mem[Wrap(start + m, |mem|) := x];
    forall k | 0 <= k < n
      ensures Contents(mem', start, n)[k] == Contents(mem, start, n)[k]
    {
      assert Wrap(start + k, |mem|) != Wrap(start + m, |mem|);
    }
  }

  lemma ReadDrops<T>(mem: seq<T>, start: nat, n: nat)
    requires start < |mem| && 0 < n <= |mem|
    ensures Contents(mem, start, n)[0] == mem[start]
    ensures Contents(mem, Wrap(start + 1, |mem|), n - 1) == Contents(mem, start, n)[1..]
  {
    var rest := Contents(mem, start, n)[1..];
    assert Wrap(start + 0, |mem|) == start;
    forall k | 0 <= k < n - 1
      ensures Contents(mem, Wrap(start + 1, |mem|), n - 1)[k] == rest[k]
    {
      assert Wrap(Wrap(start + 1, |mem|) + k, |mem|) == Wrap(start + (k + 1), |mem|);
    }
  }

  lemma Split<T>(mem: seq<T>, start: nat, a: nat, b: nat)
    requires start < |mem| && a + b <= |mem| && a < |mem|
    ensures Contents(mem, start, a + b) == Contents(mem, start, a) + Contents(mem, Wrap(start + a, |mem|), b)
  {
    var front, back := Contents(mem, start, a), Contents(mem, Wrap(start + a, |mem|), b);
    forall k | 0 <= k < a + b
      ensures Contents(mem, start, a + b)[k] == (front + back)[k]
    {
      if k >= a {
        assert Wrap(start + k, |mem|) == Wrap(Wrap(start + a, |mem|) + (k - a), |mem|);
        assert (front + back)[k] == back[k - a];
      }
    }
  }

  /** A pointer one bit wider than the address: it counts modulo twice the size. */
  function Next(p: nat, size: nat): nat
    requires p < 2 * size
  {
    Wrap(p + 1, 2 * size)
  }

  /** How far pointer `a` is ahead of pointer `b`. */
  function Ahead(a: nat, b: nat, size: nat): nat
    requires a < 2 * size && b < 2 * size
  {
    if a >= b then a - b else a + 2 * size - b
  }

  /** The pointer with its top bit inverted. */
  function FlipTop(p: nat, size: nat): nat
    requires p < 2 * size
  {
    if p < size then p + size else p - size
  }

  /** Equal but for the top bit means exactly one full turn ahead. */
  lemma FullTurn(a: nat, b: nat, size: nat)
    requires a < 2 * size && b < 2 * size
    ensures a == FlipTop(b, size) <==> Ahead(a, b, size) == size
    ensures a == b <==> Ahead(a, b, size) == 0
  {
  }

  lemma AddressAhead(a: nat, b: nat, size: nat)
    requires a < 2 * size && b < 2 * size && Ahead(a, b, size) <= size
    ensures Ahead(a, b, size) < size ==>
              Wrap(a, size) == Wrap(Wrap(b, size) + Ahead(a, b, size), size)
    ensures Ahead(a, b, size) < size ==> Ahead(Next(a, size), b, size) == Ahead(a, b, size) + 1
    ensures Ahead(a, b, size) > 0 ==> && Ahead(a, Next(b, size), size) == Ahead(a, b, size) - 1
                                      && Wrap(Next(b, size), size) == Wrap(Wrap(b, size) + 1, size)
  {
  }

  /** The words between two pointers of a ring. */
  function Between<T>(mem: seq<T>, from: nat, to: nat): (r: seq<T>)
    requires from < 2 * |mem| && to < 2 * |mem| && Ahead(to, from, |mem|) <= |mem|
    ensures |r| == Ahead(to, from, |mem|)
  {
    Contents(mem, Wrap(from, |mem|), Ahead(to, from, |mem|))
  }

  /** Pointers rd, commit, wr delimit consecutive stretches of a ring. */
  predicate InOrder(rd: nat, commit: nat, wr: nat, size: nat) {
    && rd < 2 * size && commit < 2 * size && wr < 2 * size
    && Ahead(commit, rd, size) + Ahead(wr, commit, size) == Ahead(wr, rd, size) <= size
  }

  lemma StorePointers(rd: nat, commit: nat, wr: nat, size: nat)
    requires InOrder(rd, commit, wr, size) && Ahead(wr, rd, size) < size
    ensures InOrder(rd, commit, Next(wr, size), size)
    ensures Ahead(Next(wr, size), commit, size) == Ahead(wr, commit, size) + 1
    ensures Wrap(wr, size) == Wrap(Wrap(commit, size) + Ahead(wr, commit, size), size)
    ensures Wrap(wr, size) == Wrap(Wrap(rd, size) + Ahead(wr, rd, size), size)
  {
    AddressAhead(wr, commit, size);
    AddressAhead(wr, rd, size);
  }

  lemma StoreAppends<T>(mem: seq<T>, rd: nat, commit: nat, wr: nat, x: T)
    requires InOrder(rd, commit, wr, |mem|) && Ahead(wr, rd, |mem|) < |mem|
    ensures InOrder(rd, commit, Next(wr, |mem|), |mem|)
    ensures Between(mem[Wrap(wr, |mem|) := x], commit, Next(wr, |mem|)) == Between(mem, commit, wr) + [x]
  {
    StorePointers(rd, commit, wr, |mem|);
    WriteAppends(mem, Wrap(commit, |mem|), Ahead(wr, commit, |mem|), x);
  }

  lemma StoreKeeps<T>(mem: seq<T>, rd: nat, commit: nat, wr: nat, x: T)
    requires InOrder(rd, commit, wr, |mem|) && Ahead(wr, rd, |mem|) < |mem|
    ensures Between(mem[Wrap(wr, |mem|) := x], rd, commit) == Between(mem, rd, commit)
  {
    StorePointers(rd, commit, wr, |mem|);
    WriteBeyond(mem, Wrap(rd, |mem|), Ahead(commit, rd, |mem|), Ahead(wr, rd, |mem|), x);
  }

  lemma Join<T>(mem: seq<T>, rd: nat, commit: nat, wr: nat)
    requires InOrder(rd, commit, wr, |mem|)
    ensures Between(mem, rd, wr) == Between(mem, rd, commit) + Between(mem, commit, wr)
  {
    AddressAhead(commit, rd, |mem|);
    if Ahead(commit, rd, |mem|) < |mem| {
      Split(mem, Wrap(rd, |mem|), Ahead(commit, rd, |mem|), Ahead(wr, commit, |mem|));
    }
  }

  lemma Fetch<T>(mem: seq<T>, rd: nat, commit: nat, wr: nat)
    requires InOrder(rd, commit, wr, |mem|) && rd != commit
    ensures
      var rd' := Next(rd, |mem|);
      && InOrder(rd', commit, wr, |mem|)
      && Between(mem, rd, commit)[0] == mem[Wrap(rd, |mem|)]
      && Between(mem, rd', commit) == Between(mem, rd, commit)[1..]
  {
    AddressAhead(commit, rd, |mem|);
    ReadDrops(mem, Wrap(rd, |mem|), Ahead(commit, rd, |mem|));
  }
}
