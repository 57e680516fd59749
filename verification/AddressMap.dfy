/** The address map of the crossbar: default base addresses and the decode loop.
    Slot i*M_REGIONS+j is region j of master interface i; a slot of width 0 is
    not used. */
module AddressMap {
  import opened Common

  function AlignDown(x: nat, p: nat): nat
    requires p > 0
  {
    x - x % p
  }

  function Increment(base: nat, width: nat, space: nat): nat
    requires space > 0
  {
    (base + Pow2(width)) % space
  }

  /** The running base address after slot i; addresses wrap around at `space`. */
  function Base(widths: seq<nat>, space: nat, i: nat): nat
    requires space > 0 && i < |widths|
  {
    if i == 0 then 0
    else if widths[i] == 0 then Base(widths, space, i - 1)
    else AlignDown(Increment(Base(widths, space, i - 1), widths[i - 1], space), Pow2(widths[i]))
  }

  function DefaultBases(widths: seq<nat>, space: nat): (bases: seq<nat>)
    requires space > 0
    ensures |bases| == |widths|
    ensures forall i :: 0 <= i < |widths| ==> bases[i] == if widths[i] == 0 then 0 else Base(widths, space, i)
  {
    seq(|widths|, i requires 0 <= i < |widths| => if widths[i] == 0 then 0 else Base(widths, space, i))
  }

  /** The decode test: address and base agree above the slot's width. */
  predicate InSlot(widths: seq<nat>, bases: seq<nat>, i: nat, addr: nat)
    requires i < |widths| == |bases|
  {
    widths[i] != 0 && addr / Pow2(widths[i]) == bases[i] / Pow2(widths[i])
  }

  /** calcBaseAddrs. */
  method CalcBaseAddrs(widths: seq<nat>, addrWidth: nat) returns (bases: seq<nat>)
    ensures bases == DefaultBases(widths, Pow2(addrWidth))
  {
    hide AlignDown, Increment, Pow2;
    var space := Pow2(addrWidth);
    bases := seq(|widths|, _ => 0);
    var base, i := 0, 1;
    while i < |widths|
      invariant 1 <= i && (|widths| > 0 ==> i <= |widths| && base == Base(widths, space, i - 1))
      invariant |bases| == |widths|
      invariant forall k :: 0 <= k < |widths| ==>
                  bases[k] == if k >= i || widths[k] == 0 then 0 else Base(widths, space, k)
    {
      if widths[i] != 0 {
        base := Increment(base, widths[i - 1], space);
        base := AlignDown(base, Pow2(widths[i]));
        bases := bases[i := base];
      }
      i := i + 1;
    }
    assert bases == DefaultBases(widths, space);
  }

  /** The bytes taken by the used slots before slot n. */
  function Taken(widths: seq<nat>, n: nat): nat
    requires n <= |widths|
  {
    if n == 0 then 0
    else Taken(widths, n - 1) + (if widths[n - 1] == 0 then 0 else Pow2(widths[n - 1]))
  }

  lemma {:induction false} TakenGrows(widths: seq<nat>, i: nat, n: nat)
    requires i <= n <= |widths|
    ensures Taken(widths, i) <= Taken(widths, n)
    decreases n
  {
    if i < n {
      TakenGrows(widths, i, n - 1);
    }
  }

  /** Slot i, if used, follows a used slot with no gap, at a multiple of its own size. */
  predicate Packs(widths: seq<nat>, i: nat)
    requires i < |widths|
  {
    widths[i] != 0 && Taken(widths, i) > 0 ==>
      i > 0 && widths[i - 1] != 0 && Taken(widths, i) % Pow2(widths[i]) == 0
  }

  predicate Packed(widths: seq<nat>, n: nat)
    requires n <= |widths|
  {
    forall i :: 0 <= i < n ==> Packs(widths, i)
  }

  ghost predicate Overlap(widths: seq<nat>, bases: seq<nat>, i: nat, j: nat)
    requires i < |widths| == |bases| && j < |widths|
  {
    exists addr: nat :: InSlot(widths, bases, i, addr) && InSlot(widths, bases, j, addr)
  }

  /** No address falls into two of the first n slots. */
  ghost predicate Disjoint(widths: seq<nat>, bases: seq<nat>, n: nat)
    requires n <= |widths| == |bases|
  {
    forall i, j :: 0 <= i < j < n ==> !Overlap(widths, bases, i, j)
  }

  lemma Aligned(x: nat, p: nat)
    requires p > 0
    ensures AlignDown(x, p) % p == 0 && AlignDown(x, p) <= x < AlignDown(x, p) + p
  {
    var q := x / p;
    assert x == p * q + x % p;
    assert AlignDown(x, p) == p * q;
    assert (p * q) % p == 0 by { MulMod(p, q); }
  }

  lemma {:induction false} MulMod(p: nat, q: nat)
    requires p > 0
    ensures (p * q) % p == 0 && (p * q) / p == q
  {
    assert p * q == q * p + 0;
    DivUnique(p * q, p, q, 0);
  }

  /** At an aligned base the decode test is a range check. */
  lemma SlotIsRange(base: nat, p: nat, addr: nat)
    requires p > 0 && base % p == 0
    ensures addr / p == base / p <==> base <= addr < base + p
  {
    var q := base / p;
    assert base == q * p;
    if base <= addr < base + p {
      DivUnique(addr, p, q, addr - base);
    }
    if addr / p == q {
      assert addr == q * p + addr % p;
    }
  }

  /** The total of all used slots fits the address space. */
  predicate Fits(widths: seq<nat>, space: nat) {
    Taken(widths, |widths|) <= space
  }

  lemma SlotFits(widths: seq<nat>, space: nat, i: nat)
    requires i < |widths| && Fits(widths, space)
    ensures Taken(widths, i) + (if widths[i] == 0 then 0 else Pow2(widths[i])) <= space
  {
    TakenGrows(widths, i + 1, |widths|);
  }

  lemma Pow2Even(w: nat)
    requires w > 0
    ensures Pow2(w) % 2 == 0 && Pow2(w) >= 2
  {
    var half := Pow2(w - 1);
    assert Pow2(w) == 2 * half;
  }

  lemma EvenMultiple(x: nat, w: nat)
    requires w > 0 && x % Pow2(w) == 0
    ensures x % 2 == 0
  {
    var q := x / Pow2(w);
    assert x == (2 * Pow2(w - 1)) * q == 2 * (Pow2(w - 1) * q);
  }

  lemma {:induction false} BaseIsAligned(widths: seq<nat>, space: nat, i: nat)
    requires space > 0 && i < |widths|
    ensures widths[i] != 0 ==> Base(widths, space, i) % Pow2(widths[i]) == 0
    ensures Base(widths, space, i) % 2 == 0
  {
    hide AlignDown, Increment, Pow2;
    if i == 0 {
      Small(0, Pow2(widths[0]));
    } else if widths[i] == 0 {
      BaseIsAligned(widths, space, i - 1);
    } else {
      Aligned(Increment(Base(widths, space, i - 1), widths[i - 1], space), Pow2(widths[i]));
      EvenMultiple(Base(widths, space, i), widths[i]);
    }
  }

  lemma BaseStep(widths: seq<nat>, space: nat, i: nat)
    requires 0 < i < |widths| && space > 0 && widths[i] != 0
    requires Base(widths, space, i - 1) + Pow2(widths[i - 1]) < space
    ensures
      var base := Base(widths, space, i - 1) + Pow2(widths[i - 1]);
      && Base(widths, space, i) == AlignDown(base, Pow2(widths[i]))
      && Base(widths, space, i) <= base < Base(widths, space, i) + Pow2(widths[i])
  {
    hide AlignDown, Pow2;
    var base := Base(widths, space, i - 1) + Pow2(widths[i - 1]);
    Small(base, space);
    Aligned(base, Pow2(widths[i]));
  }

  lemma Small(x: nat, space: nat)
    requires x < space
    ensures x % space == x
  {
    DivUnique(x, space, 0, x);
  }

  /** Slots that follow unused ones start no later than where the base stood. */
  lemma AfterGap(widths: seq<nat>, space: nat, i: nat)
    requires 0 < i < |widths| && space > 0 && widths[i] != 0 && widths[i - 1] == 0
    requires Base(widths, space, i - 1) + 1 < space
    ensures Base(widths, space, i) <= Base(widths, space, i - 1) < Base(widths, space, i) + Pow2(widths[i])
  {
    BaseIsAligned(widths, space, i - 1);
    BaseIsAligned(widths, space, i);
    assert Pow2(0) == 1;
    BaseStep(widths, space, i);
  }

  lemma {:induction false} BaseBounded(widths: seq<nat>, space: nat, i: nat)
    requires space > 0 && i < |widths| && Fits(widths, space)
    ensures Base(widths, space, i) <= Taken(widths, i)
  {
    if i > 0 {
      BaseBounded(widths, space, i - 1);
      SlotFits(widths, space, i);
      if widths[i] != 0 {
        hide AlignDown, Base, Fits;
        Pow2Even(widths[i]);
        if widths[i - 1] == 0 {
          AfterGap(widths, space, i);
        } else {
          BaseStep(widths, space, i);
        }
      }
    }
  }

  lemma {:induction false} LeadingUnused(widths: seq<nat>, space: nat, i: nat)
    requires space > 0 && i < |widths| && Fits(widths, space) && Taken(widths, i) == 0
    ensures Base(widths, space, i) == 0
  {
    BaseBounded(widths, space, i);
  }

  /** As long as the slots pack, each one starts where the ones before it end. */
  lemma {:induction false} PackedBase(widths: seq<nat>, space: nat, i: nat)
    requires space > 0 && i < |widths| && Fits(widths, space)
    requires Packed(widths, i + 1) && widths[i] != 0
    ensures Base(widths, space, i) == Taken(widths, i)
  {
    if Taken(widths, i) == 0 {
      LeadingUnused(widths, space, i);
    } else {
      assert Packs(widths, i);
      PackedBase(widths, space, i - 1);
      SlotFits(widths, space, i);
      hide Base, Fits, Pow2, Packed;
      assert Base(widths, space, i - 1) + Pow2(widths[i - 1]) == Taken(widths, i);
      BaseStep(widths, space, i);
    }
  }

  lemma PackedApart(widths: seq<nat>, space: nat, i: nat, j: nat)
    requires space > 0 && Fits(widths, space)
    requires i < j < |widths| && Packed(widths, j + 1) && widths[i] != 0 && widths[j] != 0
    ensures Base(widths, space, i) + Pow2(widths[i]) <= Base(widths, space, j)
  {
    hide Base, Fits;
    PackedBase(widths, space, i);
    PackedBase(widths, space, j);
    TakenGrows(widths, i + 1, j);
  }

  lemma PackedDisjoint(widths: seq<nat>, space: nat, n: nat)
    requires space > 0 && Fits(widths, space)
    requires n <= |widths| && Packed(widths, n)
    ensures Disjoint(widths, DefaultBases(widths, space), n)
  {
    hide Base, Fits, Taken, Pow2, Packs;
    forall i, j, addr: nat | 0 <= i < j < n && InSlot(widths, DefaultBases(widths, space), i, addr)
      ensures !InSlot(widths, DefaultBases(widths, space), j, addr)
    {
      Range(widths, space, i, addr);
      if widths[j] != 0 {
        Range(widths, space, j, addr);
        PackedApart(widths, space, i, j);
      }
    }
  }

  /** A used slot is exactly the range of its size that starts at its base. */
  lemma Range(widths: seq<nat>, space: nat, i: nat, addr: nat)
    requires space > 0 && i < |widths| && widths[i] != 0
    ensures InSlot(widths, DefaultBases(widths, space), i, addr)
            <==> Base(widths, space, i) <= addr < Base(widths, space, i) + Pow2(widths[i])
  {
    BaseIsAligned(widths, space, i);
    SlotIsRange(Base(widths, space, i), Pow2(widths[i]), addr);
  }

  lemma {:induction false} LastUsed(widths: seq<nat>, space: nat, i: nat) returns (j: nat)
    requires space > 0 && i < |widths| && Taken(widths, i + 1) > 0
    ensures j <= i && widths[j] != 0 && Base(widths, space, j) == Base(widths, space, i)
  {
    if widths[i] != 0 {
      j := i;
    } else {
      j := LastUsed(widths, space, i - 1);
    }
  }

  lemma NotPackedOverlaps(widths: seq<nat>, space: nat, i: nat)
    requires space > 0 && Fits(widths, space)
    requires i < |widths| && Packed(widths, i) && !Packs(widths, i)
    ensures exists j :: 0 <= j < i && Overlap(widths, DefaultBases(widths, space), j, i)
  {
    hide Base, Packs, Fits, Pow2, Taken, InSlot;
    var j, addr := SharedAddress(widths, space, i);
    Range(widths, space, i, addr);
    Range(widths, space, j, addr);
    assert Overlap(widths, DefaultBases(widths, space), j, i);
  }

  lemma {:induction false} DisjointPacked(widths: seq<nat>, space: nat, n: nat)
    requires space > 0 && Fits(widths, space)
    requires n <= |widths| && Disjoint(widths, DefaultBases(widths, space), n)
    ensures Packed(widths, n)
  {
    hide Packs, Fits, Base, Overlap;
    if n > 0 {
      DisjointPacked(widths, space, n - 1);
      if !Packs(widths, n - 1) {
        NotPackedOverlaps(widths, space, n - 1);
      }
    }
  }

  /** A slot that does not pack shares an address with an earlier one. */
  lemma SharedAddress(widths: seq<nat>, space: nat, i: nat) returns (j: nat, addr: nat)
    requires space > 0 && i < |widths| && Fits(widths, space)
    requires Packed(widths, i) && !Packs(widths, i)
    ensures j < i && widths[j] != 0 && widths[i] != 0
    ensures Base(widths, space, i) <= addr < Base(widths, space, i) + Pow2(widths[i])
    ensures Base(widths, space, j) <= addr < Base(widths, space, j) + Pow2(widths[j])
  {
    hide Base, Fits, AlignDown;
    SlotFits(widths, space, i);
    if widths[i - 1] == 0 {
      j := LastUsed(widths, space, i - 1);
      BaseBounded(widths, space, i - 1);
      Pow2Even(widths[i]);
      AfterGap(widths, space, i);
      addr := Base(widths, space, j);
    } else {
      j := i - 1;
      PackedBase(widths, space, j);
      BaseStep(widths, space, i);
      Aligned(Taken(widths, i), Pow2(widths[i]));
      addr := Taken(widths, i) - 1;
    }
  }

  /** The default map has no overlap if and only if the slots pack: no unused slot
      between used ones, and each used slot's predecessors add up to a multiple
      of its size. */
  lemma DisjointExactlyWhenPacked(widths: seq<nat>, space: nat)
    requires space > 0 && Fits(widths, space)
    ensures Disjoint(widths, DefaultBases(widths, space), |widths|) <==> Packed(widths, |widths|)
  {
    if Packed(widths, |widths|) {
      PackedDisjoint(widths, space, |widths|);
    }
    if Disjoint(widths, DefaultBases(widths, space), |widths|) {
      DisjointPacked(widths, space, |widths|);
    }
  }

  lemma SumOfMultiples(x: nat, p: nat, m: nat)
    requires p > 0 && x % p == 0
    ensures (x + p * m) % p == 0
  {
    var q := x / p;
    assert x == q * p;
    assert x + p * m == (q + m) * p;
    DivUnique(x + p * m, p, q + m, 0);
  }

  lemma Pow2Multiple(w: nat, v: nat, x: nat)
    requires w <= v && x % Pow2(w) == 0
    ensures (x + Pow2(v)) % Pow2(w) == 0
  {
    assert v == w + (v - w);
    Pow2Sum(w, v - w);
    hide Pow2;
    SumOfMultiples(x, Pow2(w), Pow2(v - w));
  }

  lemma {:induction false} TakenMultiple(widths: seq<nat>, n: nat, w: nat)
    requires n <= |widths| && 0 < w && forall k :: 0 <= k < n ==> w <= widths[k]
    ensures Taken(widths, n) % Pow2(w) == 0
  {
    hide Pow2;
    if n > 0 {
      TakenMultiple(widths, n - 1, w);
      Pow2Multiple(w, widths[n - 1], Taken(widths, n - 1));
    } else {
      Small(0, Pow2(w));
    }
  }

  /** Used slots of non-increasing size that fit the space never overlap. */
  lemma NonIncreasingIsDisjoint(widths: seq<nat>, space: nat)
    requires space > 0 && Fits(widths, space)
    requires forall i :: 0 <= i < |widths| ==> widths[i] > 0
    requires forall i, j :: 0 <= i < j < |widths| ==> widths[i] >= widths[j]
    ensures Disjoint(widths, DefaultBases(widths, space), |widths|)
  {
    forall i | 0 <= i < |widths|
      ensures Packs(widths, i)
    {
      TakenMultiple(widths, i, widths[i]);
    }
    DisjointExactlyWhenPacked(widths, space);
  }

  /** The default map is not always free of overlaps: a larger region after a
      smaller one is aligned down onto it. */
  lemma LargerRegionOverlaps(space: nat)
    requires space > 0 && Fits([12, 24], space) 
    ensures !Disjoint([12, 24], DefaultBases([12, 24], space), 2)
  {
    var widths: seq<nat> := [12, 24];
    assert Taken(widths, 1) == Taken(widths, 0) + Pow2(12);
    assert Taken(widths, 0) == 0;
    Pow2Monotonic(13, 24);
    assert Pow2(13) == 2 * Pow2(12);
    hide Pow2, Taken, Base;
    Small(Pow2(12), Pow2(24));
    assert !Packs(widths, 1);
    DisjointExactlyWhenPacked(widths, space);
  }

  /** And after an unused slot the base advances by a single byte. */
  lemma UnusedSlotOverlaps(space: nat)
    requires space > 0 && Fits([24, 0, 24], space) 
    ensures !Disjoint([24, 0, 24], DefaultBases([24, 0, 24], space), 3)
  {
    var widths: seq<nat> := [24, 0, 24];
    assert Taken(widths, 2) == Taken(widths, 1) == Taken(widths, 0) + Pow2(24);
    assert !Packs(widths, 2);
    DisjointExactlyWhenPacked(widths, space);
  }

  // Decoding an address

  /** The parameters the decode loop reads, for one slave interface: whether each
      master interface is secure and whether it is connected. */
  datatype Map = Map(regions: nat, widths: seq<nat>, bases: seq<nat>, secure: seq<bool>, connect: seq<bool>)

  predicate ValidMap(amap: Map) {
    && amap.regions > 0
    && |amap.secure| == |amap.connect|
    && |amap.widths| == |amap.bases| == |amap.secure| * amap.regions
  }

  function Slot(amap: Map, i: nat, j: nat): (k: nat)
    requires ValidMap(amap) && i < |amap.secure| && j < amap.regions
    ensures k < |amap.widths|
  {
    SlotBound(i, |amap.secure|, j, amap.regions);
    i * amap.regions + j
  }

  lemma SlotBound(i: nat, n: nat, j: nat, regions: nat)
    requires i < n && j < regions
    ensures i * regions + j < n * regions
  {
    AtLeast(n - i, regions);
    assert (n - i) * regions == n * regions - i * regions;
  }

  /** The address belongs to region j of master interface i, and this access may go there. */
  predicate Hits(amap: Map, nonsecure: bool, addr: nat, i: nat, j: nat)
    requires ValidMap(amap) && i < |amap.secure| && j < amap.regions
  {
    && InSlot(amap.widths, amap.bases, Slot(amap, i, j), addr)
    && (!amap.secure[i] || !nonsecure)
    && amap.connect[i]
  }

  /** (i, j) comes before (i', j') in the order of the loops. */
  predicate Before(i: nat, j: nat, i': nat, j': nat) {
    i < i' || (i == i' && j < j')
  }

  /** No hit from (i, j) on and before (i', j'). */
  predicate NoHit(amap: Map, nonsecure: bool, addr: nat, i: nat, j: nat, i': nat, j': nat)
    requires ValidMap(amap)
  {
    forall p, q :: 0 <= p < |amap.secure| && 0 <= q < amap.regions ==>
      (Before(p, q, i', j') && !Before(p, q, i, j) ==> !Hits(amap, nonsecure, addr, p, q))
  }

  predicate LastHit(amap: Map, nonsecure: bool, addr: nat, i': nat, j': nat, hit: Option<(nat, nat)>)
    requires ValidMap(amap)
  {
    match hit
    case Some((select, region)) =>
      && select < |amap.secure| && region < amap.regions
      && Before(select, region, i', j')
      && Hits(amap, nonsecure, addr, select, region)
      && NoHit(amap, nonsecure, addr, select, region + 1, i', j')
    case None =>
      NoHit(amap, nonsecure, addr, 0, 0, i', j')
  }

  /** The access may go to region j of master interface i: the address lies in the
      used range there, the two are connected, and it is not a non-secure access to
      a secure interface. */
  predicate Serves(amap: Map, nonsecure: bool, addr: nat, i: nat, j: nat)
    requires ValidMap(amap)
  {
    && i < |amap.secure| && j < amap.regions
    && var k := Slot(amap, i, j);
    var first := AlignDown(amap.bases[k], Pow2(amap.widths[k]));
    && amap.widths[k] > 0 && first <= addr < first + Pow2(amap.widths[k])
    && amap.connect[i] && !(amap.secure[i] && nonsecure)
  }

  lemma HitsExactly(amap: Map, nonsecure: bool, addr: nat, i: nat, j: nat)
    requires ValidMap(amap) && i < |amap.secure| && j < amap.regions
    ensures Hits(amap, nonsecure, addr, i, j) <==> Serves(amap, nonsecure, addr, i, j)
  {
    var k := Slot(amap, i, j);
    var size := Pow2(amap.widths[k]);
    Aligned(amap.bases[k], size);
    SameAligned(amap.bases[k], size);
    SlotIsRange(AlignDown(amap.bases[k], size), size, addr);
  }

  lemma SameAligned(x: nat, p: nat)
    requires p > 0
    ensures AlignDown(x, p) / p == x / p
  {
    var q := x / p;
    assert x == p * q + x % p;
    MulMod(p, q);
    assert AlignDown(x, p) == p * q;
  }

  /** What the loops find is a slot that serves the access, the last one of these;
      they find none only if there is none, and in a map without overlaps the only one. */
  ghost predicate Found(amap: Map, nonsecure: bool, addr: nat, hit: Option<(nat, nat)>)
    requires ValidMap(amap)
  {
    match hit
    case Some((select, region)) =>
      && Serves(amap, nonsecure, addr, select, region)
      && forall i: nat, j: nat :: Serves(amap, nonsecure, addr, i, j) ==> Slot(amap, i, j) <= Slot(amap, select, region)
    case None =>
      forall i: nat, j: nat :: !Serves(amap, nonsecure, addr, i, j)
  }

  lemma LastHitIsFound(amap: Map, nonsecure: bool, addr: nat, hit: Option<(nat, nat)>)
    requires ValidMap(amap) && LastHit(amap, nonsecure, addr, |amap.secure|, 0, hit)
    ensures Found(amap, nonsecure, addr, hit)
  {
    hide Hits, Slot;
    if hit.Some? {
      HitsExactly(amap, nonsecure, addr, hit.value.0, hit.value.1);
    }
    forall i: nat, j: nat | Serves(amap, nonsecure, addr, i, j)
      ensures hit.Some? && Slot(amap, i, j) <= Slot(amap, hit.value.0, hit.value.1)
    {
      ServesHits(amap, nonsecure, addr, i, j);
      assert hit.Some?;
      assert !Before(hit.value.0, hit.value.1, i, j);
      SlotsInOrder(amap, i, j, hit.value.0, hit.value.1);
    }
  }

  lemma ServesHits(amap: Map, nonsecure: bool, addr: nat, i: nat, j: nat)
    requires ValidMap(amap) && Serves(amap, nonsecure, addr, i, j)
    ensures i < |amap.secure| && j < amap.regions && Hits(amap, nonsecure, addr, i, j)
  {
    HitsExactly(amap, nonsecure, addr, i, j);
  }

  lemma SlotsInOrder(amap: Map, i: nat, j: nat, i': nat, j': nat)
    requires ValidMap(amap) && i < |amap.secure| && j < amap.regions && i' < |amap.secure| && j' < amap.regions
    requires !Before(i', j', i, j)
    ensures Slot(amap, i, j) <= Slot(amap, i', j')
  {
    if i < i' {
      AtLeast(i' - i, amap.regions);
      assert (i' - i) * amap.regions == i' * amap.regions - i * amap.regions;
    }
  }

  lemma FoundIsUnique(amap: Map, nonsecure: bool, addr: nat, hit: Option<(nat, nat)>, i: nat, j: nat)
    requires ValidMap(amap) && Found(amap, nonsecure, addr, hit)
    requires Disjoint(amap.widths, amap.bases, |amap.widths|) && Serves(amap, nonsecure, addr, i, j)
    ensures hit == Some((i, j))
  {
    hide Slot, Disjoint, Hits;
    ServesHits(amap, nonsecure, addr, i, j);
    ServesHits(amap, nonsecure, addr, hit.value.0, hit.value.1);
    HitIsUnique(amap, nonsecure, addr, i, j, hit.value.0, hit.value.1);
  }

  /** The decode loops. */
  method Decode(amap: Map, nonsecure: bool, addr: nat) returns (hit: Option<(nat, nat)>)
    requires ValidMap(amap)
    ensures LastHit(amap, nonsecure, addr, |amap.secure|, 0, hit)
    ensures Found(amap, nonsecure, addr, hit)
    ensures Disjoint(amap.widths, amap.bases, |amap.widths|) ==>
              forall i: nat, j: nat :: Serves(amap, nonsecure, addr, i, j) ==> hit == Some((i, j))
  {
    hide Hits, Found, Serves;
    hit := None;
    var i := 0;
    while i < |amap.secure|
      invariant 0 <= i <= |amap.secure|
      invariant LastHit(amap, nonsecure, addr, i, 0, hit)
    {
      var j := 0;
      while j < amap.regions
        invariant 0 <= j <= amap.regions
        invariant LastHit(amap, nonsecure, addr, i, j, hit)
      {
        if Hits(amap, nonsecure, addr, i, j) {
          hit := Some((i, j));
        }
        j := j + 1;
      }
      i := i + 1;
    }
    LastHitIsFound(amap, nonsecure, addr, hit);
    if Disjoint(amap.widths, amap.bases, |amap.widths|) {
      forall i: nat, j: nat | Serves(amap, nonsecure, addr, i, j)
        ensures hit == Some((i, j))
      {
        FoundIsUnique(amap, nonsecure, addr, hit, i, j);
      }
    }
  }

  // The crossbar behind BAR 0: any number of interfaces of 256 bytes, one region each

  function BarMap(n: nat, space: nat): (amap: Map)
    requires space > 0
    ensures ValidMap(amap)
  {
    var widths := seq(n, _ => 8);
    Map(1, widths, DefaultBases(widths, space), seq(n, _ => false), seq(n, _ => true))
  }

  lemma Page()
    ensures Pow2(8) == 256
  {
    assert Pow2(2) == 4 && Pow2(4) == 16;
  }

  lemma BarStep(space: nat, i: nat)
    requires 256 * i + 256 < space
    ensures AlignDown(Increment(256 * i, 8, space), Pow2(8)) == 256 * (i + 1)
  {
    Page();
    hide Pow2;
    Small(256 * (i + 1), space);
    BarSlot(i + 1, 0);
  }

  lemma {:induction false} BarBase(n: nat, space: nat, i: nat)
    requires i < n && 256 * n <= space
    ensures Base(seq(n, _ => 8), space, i) == 256 * i
  {
    if i > 0 {
      hide AlignDown, Increment, Pow2;
      BarBase(n, space, i - 1);
      BarStep(space, i - 1);
    }
  }

  lemma BarServes(n: nat, space: nat, nonsecure: bool, addr: nat, i: nat, j: nat)
    requires 0 < 256 * n <= space
    ensures Serves(BarMap(n, space), nonsecure, addr, i, j) <==> i < n && j == 0 && addr / 256 == i
  {
    hide Base, Pow2, AlignDown;
    Page();
    if i < n && j == 0 {
      BarBase(n, space, i);
      BarSlot(i, addr);
    }
  }

  lemma BarSlot(i: nat, addr: nat)
    ensures AlignDown(256 * i, 256) == 256 * i
    ensures 256 * i <= addr < 256 * i + 256 <==> addr / 256 == i
  {
  }

  /** Every address below 256 times their number goes to the interface it belongs to,
      with any access, and all others to none. */
  lemma BarDecodes(n: nat, space: nat, nonsecure: bool, addr: nat, hit: Option<(nat, nat)>)
    requires 0 < 256 * n <= space && LastHit(BarMap(n, space), nonsecure, addr, n, 0, hit)
    ensures hit == if addr < 256 * n then Some((addr / 256, 0)) else None
  {
    var amap := BarMap(n, space);
    hide Serves, Slot, LastHit;
    LastHitIsFound(amap, nonsecure, addr, hit);
    BarServes(n, space, nonsecure, addr, addr / 256, 0);
    if hit.Some? {
      BarServes(n, space, nonsecure, addr, hit.value.0, hit.value.1);
    }
    hide BarMap;
  }

  /** In a map without overlaps an address hits at most one slot, so the decode
      loops find the only one and their order does not matter. */
  lemma HitIsUnique(amap: Map, nonsecure: bool, addr: nat, i: nat, j: nat, i': nat, j': nat)
    requires ValidMap(amap) && Disjoint(amap.widths, amap.bases, |amap.widths|)
    requires i < |amap.secure| && j < amap.regions && Hits(amap, nonsecure, addr, i, j)
    requires i' < |amap.secure| && j' < amap.regions && Hits(amap, nonsecure, addr, i', j')
    ensures i == i' && j == j'
  {
    var k, k' := Slot(amap, i, j), Slot(amap, i', j');
    if k != k' {
      assert Overlap(amap.widths, amap.bases, k, k') && Overlap(amap.widths, amap.bases, k', k);
    }
    QuotientsAgree(i, i', j, j', amap.regions);
  }
}
