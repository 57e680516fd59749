/** The scatter-gather record list of a locked user buffer: how the mapped segments
    are cut into page-sized records, and how a request marks the records it uses. */
module ScatterGather {
  import opened Common

  const PAGE_SIZE: nat := 4096
  const WORD_VALUES: nat := 0x1_0000_0000

  /** A mapped segment: DMA address and length. */
  datatype Segment = Segment(address: nat, len: nat)

  /** address_low carries two flags in its low bits: 1 for the last record of a
      transfer, 2 for the first. */
  datatype Record = Record(low: nat, high: nat, size: nat)

  /** Bit 0 of address_low. */
  predicate IsLast(r: Record) {
    r.low % 4 == 1 || r.low % 4 == 3
  }

  /** Bit 1 of address_low. */
  predicate IsFirst(r: Record) {
    r.low % 4 >= 2
  }

  function Address(r: Record): nat {
    r.high * WORD_VALUES + (r.low - r.low % 4)
  }

  lemma LowBits(q: nat, b: nat)
    requires b < 4
    ensures (4 * q + b) % 4 == b
  {
  }

  function ClearLast(r: Record): (r': Record)
    ensures !IsLast(r') && IsFirst(r') == IsFirst(r) && Address(r') == Address(r) && r'.size == r.size
  {
    LowBits(r.low / 4, if IsFirst(r) then 2 else 0);
    r.(low := r.low / 4 * 4 + if IsFirst(r) then 2 else 0)
  }

  function SetLast(r: Record): (r': Record)
    ensures IsLast(r') && IsFirst(r') == IsFirst(r) && Address(r') == Address(r) && r'.size == r.size
  {
    LowBits(r.low / 4, if IsFirst(r) then 3 else 1);
    r.(low := r.low / 4 * 4 + if IsFirst(r) then 3 else 1)
  }

  function SetFirst(r: Record): (r': Record)
    ensures IsFirst(r') && IsLast(r') == IsLast(r) && Address(r') == Address(r) && r'.size == r.size
  {
    LowBits(r.low / 4, if IsLast(r) then 3 else 2);
    r.(low := r.low / 4 * 4 + if IsLast(r) then 3 else 2)
  }

  /** The byte addresses of one stretch of memory. */
  function Bytes(address: nat, len: nat): (b: seq<nat>)
    ensures |b| == len
    ensures forall k :: 0 <= k < len ==> b[k] == address + k
  {
    seq(len, k requires 0 <= k < len => address + k)
  }

  function SegmentBytes(segs: seq<Segment>): seq<nat> {
    if segs == [] then []
    else SegmentBytes(segs[..|segs| - 1]) + Bytes(segs[|segs| - 1].address, segs[|segs| - 1].len)
  }

  function RecordBytes(recs: seq<Record>): seq<nat> {
    if recs == [] then []
    else RecordBytes(recs[..|recs| - 1]) + Bytes(Address(recs[|recs| - 1]), recs[|recs| - 1].size)
  }

  /** What a locked buffer is mapped to: page-aligned 64-bit segments, none empty, and
      all but the last a multiple of the page size. */
  predicate Mapped(segs: seq<Segment>) {
    forall k :: 0 <= k < |segs| ==>
      && 0 < segs[k].len < WORD_VALUES
      && segs[k].address % PAGE_SIZE == 0 && segs[k].address + segs[k].len <= WORD_VALUES * WORD_VALUES
      && (k < |segs| - 1 ==> segs[k].len % PAGE_SIZE == 0)
  }

  function PagesIn(len: nat): nat {
    (len + PAGE_SIZE - 1) / PAGE_SIZE
  }

  /** The number of records allocated: one per page of the buffer, and at least one. */
  function NumOfRec(bufferSize: nat): nat {
    if bufferSize < PAGE_SIZE then 1
    else bufferSize / PAGE_SIZE + (if bufferSize % PAGE_SIZE > 0 then 1 else 0)
  }

  function TotalLen(segs: seq<Segment>): nat {
    if segs == [] then 0 else TotalLen(segs[..|segs| - 1]) + segs[|segs| - 1].len
  }

  function NewRecord(address: nat, size: nat): Record {
    Record(address % WORD_VALUES, address / WORD_VALUES % WORD_VALUES, size)
  }

  lemma NewRecordAddress(address: nat, size: nat)
    requires address % PAGE_SIZE == 0 && address < WORD_VALUES * WORD_VALUES
    ensures Address(NewRecord(address, size)) == address
    ensures !IsLast(NewRecord(address, size)) && !IsFirst(NewRecord(address, size))
  {
    var h, q := address / WORD_VALUES, address / PAGE_SIZE;
    assert h < WORD_VALUES;
    assert address % WORD_VALUES == 4 * (1024 * q - 0x4000_0000 * h);
    LowBits(1024 * q - 0x4000_0000 * h, 0);
  }

  lemma RecordBytesGrow(recs: seq<Record>, r: Record)
    ensures RecordBytes(recs + [r]) == RecordBytes(recs) + Bytes(Address(r), r.size)
  {
    assert (recs + [r])[..|recs|] == recs;
  }

  /** The bytes of the records' pages, whatever their sizes say. */
  function PageBytes(recs: seq<Record>): (b: seq<nat>)
    ensures |b| == |recs| * PAGE_SIZE
  {
    if recs == [] then []
    else PageBytes(recs[..|recs| - 1]) + Bytes(Address(recs[|recs| - 1]), PAGE_SIZE)
  }

  /** All but the last record are full pages. */
  predicate Paged(recs: seq<Record>) {
    forall k :: 0 <= k < |recs| ==> recs[k].size <= PAGE_SIZE && (k < |recs| - 1 ==> recs[k].size == PAGE_SIZE)
  }

  predicate SamePages(a: seq<Record>, b: seq<Record>) {
    |a| == |b| && forall k :: 0 <= k < |a| ==> Address(a[k]) == Address(b[k])
  }

  function PagedLen(recs: seq<Record>): int {
    if recs == [] then 0 else (|recs| - 1) * PAGE_SIZE + recs[|recs| - 1].size
  }

  lemma {:induction false} FullBytes(recs: seq<Record>)
    requires forall k :: 0 <= k < |recs| ==> recs[k].size == PAGE_SIZE
    ensures RecordBytes(recs) == PageBytes(recs)
  {
    if recs != [] {
      FullBytes(recs[..|recs| - 1]);
    }
  }

  /** Paged records are the beginning of their pages. */
  lemma PagedBytes(recs: seq<Record>)
    requires Paged(recs)
    ensures 0 <= PagedLen(recs) <= |PageBytes(recs)|
    ensures RecordBytes(recs) == PageBytes(recs)[..PagedLen(recs)]
  {
    if recs != [] {
      var n, last := |recs| - 1, recs[|recs| - 1];
      FullBytes(recs[..n]);
      BytesSplit(Address(last), last.size, PAGE_SIZE - last.size);
      assert Bytes(Address(last), last.size) == Bytes(Address(last), PAGE_SIZE)[..last.size];
    }
  }

  lemma {:induction false} PagesSame(a: seq<Record>, b: seq<Record>)
    requires SamePages(a, b)
    ensures PageBytes(a) == PageBytes(b)
  {
    if a != [] {
      PagesSame(a[..|a| - 1], b[..|b| - 1]);
    }
  }

  lemma {:induction false} PagesPrefix(recs: seq<Record>, n: nat)
    requires n <= |recs|
    ensures n * PAGE_SIZE <= |PageBytes(recs)| && PageBytes(recs[..n]) == PageBytes(recs)[..n * PAGE_SIZE]
  {
    if n < |recs| {
      PagesPrefix(recs[..|recs| - 1], n);
      assert recs[..|recs| - 1][..n] == recs[..n];
    } else {
      assert recs[..n] == recs;
    }
  }

  lemma BytesSplit(address: nat, a: nat, b: nat)
    ensures Bytes(address, a + b) == Bytes(address, a) + Bytes(address + a, b)
  {
  }

  lemma {:induction false} RecordBytesJoin(a: seq<Record>, b: seq<Record>)
    ensures RecordBytes(a + b) == RecordBytes(a) + RecordBytes(b)
  {
    if b == [] {
      assert a + b == a;
    } else {
      var n, last := |b| - 1, b[|b| - 1];
      RecordBytesJoin(a, b[..n]);
      assert (a + b)[..|a| + n] == a + b[..n];
      Associate(RecordBytes(a), RecordBytes(b[..n]), Bytes(Address(last), last.size));
    }
  }

  /** The records of one segment, and of all segments. */
  function Cut(address: nat, len: nat): seq<Record>
    decreases len
  {
    if len == 0 then []
    else
      var size := if len > PAGE_SIZE then PAGE_SIZE else len;
      [NewRecord(address, size)] + Cut(address + size, len - size)
  }

  function CutAll(segs: seq<Segment>): seq<Record> {
    if segs == [] then [] else CutAll(segs[..|segs| - 1]) + Cut(segs[|segs| - 1].address, segs[|segs| - 1].len)
  }

  predicate NoFlags(recs: seq<Record>) {
    forall k :: 0 <= k < |recs| ==> !IsLast(recs[k]) && !IsFirst(recs[k])
  }

  predicate AllFull(recs: seq<Record>) {
    forall k :: 0 <= k < |recs| ==> recs[k].size == PAGE_SIZE
  }

  lemma PagesAdd(a: nat, b: nat)
    requires a % PAGE_SIZE == 0
    ensures PagesIn(a + b) == PagesIn(a) + PagesIn(b)
    ensures b % PAGE_SIZE == 0 ==> (a + b) % PAGE_SIZE == 0
  {
  }

  lemma PageStep(address: nat, len: nat, size: nat)
    requires len > 0 && address % PAGE_SIZE == 0
    requires size == if len > PAGE_SIZE then PAGE_SIZE else len
    ensures len > size ==> size == PAGE_SIZE && (address + size) % PAGE_SIZE == 0
    ensures len % PAGE_SIZE == 0 ==> size == PAGE_SIZE && (len - size) % PAGE_SIZE == 0
    ensures PagesIn(len) == 1 + PagesIn(len - size)
  {
  }

  lemma CutUnfolds(address: nat, len: nat, size: nat, r: Record)
    requires len > 0 && address % PAGE_SIZE == 0 && address + len <= WORD_VALUES * WORD_VALUES
    requires size == if len > PAGE_SIZE then PAGE_SIZE else len
    requires r == NewRecord(address, size)
    ensures Cut(address, len) == [r] + Cut(address + size, len - size)
    ensures r.size == size && Address(r) == address && !IsLast(r) && !IsFirst(r)
  {
    NewRecordAddress(address, size);
    hide Address, IsLast, IsFirst;
  }

  lemma {:induction false} CutCount(address: nat, len: nat)
    ensures |Cut(address, len)| == PagesIn(len)
    decreases len
  {
    if len > 0 {
      var size := if len > PAGE_SIZE then PAGE_SIZE else len;
      CutCount(address + size, len - size);
      PageStep(0, len, size);
    }
  }

  lemma {:induction false} CutBytes(address: nat, len: nat)
    requires len > 0 ==> address % PAGE_SIZE == 0
    requires address + len <= WORD_VALUES * WORD_VALUES
    ensures RecordBytes(Cut(address, len)) == Bytes(address, len)
    decreases len
  {
    if len > 0 {
      var size := if len > PAGE_SIZE then PAGE_SIZE else len;
      var r, rest := NewRecord(address, size), Cut(address + size, len - size);
      hide Cut, NewRecord, IsLast, IsFirst, Address, RecordBytes, Bytes;
      CutUnfolds(address, len, size, r);
      PageStep(address, len, size);
      NoPages();
      CutBytes(address + size, len - size);
      RecordBytesGrow([], r);
      RecordBytesJoin([r], rest);
      BytesSplit(address, size, len - size);
      assert [] + [r] == [r];
      assert [] + Bytes(address, size) == Bytes(address, size);
    }
  }

  /** Records in a row, full but for the last of them, and without flags. */
  predicate Pages(recs: seq<Record>) {
    Paged(recs) && NoFlags(recs)
  }

  lemma PagesJoin(a: seq<Record>, b: seq<Record>)
    requires Pages(a) && Pages(b) && (b != [] ==> AllFull(a))
    ensures Pages(a + b)
    ensures AllFull(a) && AllFull(b) ==> AllFull(a + b)
  {
    hide IsLast, IsFirst;
  }

  lemma {:induction false} CutPages(address: nat, len: nat)
    requires len > 0 ==> address % PAGE_SIZE == 0
    requires address + len <= WORD_VALUES * WORD_VALUES
    ensures Pages(Cut(address, len))
    ensures len % PAGE_SIZE == 0 ==> AllFull(Cut(address, len))
    decreases len
  {
    if len > 0 {
      var size := if len > PAGE_SIZE then PAGE_SIZE else len;
      var r, rest := NewRecord(address, size), Cut(address + size, len - size);
      CutUnfolds(address, len, size, r);
      PageStep(address, len, size);
      hide Cut, NewRecord, IsLast, IsFirst;
      CutPages(address + size, len - size);
      assert Pages([r]);
      PagesJoin([r], rest);
    }
  }

  /** The records cover exactly the segments' bytes, in order, and there is one per page. */
  lemma {:induction false} CutAllCovers(segs: seq<Segment>)
    requires Mapped(segs)
    ensures RecordBytes(CutAll(segs)) == SegmentBytes(segs)
    ensures Pages(CutAll(segs))
    ensures |CutAll(segs)| == PagesIn(TotalLen(segs))
  {
    hide Cut, IsLast, IsFirst, Pages, AllFull;
    if segs != [] {
      var n, seg := |segs| - 1, segs[|segs| - 1];
      CutAllCovers(segs[..n]);
      AllButLastFull(segs, n);
      CutBytes(seg.address, seg.len);
      CutPages(seg.address, seg.len);
      CutCount(seg.address, seg.len);
      RecordBytesJoin(CutAll(segs[..n]), Cut(seg.address, seg.len));
      PagesJoin(CutAll(segs[..n]), Cut(seg.address, seg.len));
      PagesAdd(TotalLen(segs[..n]), seg.len);
    } else {
      NoPages();
    }
  }

  lemma NoPages()
    ensures Pages([]) && AllFull([]) && RecordBytes([]) == []
  {
  }

  lemma {:induction false} AllButLastFull(segs: seq<Segment>, n: nat)
    requires Mapped(segs) && n < |segs|
    ensures AllFull(CutAll(segs[..n])) && Pages(CutAll(segs[..n])) && TotalLen(segs[..n]) % PAGE_SIZE == 0
  {
    hide Cut, IsLast, IsFirst, Pages, AllFull;
    if n > 0 {
      var seg := segs[n - 1];
      AllButLastFull(segs, n - 1);
      assert segs[..n][..n - 1] == segs[..n - 1];
      CutPages(seg.address, seg.len);
      PagesJoin(CutAll(segs[..n - 1]), Cut(seg.address, seg.len));
      PagesAdd(TotalLen(segs[..n - 1]), seg.len);
    } else {
      NoPages();
    }
  }

  /** The records allocated for a buffer suffice for any segments within it. */
  lemma PagesFit(len: nat, bufferSize: nat)
    requires len <= bufferSize
    ensures PagesIn(len) <= NumOfRec(bufferSize)
  {
  }

  /** And none is spare: segments that make up the whole buffer take every record. */
  lemma EveryRecordNeeded(segs: seq<Segment>)
    requires Mapped(segs) && segs != []
    ensures |CutAll(segs)| == NumOfRec(TotalLen(segs))
  {
    hide Mapped, CutAll, TotalLen;
    CutAllCovers(segs);
    assert TotalLen(segs) > 0 by { TotalPositive(segs); }
  }

  lemma TotalPositive(segs: seq<Segment>)
    requires Mapped(segs) && segs != []
    ensures TotalLen(segs) > 0
  {
  }

  lemma LastPart(size: nat) returns (part: nat)
    requires size > 0
    ensures 0 < part <= PAGE_SIZE && part <= size && (size - part) % PAGE_SIZE == 0
    ensures size % PAGE_SIZE == 0 ==> part == PAGE_SIZE
  {
    part := if size % PAGE_SIZE == 0 then PAGE_SIZE else size % PAGE_SIZE;
  }

  /** Buffers of every size can be mapped so. */
  lemma {:induction false} SizesOccur(bufferSize: nat) returns (segs: seq<Segment>)
    ensures Mapped(segs) && TotalLen(segs) == bufferSize
    ensures bufferSize % PAGE_SIZE == 0 ==> forall k :: 0 <= k < |segs| ==> segs[k].len == PAGE_SIZE
    decreases bufferSize
  {
    if bufferSize == 0 {
      segs := [];
    } else {
      var part := LastPart(bufferSize);
      var front := SizesOccur(bufferSize - part);
      segs := front + [Segment(0, part)];
      assert segs[..|front|] == front;
    }
  }

  // Marking the records of one transfer

  /** The size given to record k: a page, or what is left of the request. */
  function SizeAt(reqLen: int, k: nat): nat {
    var left := reqLen - k * PAGE_SIZE;
    if left > PAGE_SIZE || left < 0 then PAGE_SIZE else left
  }

  /** The number of records that a request uses, of `num` available. */
  function Used(num: nat, reqLen: int): (n: nat)
    ensures n <= num
  {
    if reqLen <= PAGE_SIZE then (if num == 0 then 0 else 1)
    else if num < PagesIn(reqLen) then num
    else PagesIn(reqLen)
  }

  /** Record k of a transfer of n records. */
  function MarkedRecord(r: Record, k: nat, n: nat, reqLen: int): Record {
    var sized := ClearLast(r).(size := SizeAt(reqLen, k));
    var ended := if k + 1 == n && reqLen <= n * PAGE_SIZE then SetLast(sized) else sized;
    if k == 0 then SetFirst(ended) else ended
  }

  /** recs' is recs after a request of reqLen bytes was laid over it. */
  predicate MarkedFor(recs: seq<Record>, recs': seq<Record>, n: nat, reqLen: int)
    requires n <= |recs| == |recs'|
  {
    && (forall k :: 0 <= k < n ==> recs'[k] == MarkedRecord(recs[k], k, n, reqLen))
    && (forall k :: n <= k < |recs| ==> recs'[k] == recs[k])
  }

  method MarkRecords(rec: array<Record>, reqLen: int) returns (n: nat)
    requires rec.Length > 0
    modifies rec
    ensures n == Used(rec.Length, reqLen)
    ensures MarkedFor(old(rec[..]), rec[..], n, reqLen)
  {
    hide ClearLast, SetLast, SetFirst;
    var accumLen: int, i := 0, 0;
    n := 0;
    while i < rec.Length
      invariant 0 <= i <= rec.Length
      invariant n == i && accumLen == i * PAGE_SIZE
      invariant i > 0 ==> accumLen < reqLen
      invariant forall k :: 0 <= k < i ==> rec[k] == ClearLast(old(rec[k])).(size := PAGE_SIZE)
      invariant forall k :: i <= k < rec.Length ==> rec[k] == old(rec[k])
    {
      rec[i] := ClearLast(rec[i]).(size := SizeAt(reqLen - accumLen, 0));
      accumLen, n := accumLen + rec[i].size, n + 1;
      if accumLen >= reqLen {
        rec[i] := SetLast(rec[i]);
        break;
      }
      i := i + 1;
    }
    rec[0] := SetFirst(rec[0]);
  }

  lemma MarkedFacts(r: Record, k: nat, n: nat, reqLen: int)
    ensures
      var m := MarkedRecord(r, k, n, reqLen);
      && Address(m) == Address(r) && m.size == SizeAt(reqLen, k)
      && (IsLast(m) <==> k + 1 == n && reqLen <= n * PAGE_SIZE)
      && (IsFirst(m) <==> k == 0 || IsFirst(r))
  {
    hide ClearLast, SetLast, SetFirst, SizeAt;
  }

  lemma UsedCount(num: nat, reqLen: int)
    requires reqLen > 0 && num > 0
    ensures
      var n := Used(num, reqLen);
      && 0 < n <= num && (n - 1) * PAGE_SIZE < reqLen
      && (reqLen <= num * PAGE_SIZE <==> reqLen <= n * PAGE_SIZE)
      && (reqLen <= num * PAGE_SIZE ==> n == PagesIn(reqLen))
  {
  }

  lemma SizesOf(n: nat, reqLen: int, k: nat)
    requires k < n && (n - 1) * PAGE_SIZE < reqLen
    ensures k + 1 < n ==> SizeAt(reqLen, k) == PAGE_SIZE
    ensures reqLen <= n * PAGE_SIZE && k + 1 == n ==> SizeAt(reqLen, k) == reqLen - k * PAGE_SIZE
  {
  }

  /** Whatever sizes and last marks an earlier request left, a request keeps the
      records' addresses and marks the first record; exactly its final record is
      marked last, and that if and only if the records can hold the request. */
  lemma MarksOfTransfer(recs: seq<Record>, recs': seq<Record>, reqLen: int)
    requires |recs| == |recs'| > 0 && reqLen > 0
    requires MarkedFor(recs, recs', Used(|recs|, reqLen), reqLen)
    ensures SamePages(recs, recs')
    ensures
      var n := Used(|recs|, reqLen);
      && 0 < n <= |recs| && IsFirst(recs'[0])
      && (forall k :: 0 < k < |recs| ==> IsFirst(recs'[k]) == IsFirst(recs[k]))
      && (forall k :: 0 <= k < n ==> (IsLast(recs'[k]) <==> k == n - 1 && reqLen <= |recs| * PAGE_SIZE))
  {
    var n := Used(|recs|, reqLen);
    UsedCount(|recs|, reqLen);
    forall k | 0 <= k < n
      ensures Address(recs'[k]) == Address(recs[k])
      ensures IsFirst(recs'[k]) <==> k == 0 || IsFirst(recs[k])
      ensures IsLast(recs'[k]) <==> k == n - 1 && reqLen <= |recs| * PAGE_SIZE
    {
      MarkedFacts(recs[k], k, n, reqLen);
    }
    hide Address, IsFirst, IsLast, Used, MarkedRecord;
  }

  /** A request of no bytes gets one empty record, marked first and last; one of negative
      length, which the comparison takes for a large one, a full page instead. */
  lemma NothingToTransfer(recs: seq<Record>, recs': seq<Record>, reqLen: int)
    requires |recs| == |recs'| > 0 && reqLen <= 0
    requires MarkedFor(recs, recs', Used(|recs|, reqLen), reqLen)
    ensures Address(recs'[0]) == Address(recs[0]) && IsFirst(recs'[0]) && IsLast(recs'[0])
    ensures recs'[0].size == if reqLen == 0 then 0 else PAGE_SIZE
    ensures forall k :: 0 < k < |recs| ==> recs'[k] == recs[k]
  {
    MarkedFacts(recs[0], 0, 1, reqLen);
    hide Address, IsFirst, IsLast, MarkedRecord;
  }

  /** A request that fits is laid over exactly its first reqLen bytes of the pages. */
  lemma TransferCovers(recs: seq<Record>, recs': seq<Record>, reqLen: int)
    requires |recs| == |recs'| && 0 < reqLen <= |recs| * PAGE_SIZE
    requires MarkedFor(recs, recs', Used(|recs|, reqLen), reqLen)
    ensures Used(|recs|, reqLen) == PagesIn(reqLen) <= |recs|
    ensures RecordBytes(recs'[..Used(|recs|, reqLen)]) == PageBytes(recs)[..reqLen]
  {
    var n := Used(|recs|, reqLen);
    UsedCount(|recs|, reqLen);
    hide Used;
    UsedIsPaged(recs, recs', n, reqLen);
    LaidOver(recs, recs'[..n], reqLen);
  }

  lemma UsedIsPaged(recs: seq<Record>, recs': seq<Record>, n: nat, reqLen: int)
    requires 0 < n <= |recs| == |recs'| && (n - 1) * PAGE_SIZE < reqLen <= n * PAGE_SIZE
    requires MarkedFor(recs, recs', n, reqLen)
    ensures Paged(recs'[..n]) && PagedLen(recs'[..n]) == reqLen && SamePages(recs'[..n], recs[..n])
  {
    hide Address, SizeAt, MarkedRecord;
    forall k | 0 <= k < n
      ensures Address(recs'[k]) == Address(recs[k]) && recs'[k].size == SizeAt(reqLen, k)
    {
      MarkedFacts(recs[k], k, n, reqLen);
    }
    forall k | 0 <= k < n
      ensures recs'[k].size <= PAGE_SIZE && (k < n - 1 ==> recs'[k].size == PAGE_SIZE)
      ensures k == n - 1 ==> recs'[k].size == reqLen - k * PAGE_SIZE
    {
      SizesOf(n, reqLen, k);
    }
  }

  lemma LaidOver(recs: seq<Record>, used: seq<Record>, len: nat)
    requires |used| <= |recs| && Paged(used) && PagedLen(used) == len && SamePages(used, recs[..|used|])
    ensures RecordBytes(used) == PageBytes(recs)[..len]
  {
    hide Address, PageBytes, RecordBytes, SamePages, Paged;
    PagedBytes(used);
    PagesSame(used, recs[..|used|]);
    PagesPrefix(recs, |used|);
  }

  /** A locked buffer. */
  class LockedBuffer {
    const rec: array<Record>
    // The segments that the records were made for.
    ghost var segs: seq<Segment>

    /** The pages of the records begin with the segments' bytes. */
    ghost predicate Valid()
      reads this, rec
    {
      && rec.Length > 0
      && TotalLen(segs) <= |PageBytes(rec[..])|
      && PageBytes(rec[..])[..TotalLen(segs)] == SegmentBytes(segs)
    }

    constructor (bufferSize: nat)
      ensures Valid() && fresh(rec) && rec.Length == NumOfRec(bufferSize) && segs == []
    {
      rec := new Record[NumOfRec(bufferSize)](_ => Record(0, 0, 0));
      segs := [];
    }

    /** map_user_buffer: write the records of the mapped segments. */
    method Map(segs: seq<Segment>) returns (n: nat)
      requires rec.Length > 0 && Mapped(segs) && PagesIn(TotalLen(segs)) <= rec.Length
      modifies this, rec
      ensures Valid() && this.segs == segs
      ensures n == PagesIn(TotalLen(segs)) && rec[..n] == CutAll(segs)
      ensures forall k :: n <= k < rec.Length ==> rec[k] == old(rec[k])
    {
      hide Mapped, Paged, PageBytes, RecordBytes, SegmentBytes, PagesIn, TotalLen;
      CutAllCovers(segs);
      n := 0;
      for i := 0 to |segs|
        invariant n == |CutAll(segs[..i])| && n <= rec.Length && rec[..n] == CutAll(segs[..i])
        invariant forall k :: n <= k < rec.Length ==> rec[k] == old(rec[k])
      {
        CutAllStep(segs, i);
        n := WriteSegment(rec, segs[i], n);
      }
      assert segs[..|segs|] == segs;
      this.segs := segs;
      MappedIsValid(rec[..], n, segs);
    }

    /** The record part of start_io. */
    method Mark(reqLen: int) returns (n: nat)
      requires Valid()
      modifies rec
      ensures Valid()
      ensures n == Used(rec.Length, reqLen)
      ensures MarkedFor(old(rec[..]), rec[..], n, reqLen)
      ensures 0 < reqLen <= TotalLen(segs) ==>
                n == PagesIn(reqLen) && RecordBytes(rec[..n]) == SegmentBytes(segs)[..reqLen]
    {
      hide Used, MarkedFor, PageBytes, RecordBytes, SegmentBytes, PagesIn, TotalLen, SamePages;
      ghost var recs := rec[..];
      n := MarkRecords(rec, reqLen);
      MarksKeepPages(recs, rec[..], n, reqLen);
      PagesSame(recs, rec[..]);
      if 0 < reqLen <= TotalLen(segs) {
        TransferCovers(recs, rec[..], reqLen);
        assert rec[..][..n] == rec[..n];
      }
    }
  }

  lemma MarksKeepPages(recs: seq<Record>, recs': seq<Record>, n: nat, reqLen: int)
    requires n <= |recs| == |recs'| && MarkedFor(recs, recs', n, reqLen)
    ensures SamePages(recs, recs')
  {
    forall k | 0 <= k < n
      ensures Address(recs'[k]) == Address(recs[k])
    {
      MarkedFacts(recs[k], k, n, reqLen);
    }
  }

  lemma MappedIsValid(recs: seq<Record>, n: nat, segs: seq<Segment>)
    requires Mapped(segs) && n <= |recs| && recs[..n] == CutAll(segs)
    ensures TotalLen(segs) <= |PageBytes(recs)| && PageBytes(recs)[..TotalLen(segs)] == SegmentBytes(segs)
  {
    hide CutAll, Mapped, PageBytes, Bytes;
    CutAllCovers(segs);
    PagedBytes(recs[..n]);
    PagesPrefix(recs, n);
    SegmentBytesLen(segs);
  }

  lemma {:induction false} SegmentBytesLen(segs: seq<Segment>)
    ensures |SegmentBytes(segs)| == TotalLen(segs)
  {
    if segs != [] {
      SegmentBytesLen(segs[..|segs| - 1]);
    }
  }

  lemma {:induction false} CutAllStep(segs: seq<Segment>, i: nat)
    requires i < |segs|
    ensures CutAll(segs[..i + 1]) == CutAll(segs[..i]) + Cut(segs[i].address, segs[i].len)
    ensures |CutAll(segs[..i + 1])| <= |CutAll(segs)|
    decreases |segs| - i
  {
    assert segs[..i + 1][..i] == segs[..i];
    if i + 1 < |segs| {
      CutAllStep(segs, i + 1);
    } else {
      assert segs[..i + 1] == segs;
    }
  }

  /** Cutting one segment into records, from record n on. */
  method WriteSegment(rec: array<Record>, seg: Segment, n: nat) returns (m: nat)
    requires n + |Cut(seg.address, seg.len)| <= rec.Length
    modifies rec
    ensures m == n + |Cut(seg.address, seg.len)|
    ensures rec[..m] == old(rec[..n]) + Cut(seg.address, seg.len)
    ensures forall k :: m <= k < rec.Length ==> rec[k] == old(rec[k])
  {
    hide NewRecord;
    var dmaAddr: nat, segLen: nat := seg.address, seg.len;
    m := n;
    while segLen > 0
      invariant segLen <= seg.len
      invariant n <= m && m + |Cut(dmaAddr, segLen)| == n + |Cut(seg.address, seg.len)|
      invariant rec[..m] + Cut(dmaAddr, segLen) == old(rec[..n]) + Cut(seg.address, seg.len)
      invariant forall k :: m <= k < rec.Length ==> rec[k] == old(rec[k])
    {
      var size := if segLen > PAGE_SIZE then PAGE_SIZE else segLen;
      var r := NewRecord(dmaAddr, size);
      ghost var before, rest := rec[..m], Cut(dmaAddr + size, segLen - size);
      assert Cut(dmaAddr, segLen) == [r] + rest;
      Associate(before, [r], rest);
      rec[m] := r;
      assert rec[..m + 1] == before + [r];
      m, segLen, dmaAddr := m + 1, segLen - size, dmaAddr + size;
    }
  }
}
