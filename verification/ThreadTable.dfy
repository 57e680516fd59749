/** The thread table of the crossbar's address stage: a few counters keyed by
    transaction ID that stand for the list of requests in flight. */
module ThreadTable {
  import opened Common

  datatype Request = Request(id: nat, dest: nat, region: nat)

  /** One row of the thread_*_reg arrays. */
  datatype Thread = Thread(id: nat, dest: nat, region: nat, count: nat)

  predicate Active(t: Thread) {
    t.count != 0
  }

  predicate Matches(t: Thread, id: nat) {
    Active(t) && t.id == id
  }

  predicate AnyMatch(rows: seq<Thread>, id: nat) {
    exists k :: 0 <= k < |rows| && Matches(rows[k], id)
  }

  /** A matching row already leads to the same place. */
  predicate MatchesDest(t: Thread, r: Request, regions: nat) {
    Matches(t, r.id) && t.dest == r.dest && (regions < 2 || t.region == r.region)
  }

  /** thread_trans_start for the first n rows: the matching row, or else the
      lowest free one. */
  function StartBits(rows: seq<Thread>, id: nat, n: nat): (bits: seq<bool>)
    requires n <= |rows|
    ensures |bits| == n
  {
    if n == 0 then []
    else
      var lower := StartBits(rows, id, n - 1);
      lower + [Matches(rows[n - 1], id) || (!Active(rows[n - 1]) && !AnyMatch(rows, id) && true !in lower)]
  }

  /** The admission test of the address stage, apart from the total limit. */
  predicate Admits(rows: seq<Thread>, r: Request, regions: nat) {
    || (exists k :: 0 <= k < |rows| && MatchesDest(rows[k], r, regions))
    || (!(forall k :: 0 <= k < |rows| ==> Active(rows[k])) && !AnyMatch(rows, r.id))
  }

  function NextRow(t: Thread, r: Request, starts: bool, completes: bool, values: nat): Thread
    requires t.count < values
  {
    var count := Counted(t.count, starts, completes, values);
    if starts then Thread(r.id, r.dest, r.region, count) else t.(count := count)
  }

  predicate InRange(rows: seq<Thread>, values: nat) {
    forall k :: 0 <= k < |rows| ==> rows[k].count < values
  }

  /** One clock of the table: `start` admits r, `complete` retires an id. */
  function NextRows(rows: seq<Thread>, start: bool, r: Request, complete: bool, id: nat,
                    values: nat): (rows': seq<Thread>)
    requires InRange(rows, values)
    ensures |rows'| == |rows| && InRange(rows', values)
  {
    var bits := StartBits(rows, r.id, |rows|);
    seq(|rows|, k requires 0 <= k < |rows| =>
      NextRow(rows[k], r, start && bits[k], complete && Matches(rows[k], id), values))
  }

  // What the table stands for

  function CountId(flight: seq<Request>, id: nat): nat {
    if flight == [] then 0 else (if flight[0].id == id then 1 else 0) + CountId(flight[1..], id)
  }

  /** The oldest request with this ID leaves. */
  function Retire(flight: seq<Request>, id: nat): seq<Request> {
    if flight == [] then []
    else if flight[0].id == id then flight[1..]
    else [flight[0]] + Retire(flight[1..], id)
  }

  function NextFlight(flight: seq<Request>, start: bool, r: Request, complete: bool, id: nat): seq<Request> {
    (if complete then Retire(flight, id) else flight) + (if start then [r] else [])
  }

  predicate Covers(t: Thread, r: Request) {
    Matches(t, r.id) && t.dest == r.dest && t.region == r.region
  }

  predicate Covered(rows: seq<Thread>, r: Request) {
    exists k :: 0 <= k < |rows| && Covers(rows[k], r)
  }

  predicate DistinctIds(rows: seq<Thread>) {
    forall j, k :: 0 <= j < k < |rows| && Active(rows[j]) && Active(rows[k]) ==> rows[j].id != rows[k].id
  }

  predicate CountsFlight(t: Thread, flight: seq<Request>) {
    Active(t) ==> t.count == CountId(flight, t.id)
  }

  /** The table tracks the requests in flight: active rows have different IDs and
      count the requests with theirs, and every request in flight went where the
      row with its ID says. */
  predicate Tracks(rows: seq<Thread>, flight: seq<Request>) {
    && DistinctIds(rows)
    && (forall k :: 0 <= k < |rows| ==> CountsFlight(rows[k], flight))
    && (forall r :: r in flight ==> Covered(rows, r))
  }

  lemma {:induction false} CountPositive(flight: seq<Request>, id: nat)
    ensures CountId(flight, id) > 0 <==> exists r :: r in flight && r.id == id
  {
    if flight != [] {
      CountPositive(flight[1..], id);
      if r :| r in flight && r.id == id && flight[0].id != id {
        assert r in flight[1..];
      }
      if CountId(flight, id) > 0 && flight[0].id == id {
        assert flight[0] in flight;
      }
    }
  }

  lemma {:induction false} RetireCounts(flight: seq<Request>, id: nat, other: nat)
    requires CountId(flight, id) > 0
    ensures CountId(Retire(flight, id), other) == CountId(flight, other) - (if id == other then 1 else 0)
    ensures forall r :: r in Retire(flight, id) ==> r in flight
    ensures |Retire(flight, id)| == |flight| - 1
  {
    if flight[0].id != id {
      RetireCounts(flight[1..], id, other);
      var rest := Retire(flight[1..], id);
      assert ([flight[0]] + rest)[1..] == rest;
    }
  }

  lemma {:induction false} AppendCounts(flight: seq<Request>, r: Request, other: nat)
    ensures CountId(flight + [r], other) == CountId(flight, other) + (if r.id == other then 1 else 0)
  {
    if flight == [] {
      assert ([r])[1..] == [];
    } else {
      AppendCounts(flight[1..], r, other);
      assert (flight + [r])[1..] == flight[1..] + [r];
    }
  }

  lemma NextCounts(flight: seq<Request>, start: bool, r: Request, complete: bool, id: nat, other: nat)
    requires complete ==> CountId(flight, id) > 0
    ensures CountId(NextFlight(flight, start, r, complete, id), other)
            == CountId(flight, other) + (if start && r.id == other then 1 else 0)
                                      - (if complete && id == other then 1 else 0)
    ensures forall q :: q in NextFlight(flight, start, r, complete, id) ==> q in flight || (start && q == r)
    ensures |NextFlight(flight, start, r, complete, id)|
            == |flight| + (if start then 1 else 0) - (if complete then 1 else 0)
  {
    var left := if complete then Retire(flight, id) else flight;
    if complete {
      RetireCounts(flight, id, other);
    }
    if start {
      AppendCounts(left, r, other);
    }
    assert NextFlight(flight, false, r, complete, id) == left;
  }

  /** Which rows start: with a match, exactly the matching ones; without, exactly
      the lowest free one. */
  lemma {:induction false} StartBitsAre(rows: seq<Thread>, id: nat, n: nat, k: nat)
    requires k < n <= |rows|
    ensures StartBits(rows, id, n)[k] <==>
              || Matches(rows[k], id)
              || (!AnyMatch(rows, id) && !Active(rows[k]) && forall j :: 0 <= j < k ==> Active(rows[j]))
    decreases n
  {
    var lower := StartBits(rows, id, n - 1);
    if k < n - 1 {
      StartBitsAre(rows, id, n - 1, k);
    } else {
      forall j | 0 <= j < k
        ensures lower[j] <==> Matches(rows[j], id)
                              || (!AnyMatch(rows, id) && !Active(rows[j]) && forall i :: 0 <= i < j ==> Active(rows[i]))
      {
        StartBitsAre(rows, id, n - 1, j);
      }
      if !AnyMatch(rows, id) && !(forall j :: 0 <= j < k ==> Active(rows[j])) {
        FirstFree(rows, k);
      }
    }
  }

  lemma {:induction false} FirstFree(rows: seq<Thread>, n: nat)
    requires n <= |rows| && !(forall j :: 0 <= j < n ==> Active(rows[j]))
    ensures exists k :: 0 <= k < n && !Active(rows[k]) && forall j :: 0 <= j < k ==> Active(rows[j])
  {
    if forall j :: 0 <= j < n - 1 ==> Active(rows[j]) {
      assert !Active(rows[n - 1]);
    } else {
      FirstFree(rows, n - 1);
    }
  }

  predicate Only(bits: seq<bool>, k: nat) {
    forall j :: 0 <= j < |bits| ==> (bits[j] <==> j == k)
  }

  lemma MatchStarts(rows: seq<Thread>, id: nat, k: nat)
    requires DistinctIds(rows) && k < |rows| && Matches(rows[k], id)
    ensures Only(StartBits(rows, id, |rows|), k)
  {
    forall j | 0 <= j < |rows|
      ensures StartBits(rows, id, |rows|)[j] <==> j == k
    {
      StartBitsAre(rows, id, |rows|, j);
      assert Matches(rows[j], id) ==> j == k;
    }
  }

  lemma FreeStarts(rows: seq<Thread>, id: nat, k: nat)
    requires !AnyMatch(rows, id) && k < |rows| && !Active(rows[k]) && forall j :: 0 <= j < k ==> Active(rows[j])
    ensures Only(StartBits(rows, id, |rows|), k)
  {
    forall j | 0 <= j < |rows|
      ensures StartBits(rows, id, |rows|)[j] <==> j == k
    {
      StartBitsAre(rows, id, |rows|, j);
    }
  }

  lemma MatchIsUnique(rows: seq<Thread>, r: Request, regions: nat, j: nat)
    requires DistinctIds(rows) && Admits(rows, r, regions)
    requires j < |rows| && Matches(rows[j], r.id)
    ensures MatchesDest(rows[j], r, regions)
  {
    var k :| 0 <= k < |rows| && MatchesDest(rows[k], r, regions);
    assert j == k;
  }

  /** An admitted request starts exactly one row. */
  lemma OneRowStarts(rows: seq<Thread>, r: Request, regions: nat) returns (k: nat)
    requires DistinctIds(rows) && Admits(rows, r, regions)
    ensures k < |rows| && Only(StartBits(rows, r.id, |rows|), k)
    ensures if AnyMatch(rows, r.id) then MatchesDest(rows[k], r, regions) else !Active(rows[k])
  {
    hide StartBits, Only, DistinctIds, MatchesDest;
    if AnyMatch(rows, r.id) {
      k :| 0 <= k < |rows| && Matches(rows[k], r.id);
      MatchStarts(rows, r.id, k);
      MatchIsUnique(rows, r, regions, k);
    } else {
      NoMatchNoDest(rows, r, regions);
      FirstFree(rows, |rows|);
      k :| 0 <= k < |rows| && !Active(rows[k]) && forall j :: 0 <= j < k ==> Active(rows[j]);
      FreeStarts(rows, r.id, k);
    }
  }

  lemma {:induction false} CountBounded(flight: seq<Request>, id: nat)
    ensures CountId(flight, id) <= |flight|
  {
    if flight != [] {
      CountBounded(flight[1..], id);
    }
  }

  /** A request may start where `s` says, and a completion names a request in flight. */
  predicate Legal(rows: seq<Thread>, flight: seq<Request>, start: bool, r: Request, complete: bool, id: nat,
                  regions: nat) {
    && (start ==> Admits(rows, r, regions))
    && (complete ==> CountId(flight, id) > 0)
  }

  predicate RegionsExist(flight: seq<Request>, regions: nat) {
    forall q :: q in flight ==> q.region < regions
  }

  lemma MatchMeansInFlight(rows: seq<Thread>, flight: seq<Request>, id: nat)
    requires Tracks(rows, flight)
    ensures AnyMatch(rows, id) <==> CountId(flight, id) > 0
  {
    CountPositive(flight, id);
    if q :| q in flight && q.id == id {
      assert Covered(rows, q);
    }
    if k :| 0 <= k < |rows| && Matches(rows[k], id) {
      assert CountsFlight(rows[k], flight);
    }
  }

  /** Ordering of equal IDs: whatever is in flight with one ID went to one place,
      the place its row records. */
  lemma SameIdSamePlace(rows: seq<Thread>, flight: seq<Request>, q: Request, r: Request)
    requires Tracks(rows, flight) && q in flight && r in flight && q.id == r.id
    ensures q.dest == r.dest && q.region == r.region
  {
    assert Covered(rows, q) && Covered(rows, r);
  }

  /** What the clock does to row k, told by the requests in flight afterwards. */
  predicate RowFollows(t: Thread, t': Thread, flight': seq<Request>, starts: bool, r: Request) {
    && CountsFlight(t', flight')
    && (if starts then t'.id == r.id && t'.dest == r.dest && t'.region == r.region
        else t'.id == t.id && t'.dest == t.dest && t'.region == t.region)
    && (Active(t') <==> (Active(t) || starts) && CountId(flight', t'.id) > 0)
  }

  lemma RowStep(rows: seq<Thread>, flight: seq<Request>, k: nat, starts: bool,
                start: bool, r: Request, complete: bool, id: nat, values: nat)
    requires k < |rows| && InRange(rows, values) && Tracks(rows, flight)
    requires starts ==> start && (Matches(rows[k], r.id) || (!AnyMatch(rows, r.id) && !Active(rows[k])))
    requires start && Matches(rows[k], r.id) ==> starts
    requires complete ==> CountId(flight, id) > 0
    requires |NextFlight(flight, start, r, complete, id)| < values
    ensures RowFollows(rows[k], NextRow(rows[k], r, starts, complete && Matches(rows[k], id), values),
                       NextFlight(flight, start, r, complete, id), starts, r)
  {
    hide CountId, NextFlight;
    var t, flight' := rows[k], NextFlight(flight, start, r, complete, id);
    var other := if starts then r.id else t.id;
    assert CountsFlight(t, flight);
    NextCounts(flight, start, r, complete, id, other);
    CountBounded(flight', other);
    MatchMeansInFlight(rows, flight, r.id);
  }

  /** The table keeps tracking the requests in flight, also when a request starts
      in the clock in which another one, or one with the same ID, completes. */
  lemma TrackingIsKept(rows: seq<Thread>, flight: seq<Request>, start: bool, r: Request,
                       complete: bool, id: nat, regions: nat, values: nat)
    requires InRange(rows, values) && Tracks(rows, flight)
    requires Legal(rows, flight, start, r, complete, id, regions)
    requires RegionsExist(flight + [r], regions)
    requires |NextFlight(flight, start, r, complete, id)| < values
    ensures Tracks(NextRows(rows, start, r, complete, id, values), NextFlight(flight, start, r, complete, id))
  {
    hide CountId, NextFlight, StartBits, Admits, CountsFlight, NextRow, Covers, Covered;
    var flight' := NextFlight(flight, start, r, complete, id);
    var rows' := NextRows(rows, start, r, complete, id, values);
    var s: nat := |rows|;
    if start {
      s := OneRowStarts(rows, r, regions);
    }
    forall k | 0 <= k < |rows|
      ensures RowFollows(rows[k], rows'[k], flight', start && k == s, r)
    {
      if start && Matches(rows[k], r.id) {
        assert StartBits(rows, r.id, |rows|)[k] by { StartBitsAre(rows, r.id, |rows|, k); }
      }
      RowStep(rows, flight, k, start && k == s, start, r, complete, id, values);
    }
    assert DistinctIds(rows');
    NextCounts(flight, start, r, complete, id, id);
    forall q | q in flight'
      ensures Covered(rows', q)
    {
      CountPositive(flight', q.id);
      RequestCovered(rows, rows', flight, flight', start, r, s, regions, q);
    }
  }

  lemma RequestCovered(rows: seq<Thread>, rows': seq<Thread>, flight: seq<Request>, flight': seq<Request>,
                       start: bool, r: Request, s: nat, regions: nat, q: Request)
    requires |rows'| == |rows| && Tracks(rows, flight)
    requires start ==> s < |rows|
    requires start && AnyMatch(rows, r.id) ==> MatchesDest(rows[s], r, regions)
    requires start && !AnyMatch(rows, r.id) ==> !Active(rows[s])
    requires RegionsExist(flight + [r], regions)
    requires forall k :: 0 <= k < |rows| ==> RowFollows(rows[k], rows'[k], flight', start && k == s, r)
    requires CountId(flight', q.id) > 0 && (q in flight || (start && q == r))
    ensures Covered(rows', q)
  {
    hide CountId;
    if q in flight {
      assert Covered(rows, q);
      var k :| 0 <= k < |rows| && Covers(rows[k], q);
      assert RowFollows(rows[k], rows'[k], flight', start && k == s, r);
      assert start && k == s ==> r.dest == q.dest;
      assert q in flight + [r] && r in flight + [r];
      assert Covers(rows'[k], q);
    } else {
      assert RowFollows(rows[s], rows'[s], flight', true, r);
      assert Covers(rows'[s], q);
    }
  }

  // The table as a whole

  function Sum(rows: seq<Thread>, n: nat): nat
    requires n <= |rows|
  {
    if n == 0 then 0 else Sum(rows, n - 1) + rows[n - 1].count
  }

  predicate MatchBelow(rows: seq<Thread>, id: nat, n: nat)
    requires n <= |rows|
  {
    exists k :: 0 <= k < n && Matches(rows[k], id)
  }

  /** The number of requests in flight that the first n rows account for. */
  function Accounted(rows: seq<Thread>, flight: seq<Request>, n: nat): nat
    requires n <= |rows|
  {
    if flight == [] then 0
    else (if MatchBelow(rows, flight[0].id, n) then 1 else 0) + Accounted(rows, flight[1..], n)
  }

  lemma {:induction false} RowAccounts(rows: seq<Thread>, flight: seq<Request>, n: nat)
    requires n < |rows| && DistinctIds(rows)
    ensures Accounted(rows, flight, n + 1)
            == Accounted(rows, flight, n) + (if Active(rows[n]) then CountId(flight, rows[n].id) else 0)
  {
    if flight != [] {
      RowAccounts(rows, flight[1..], n);
      var id := flight[0].id;
      assert MatchBelow(rows, id, n + 1) <==> MatchBelow(rows, id, n) || Matches(rows[n], id);
    }
  }

  lemma {:induction false} SumAccounts(rows: seq<Thread>, flight: seq<Request>, n: nat)
    requires n <= |rows| && Tracks(rows, flight)
    ensures Sum(rows, n) == Accounted(rows, flight, n)
  {
    if n == 0 {
      NothingAccounted(rows, flight);
    } else {
      SumAccounts(rows, flight, n - 1);
      RowAccounts(rows, flight, n - 1);
      assert CountsFlight(rows[n - 1], flight);
    }
  }

  lemma {:induction false} NothingAccounted(rows: seq<Thread>, flight: seq<Request>)
    ensures Accounted(rows, flight, 0) == 0
  {
    if flight != [] {
      NothingAccounted(rows, flight[1..]);
    }
  }

  lemma {:induction false} AllAccounted(rows: seq<Thread>, flight: seq<Request>)
    requires forall r :: r in flight ==> Covered(rows, r)
    ensures Accounted(rows, flight, |rows|) == |flight|
  {
    if flight != [] {
      assert flight[0] in flight;
      assert Covered(rows, flight[0]);
      AllAccounted(rows, flight[1..]);
    }
  }

  /** The counts of the rows add up to the number of requests in flight. */
  lemma CountsSumToFlight(rows: seq<Thread>, flight: seq<Request>)
    requires Tracks(rows, flight)
    ensures Sum(rows, |rows|) == |flight|
  {
    SumAccounts(rows, flight, |rows|);
    AllAccounted(rows, flight);
  }

  function Ids(flight: seq<Request>): set<nat> {
    set r | r in flight :: r.id
  }

  function ActiveIds(rows: seq<Thread>, n: nat): set<nat>
    requires n <= |rows|
  {
    if n == 0 then {} else ActiveIds(rows, n - 1) + (if Active(rows[n - 1]) then {rows[n - 1].id} else {})
  }

  lemma MatchStep(rows: seq<Thread>, id: nat, n: nat)
    requires n < |rows|
    ensures MatchBelow(rows, id, n + 1) <==> MatchBelow(rows, id, n) || Matches(rows[n], id)
  {
  }

  lemma {:induction false} ActiveIdsAre(rows: seq<Thread>, n: nat, id: nat)
    requires n <= |rows|
    ensures id in ActiveIds(rows, n) <==> MatchBelow(rows, id, n)
  {
    if n > 0 {
      ActiveIdsAre(rows, n - 1, id);
      MatchStep(rows, id, n - 1);
    }
  }

  lemma {:induction false} ActiveIdsSize(rows: seq<Thread>, n: nat)
    requires n <= |rows| && DistinctIds(rows)
    ensures |ActiveIds(rows, n)| <= n
    ensures |ActiveIds(rows, n)| == n <==> forall k :: 0 <= k < n ==> Active(rows[k])
  {
    if n > 0 {
      ActiveIdsSize(rows, n - 1);
      if Active(rows[n - 1]) {
        ActiveIdsAre(rows, n - 1, rows[n - 1].id);
        assert rows[n - 1].id !in ActiveIds(rows, n - 1);
      }
    }
  }

  lemma ActiveIdsAreIds(rows: seq<Thread>, flight: seq<Request>)
    requires Tracks(rows, flight)
    ensures ActiveIds(rows, |rows|) == Ids(flight)
  {
    forall id
      ensures id in ActiveIds(rows, |rows|) <==> id in Ids(flight)
    {
      ActiveIdsAre(rows, |rows|, id);
      MatchMeansInFlight(rows, flight, id);
      CountPositive(flight, id);
      assert MatchBelow(rows, id, |rows|) == AnyMatch(rows, id);
    }
  }

  /** Admission told without the table: a request goes through if all requests in
      flight with its ID went to the same place, or if it has a new ID and fewer
      different IDs are in flight than there are rows. */
  predicate MayStart(flight: seq<Request>, r: Request, threads: nat) {
    if r.id in Ids(flight)
    then forall q :: q in flight && q.id == r.id ==> q.dest == r.dest && q.region == r.region
    else |Ids(flight)| < threads
  }

  lemma MatchMeansSame(rows: seq<Thread>, flight: seq<Request>, r: Request, q: Request, regions: nat)
    requires Tracks(rows, flight) && RegionsExist(flight + [r], regions)
    requires q in flight && q.id == r.id
    ensures AnyMatch(rows, r.id)
    ensures (exists k :: 0 <= k < |rows| && MatchesDest(rows[k], r, regions))
            <==> q.dest == r.dest && q.region == r.region
  {
    hide CountsFlight;
    assert Covered(rows, q);
    var k :| 0 <= k < |rows| && Covers(rows[k], q);
    assert q.region < regions && r.region < regions by {
      assert q in flight + [r] && r in flight + [r];
    }
  }

  lemma AdmissionMeaning(rows: seq<Thread>, flight: seq<Request>, r: Request, regions: nat)
    requires Tracks(rows, flight) && RegionsExist(flight + [r], regions)
    ensures Admits(rows, r, regions) <==> MayStart(flight, r, |rows|)
  {
    hide ActiveIds, RegionsExist, CountsFlight, DistinctIds, MatchesDest;
    if r.id in Ids(flight) {
      forall q | q in flight && q.id == r.id
        ensures AnyMatch(rows, r.id)
        ensures (exists k :: 0 <= k < |rows| && MatchesDest(rows[k], r, regions))
                <==> q.dest == r.dest && q.region == r.region
      {
        MatchMeansSame(rows, flight, r, q, regions);
      }
    } else {
      MatchMeansInFlight(rows, flight, r.id);
      CountPositive(flight, r.id);
      ActiveIdsAreIds(rows, flight);
      ActiveIdsSize(rows, |rows|);
      NoMatchNoDest(rows, r, regions);
    }
  }

  lemma NoMatchNoDest(rows: seq<Thread>, r: Request, regions: nat)
    ensures !AnyMatch(rows, r.id) ==> forall k :: 0 <= k < |rows| ==> !MatchesDest(rows[k], r, regions)
  {
  }
}
