/** Five-minute buckets (internal/state/stats.go): the aggregation, kept as sums and
    merged per heartbeat, against one result counted at a time. */
module Buckets {
  import opened Wrappers
  import opened Store
  import opened Sorting
  import opened Flatten
  import opened Wire

  const WINDOW: int := 300000

  datatype BucketKey = BucketKey(client: ClientId, key: TargetKey, start: int)

  datatype Bucket = Bucket(
    nOk: nat, nFail: nat,
    latMin: Option<int>, latAvg: Option<int>, latMax: Option<int>,
    handshake: Option<int>,
    latSum: int, latN: nat,
    sentAt: Option<int>, dropped: bool)

  const BLANK := Bucket(0, 0, None, None, None, None, 0, 0, None, false)

  type Rows = map<BucketKey, Bucket>

  function RowOf(rows: Rows, k: BucketKey): Bucket {
    if k in rows then rows[k] else BLANK
  }

  /** Go's % keeps the sign of its left operand. */
  function GoRem(a: int, b: int): int
    requires b > 0
  {
    if a >= 0 then a % b else -((-a) % b)
  }

  /** Go's / truncates toward zero. */
  function GoDiv(a: int, b: int): int
    requires b > 0
  {
    if a >= 0 then a / b else -((-a) / b)
  }

  /** bucketStart floors to the window, for times before 1970 too. */
  function BucketStart(ts: int): (start: int)
    ensures start % WINDOW == 0 && start <= ts < start + WINDOW
  {
    var rem := GoRem(ts, WINDOW);
    ts - (if rem < 0 then rem + WINDOW else rem)
  }

  function Average(sum: int, n: nat): int
    requires n > 0
  {
    GoDiv(sum + n / 2, n)
  }

  // ---- one result at a time ----

  datatype Item = Item(key: BucketKey, result: Result)

  /** A bucket once one more result is counted in it. */
  function Plus(b: Bucket, r: Result): Bucket {
    var counted := b.(sentAt := None, dropped := false);
    if !r.ok then counted.(nFail := b.nFail + 1)
    else
      var ok := counted.(nOk := b.nOk + 1, handshake := if r.key.kind == KIND_AWG then r.handshakeMs else b.handshake);
      match r.tlsMs
      case None => ok
      case Some(v) =>
        ok.(latMin := if b.latMin == None || v < b.latMin.value then Some(v) else b.latMin,
            latMax := if b.latMax == None || v > b.latMax.value then Some(v) else b.latMax,
            latSum := b.latSum + v, latN := b.latN + 1,
            latAvg := Some(Average(b.latSum + v, b.latN + 1)))
  }

  function PlusAll(b: Bucket, rs: seq<Result>): Bucket {
    if rs == [] then b else Plus(PlusAll(b, rs[..|rs| - 1]), rs[|rs| - 1])
  }

  function CountAll(rows: Rows, items: seq<Item>): Rows {
    if items == [] then rows
    else
      var before, last := CountAll(rows, items[..|items| - 1]), items[|items| - 1];
      before[last.key := Plus(RowOf(before, last.key), last.result)]
  }

  /** What a cycle counts: everything but the failures of an unverified one. */
  function ItemsOfCycle(client: ClientId): Cycle -> seq<Item> {
    (c: Cycle) => Flat(c.results, ItemOfResult(client, c))
  }

  function ItemOfResult(client: ClientId, c: Cycle): Result -> seq<Item> {
    (r: Result) => if !r.ok && c.unverified then [] else [Item(BucketKey(client, r.key, BucketStart(c.ts)), r)]
  }

  predicate SeqLe(c: Cycle, d: Cycle) { c.seqNo <= d.seqNo }

  function ItemsOf(client: ClientId, cycles: seq<Cycle>): seq<Item> {
    Flat(Sort(cycles, SeqLe), ItemsOfCycle(client))
  }

  /** Record, one result at a time. */
  function Recorded(rows: Rows, client: ClientId, cycles: seq<Cycle>): Rows {
    if client == "" then rows else CountAll(rows, ItemsOf(client, cycles))
  }

  // ---- confluence ----

  lemma {:induction false} CountAllConcat(rows: Rows, xs: seq<Item>, ys: seq<Item>)
    ensures CountAll(rows, xs + ys) == CountAll(CountAll(rows, xs), ys)
  {
    if ys == [] {
      assert xs + ys == xs;
    } else {
      var init := ys[..|ys| - 1];
      assert (xs + ys)[..|xs + ys| - 1] == xs + init;
      CountAllConcat(rows, xs, init);
    }
  }

  lemma SeqLeIsOrder()
    ensures TotalPreorder(SeqLe)
  {
  }

  /** Every cycle of xs comes before every cycle of ys. */
  ghost predicate Precedes(xs: seq<Cycle>, ys: seq<Cycle>) {
    forall x <- xs, y <- ys :: x.seqNo < y.seqNo
  }

  lemma RecordInTwo(rows: Rows, client: ClientId, xs: seq<Cycle>, ys: seq<Cycle>)
    requires Precedes(xs, ys)
    ensures Recorded(Recorded(rows, client, xs), client, ys) == Recorded(rows, client, xs + ys)
  {
    SeqLeIsOrder();
    SortAppendsLater(xs, ys, SeqLe);
    FlatConcat(Sort(xs, SeqLe), Sort(ys, SeqLe), ItemsOfCycle(client));
    CountAllConcat(rows, ItemsOf(client, xs), ItemsOf(client, ys));
  }

  function Joined(batches: seq<seq<Cycle>>): seq<Cycle> {
    if batches == [] then [] else Joined(batches[..|batches| - 1]) + batches[|batches| - 1]
  }

  function RecordedEach(rows: Rows, client: ClientId, batches: seq<seq<Cycle>>): Rows {
    if batches == [] then rows
    else Recorded(RecordedEach(rows, client, batches[..|batches| - 1]), client, batches[|batches| - 1])
  }

  lemma {:induction false} JoinedMembers(batches: seq<seq<Cycle>>, c: Cycle)
    ensures c in Joined(batches) <==> exists i :: 0 <= i < |batches| && c in batches[i]
  {
    if batches != [] {
      JoinedMembers(batches[..|batches| - 1], c);
      if c in Joined(batches[..|batches| - 1]) {
        var i :| 0 <= i < |batches| - 1 && c in batches[..|batches| - 1][i];
        assert c in batches[i];
      }
    }
  }

  /** However rising cycles are split over heartbeats, the buckets are those of a
      single Record of all of them. */
  lemma {:induction false} AnySplitRecordsAlike(rows: Rows, client: ClientId, batches: seq<seq<Cycle>>)
    requires forall i, j :: 0 <= i < j < |batches| ==> Precedes(batches[i], batches[j])
    ensures RecordedEach(rows, client, batches) == Recorded(rows, client, Joined(batches))
  {
    if batches == [] {
      assert Sort<Cycle>([], SeqLe) == [];
    } else {
      var init, last := batches[..|batches| - 1], batches[|batches| - 1];
      AnySplitRecordsAlike(rows, client, init);
      forall x | x in Joined(init) ensures forall y <- last :: x.seqNo < y.seqNo {
        JoinedMembers(init, x);
        var i :| 0 <= i < |init| && x in init[i];
        assert Precedes(batches[i], batches[|batches| - 1]);
      }
      RecordInTwo(rows, client, Joined(init), last);
    }
  }

  // ---- a bucket says what it counted ----

  function ResultsFor(items: seq<Item>, k: BucketKey): seq<Result> {
    if items == [] then []
    else
      var last := items[|items| - 1];
      ResultsFor(items[..|items| - 1], k) + (if last.key == k then [last.result] else [])
  }

  /** Counting into the table is counting into each bucket on its own. */
  lemma {:induction false} CountAllByKey(rows: Rows, items: seq<Item>, k: BucketKey)
    ensures RowOf(CountAll(rows, items), k) == PlusAll(RowOf(rows, k), ResultsFor(items, k))
    ensures k in CountAll(rows, items) <==> k in rows || ResultsFor(items, k) != []
  {
    if items != [] {
      CountAllByKey(rows, items[..|items| - 1], k);
      var rs := ResultsFor(items[..|items| - 1], k);
      if items[|items| - 1].key == k {
        assert (rs + [items[|items| - 1].result])[..|rs|] == rs;
      } else {
        assert rs + [] == rs;
      }
    }
  }

  function Count(rs: seq<Result>, ok: bool): nat {
    if rs == [] then 0 else Count(rs[..|rs| - 1], ok) + (if rs[|rs| - 1].ok == ok then 1 else 0)
  }

  /** The latencies of the successful results that measured one. */
  function Latencies(rs: seq<Result>): seq<int> {
    if rs == [] then []
    else
      var r := rs[|rs| - 1];
      Latencies(rs[..|rs| - 1]) + (if r.ok && r.tlsMs.Some? then [r.tlsMs.value] else [])
  }

  function Sum(vs: seq<int>): int {
    if vs == [] then 0 else Sum(vs[..|vs| - 1]) + vs[|vs| - 1]
  }

  /** The handshake of the latest successful AWG result, measured or not. */
  function LastHandshake(rs: seq<Result>): Option<int> {
    if rs == [] then None
    else
      var r := rs[|rs| - 1];
      if r.ok && r.key.kind == KIND_AWG then r.handshakeMs else LastHandshake(rs[..|rs| - 1])
  }

  ghost predicate IsLeast(m: Option<int>, vs: seq<int>) {
    if vs == [] then m == None else m.Some? && m.value in vs && forall v <- vs :: m.value <= v
  }

  ghost predicate IsGreatest(m: Option<int>, vs: seq<int>) {
    if vs == [] then m == None else m.Some? && m.value in vs && forall v <- vs :: v <= m.value
  }

  /** Everything a bucket holds, as a property of the results counted in it. */
  ghost predicate Summarises(b: Bucket, rs: seq<Result>) {
    var vs := Latencies(rs);
    && b.nOk == Count(rs, true) && b.nFail == Count(rs, false)
    && b.latSum == Sum(vs) && b.latN == |vs|
    && IsLeast(b.latMin, vs) && IsGreatest(b.latMax, vs)
    && b.latAvg == (if vs == [] then None else Some(Average(Sum(vs), |vs|)))
    && b.handshake == LastHandshake(rs)
  }

  lemma BestAppend(m: Option<int>, vs: seq<int>, v: int)
    ensures IsLeast(m, vs) ==> IsLeast(if m == None || v < m.value then Some(v) else m, vs + [v])
    ensures IsGreatest(m, vs) ==> IsGreatest(if m == None || v > m.value then Some(v) else m, vs + [v])
    ensures Sum(vs + [v]) == Sum(vs) + v
  {
    assert (vs + [v])[..|vs|] == vs;
  }

  lemma {:induction false} PlusAllSummarises(rs: seq<Result>)
    ensures Summarises(PlusAll(BLANK, rs), rs)
    ensures |Latencies(rs)| <= Count(rs, true)
  {
    if rs != [] {
      var init, r := rs[..|rs| - 1], rs[|rs| - 1];
      PlusAllSummarises(init);
      var b, vs := PlusAll(BLANK, init), Latencies(init);
      if r.ok && r.tlsMs.Some? {
        BestAppend(b.latMin, vs, r.tlsMs.value);
        BestAppend(b.latMax, vs, r.tlsMs.value);
      } else {
        assert Latencies(rs) == vs;
      }
    }
  }

  /** A result belongs to a bucket when it is about its target, its cycle fell into the
      five minutes from its start, and it is not a failure mon-server never heard in
      time. */
  predicate Belongs(r: Result, c: Cycle, k: BucketKey) {
    && r.key == k.key
    && k.start % 300000 == 0 && k.start <= c.ts < k.start + 300000
    && !(c.unverified && !r.ok)
  }

  function BelongingOf(rs: seq<Result>, c: Cycle, k: BucketKey): seq<Result> {
    if rs == [] then []
    else BelongingOf(rs[..|rs| - 1], c, k) + (if Belongs(rs[|rs| - 1], c, k) then [rs[|rs| - 1]] else [])
  }

  /** The results of the cycles that belong to a bucket, cycle by cycle. */
  function Belonging(cycles: seq<Cycle>, k: BucketKey): seq<Result> {
    if cycles == [] then []
    else Belonging(cycles[..|cycles| - 1], k) + BelongingOf(cycles[|cycles| - 1].results, cycles[|cycles| - 1], k)
  }

  /** What mon-client `client`'s cycles bring to a bucket, in the order of their seqs. */
  ghost predicate IsBrought(rs: seq<Result>, client: ClientId, cycles: seq<Cycle>, k: BucketKey) {
    if client == "" || k.client != client then rs == []
    else exists ordered :: InSeqOrder(ordered, cycles) && rs == Belonging(ordered, k)
  }

  ghost predicate InSeqOrder(ordered: seq<Cycle>, cycles: seq<Cycle>) {
    && multiset(ordered) == multiset(cycles)
    && forall i, j :: 0 <= i < j < |ordered| ==> ordered[i].seqNo <= ordered[j].seqNo
  }

  lemma StartIsUnique(ts: int, start: int)
    ensures BucketStart(ts) == start <==> start % 300000 == 0 && start <= ts < start + 300000
  {
    var own := BucketStart(ts);
    if start % 300000 == 0 && start <= ts < start + 300000 {
      assert own == 300000 * (own / 300000) && start == 300000 * (start / 300000);
    }
  }

  lemma {:induction false} ResultsForConcat(xs: seq<Item>, ys: seq<Item>, k: BucketKey)
    ensures ResultsFor(xs + ys, k) == ResultsFor(xs, k) + ResultsFor(ys, k)
  {
    if ys == [] {
      assert xs + ys == xs;
    } else {
      var init := ys[..|ys| - 1];
      assert (xs + ys)[..|xs + ys| - 1] == xs + init;
      ResultsForConcat(xs, init, k);
    }
  }

  lemma {:induction false} CycleBrings(client: ClientId, rs: seq<Result>, c: Cycle, k: BucketKey)
    ensures ResultsFor(Flat(rs, ItemOfResult(client, c)), k) == if k.client == client then BelongingOf(rs, c, k) else []
  {
    if rs != [] {
      var init, r := rs[..|rs| - 1], rs[|rs| - 1];
      CycleBrings(client, init, c, k);
      ResultsForConcat(Flat(init, ItemOfResult(client, c)), ItemOfResult(client, c)(r), k);
      OneBrings(client, r, c, k);
    }
  }

  lemma OneBrings(client: ClientId, r: Result, c: Cycle, k: BucketKey)
    ensures ResultsFor(ItemOfResult(client, c)(r), k) == if k.client == client && Belongs(r, c, k) then [r] else []
  {
    StartIsUnique(c.ts, k.start);
    var items := ItemOfResult(client, c)(r);
    if items != [] {
      assert items[..0] == [];
    }
  }

  lemma {:induction false} CyclesBring(client: ClientId, cycles: seq<Cycle>, k: BucketKey)
    ensures ResultsFor(Flat(cycles, ItemsOfCycle(client)), k) == if k.client == client then Belonging(cycles, k) else []
  {
    if cycles != [] {
      var init, c := cycles[..|cycles| - 1], cycles[|cycles| - 1];
      CyclesBring(client, init, k);
      CycleBrings(client, c.results, c, k);
      ResultsForConcat(Flat(init, ItemsOfCycle(client)), Flat(c.results, ItemOfResult(client, c)), k);
    }
  }

  lemma ItemsAreBrought(client: ClientId, cycles: seq<Cycle>, k: BucketKey)
    requires client != ""
    ensures IsBrought(ResultsFor(ItemsOf(client, cycles), k), client, cycles, k)
  {
    SeqLeIsOrder();
    SortSorts(cycles, SeqLe);
    CyclesBring(client, Sort(cycles, SeqLe), k);
    assert forall i, j :: 0 <= i < j < |cycles| ==> SeqLe(Sort(cycles, SeqLe)[i], Sort(cycles, SeqLe)[j]);
    assert InSeqOrder(Sort(cycles, SeqLe), cycles);
  }

  /** Recording changes exactly the buckets something is brought to, and makes each of
      those the bucket it was with the results brought counted in it, owed again. */
  lemma RecordCountsWhatIsBrought(rows: Rows, client: ClientId, cycles: seq<Cycle>, k: BucketKey)
    ensures exists rs :: IsBrought(rs, client, cycles, k) && CountedIn(rows, Recorded(rows, client, cycles), k, rs)
  {
    if client == "" {
      assert IsBrought([], client, cycles, k) && CountedIn(rows, rows, k, []);
    } else {
      var rs := ResultsFor(ItemsOf(client, cycles), k);
      ItemsAreBrought(client, cycles, k);
      CountAllByKey(rows, ItemsOf(client, cycles), k);
      PlusAllGains(RowOf(rows, k), rs);
      assert CountedIn(rows, Recorded(rows, client, cycles), k, rs);
    }
  }

  ghost predicate CountedIn(rows: Rows, after: Rows, k: BucketKey, rs: seq<Result>) {
    if rs == [] then (k in after <==> k in rows) && (k in rows ==> after[k] == rows[k])
    else
      && k in after && after[k].sentAt == None && !after[k].dropped
      && after[k].nOk == RowOf(rows, k).nOk + Count(rs, true) && after[k].nFail == RowOf(rows, k).nFail + Count(rs, false)
      && after[k].latSum == RowOf(rows, k).latSum + Sum(Latencies(rs)) && after[k].latN == RowOf(rows, k).latN + |Latencies(rs)|
  }

  lemma {:induction false} PlusAllGains(b: Bucket, rs: seq<Result>)
    ensures var d := PlusAll(b, rs);
            && d.nOk == b.nOk + Count(rs, true) && d.nFail == b.nFail + Count(rs, false)
            && d.latSum == b.latSum + Sum(Latencies(rs)) && d.latN == b.latN + |Latencies(rs)|
            && (rs != [] ==> d.sentAt == None && !d.dropped)
  {
    if rs != [] {
      var init, r := rs[..|rs| - 1], rs[|rs| - 1];
      PlusAllGains(b, init);
      if r.ok && r.tlsMs.Some? {
        BestAppend(None, Latencies(init), r.tlsMs.value);
      } else {
        assert Latencies(rs) == Latencies(init);
      }
    }
  }

  /** Starting from no buckets, a bucket summarises exactly the results its window
      brings it, in the order of their cycles' seqs: counts, extremes, sum, and the
      latest AWG handshake; without a success it has no latency at all. */
  lemma BucketSummarisesItsWindow(client: ClientId, cycles: seq<Cycle>, k: BucketKey)
    ensures var b := RowOf(Recorded(map[], client, cycles), k);
            && (exists rs :: IsBrought(rs, client, cycles, k) && Summarises(b, rs))
            && (b.nOk == 0 ==> b.latMin == None && b.latAvg == None && b.latMax == None && b.handshake == None)
  {
    var b := RowOf(Recorded(map[], client, cycles), k);
    if client == "" {
      assert IsBrought([], client, cycles, k) && Summarises(b, []);
    } else {
      var items := ItemsOf(client, cycles);
      ItemsAreBrought(client, cycles, k);
      CountAllByKey(map[], items, k);
      var rs := ResultsFor(items, k);
      PlusAllSummarises(rs);
      NoSuccessNoHandshake(rs);
      assert Summarises(b, rs);
    }
  }

  lemma {:induction false} NoSuccessNoHandshake(rs: seq<Result>)
    ensures Count(rs, true) == 0 ==> LastHandshake(rs) == None
  {
    if rs != [] {
      NoSuccessNoHandshake(rs[..|rs| - 1]);
    }
  }

  lemma {:induction false} SumBetween(vs: seq<int>, low: int, high: int)
    requires forall i :: 0 <= i < |vs| ==> low <= vs[i] <= high
    ensures |vs| * low <= Sum(vs) <= |vs| * high
  {
    if vs != [] {
      SumBetween(vs[..|vs| - 1], low, high);
    }
  }

  lemma DivBetween(sum: int, n: nat, low: int, high: int)
    requires n > 0 && 0 <= low && n * low <= sum <= n * high
    ensures low <= Average(sum, n) <= high
    ensures 0 - n <= 2 * (n * Average(sum, n) - sum) <= n
  {
    MulMonotone(n, 0, low);
    var a := sum + n / 2;
    var q := Average(sum, n);
    Quotient(a, n);
    if q < low {
      MulMonotone(n, q + 1, low);
    }
    if q > high {
      MulMonotone(n, high + 1, q);
    }
  }

  lemma Quotient(a: int, n: nat)
    requires n > 0 && a >= 0
    ensures n * (a / n) <= a < n * (a / n + 1)
  {
    assert a == n * (a / n) + a % n;
  }

  lemma MulMonotone(n: nat, x: int, y: int)
    requires x <= y
    ensures n * x <= n * y
  {
  }

  /** The stored average is the exact mean to within half a millisecond, and lies
      between the extremes. */
  lemma AverageIsHonest(b: Bucket, rs: seq<Result>)
    requires Summarises(b, rs) && Latencies(rs) != [] && forall v <- Latencies(rs) :: v >= 0
    ensures b.latMin.Some? && b.latMax.Some? && b.latAvg.Some?
    ensures b.latMin.value <= b.latAvg.value <= b.latMax.value
    ensures 0 - b.latN <= 2 * (b.latN * b.latAvg.value - b.latSum) <= b.latN
  {
    var vs := Latencies(rs);
    assert forall i :: 0 <= i < |vs| ==> vs[i] in vs;
    SumBetween(vs, b.latMin.value, b.latMax.value);
    DivBetween(b.latSum, b.latN, b.latMin.value, b.latMax.value);
  }

  // ---- conservation ----

  ghost function Total(rows: Rows): nat {
    if rows == map[] then 0
    else
      var k :| k in rows;
      rows[k].nOk + rows[k].nFail + Total(rows - {k})
  }

  lemma {:induction false} TotalWithout(rows: Rows, k: BucketKey)
    requires k in rows
    ensures Total(rows) == rows[k].nOk + rows[k].nFail + Total(rows - {k})
    decreases |rows|
  {
    var j :| j in rows && Total(rows) == rows[j].nOk + rows[j].nFail + Total(rows - {j});
    if j != k {
      TotalWithout(rows - {j}, k);
      TotalWithout(rows - {k}, j);
      assert (rows - {j}) - {k} == (rows - {k}) - {j};
    }
  }

  lemma TotalUpdated(rows: Rows, k: BucketKey, b: Bucket)
    ensures Total(rows[k := b]) == Total(rows) - RowOf(rows, k).nOk - RowOf(rows, k).nFail + b.nOk + b.nFail
  {
    TotalWithout(rows[k := b], k);
    assert rows[k := b] - {k} == rows - {k};
    if k in rows {
      TotalWithout(rows, k);
    } else {
      assert rows - {k} == rows;
    }
  }

  /** Counts are conserved: the buckets gain one per counted result, no more. */
  lemma {:induction false} NothingIsLost(rows: Rows, items: seq<Item>)
    ensures Total(CountAll(rows, items)) == Total(rows) + |items|
  {
    if items != [] {
      NothingIsLost(rows, items[..|items| - 1]);
      var before, last := CountAll(rows, items[..|items| - 1]), items[|items| - 1];
      TotalUpdated(before, last.key, Plus(RowOf(before, last.key), last.result));
    }
  }

  // Sorting heartbeats' cycles moves results, and loses none.

  lemma {:induction false} PlaceFlat(cycles: seq<Cycle>, c: Cycle, f: Cycle -> seq<Item>)
    ensures |Flat(Place(cycles, c, SeqLe), f)| == |Flat(cycles, f)| + |f(c)|
  {
    if cycles == [] {
      FlatAppend([], c, f);
      assert [] + [c] == [c];
    } else {
      var init, last := cycles[..|cycles| - 1], cycles[|cycles| - 1];
      if SeqLe(last, c) {
        FlatAppend(cycles, c, f);
      } else {
        PlaceFlat(init, c, f);
        FlatAppend(Place(init, c, SeqLe), last, f);
      }
    }
  }

  lemma {:induction false} SortFlat(cycles: seq<Cycle>, f: Cycle -> seq<Item>)
    ensures |Flat(Sort(cycles, SeqLe), f)| == |Flat(cycles, f)|
  {
    if cycles != [] {
      var init, last := cycles[..|cycles| - 1], cycles[|cycles| - 1];
      SortFlat(init, f);
      PlaceFlat(Sort(init, SeqLe), last, f);
    }
  }

  /** The results a cycle is worth: all of them, but for the failures of one that
      mon-server never heard in time. */
  function Worth(rs: seq<Result>, unverified: bool): nat {
    if rs == [] then 0
    else Worth(rs[..|rs| - 1], unverified) + (if unverified && !rs[|rs| - 1].ok then 0 else 1)
  }

  function WorthAll(cycles: seq<Cycle>): nat {
    if cycles == [] then 0
    else WorthAll(cycles[..|cycles| - 1]) + Worth(cycles[|cycles| - 1].results, cycles[|cycles| - 1].unverified)
  }

  lemma {:induction false} CycleIsWorthItsItems(rs: seq<Result>, client: ClientId, c: Cycle)
    ensures |Flat(rs, ItemOfResult(client, c))| == Worth(rs, c.unverified)
  {
    if rs != [] {
      CycleIsWorthItsItems(rs[..|rs| - 1], client, c);
    }
  }

  lemma {:induction false} CyclesAreWorthTheirItems(client: ClientId, cycles: seq<Cycle>)
    ensures |Flat(cycles, ItemsOfCycle(client))| == WorthAll(cycles)
  {
    if cycles != [] {
      var last := cycles[|cycles| - 1];
      CyclesAreWorthTheirItems(client, cycles[..|cycles| - 1]);
      CycleIsWorthItsItems(last.results, client, last);
    }
  }

  /** Conservation: recording a heartbeat adds to the buckets' counts exactly its
      results less the failures of its unverified cycles, whatever order they came in. */
  lemma RecordConserves(rows: Rows, client: ClientId, cycles: seq<Cycle>)
    requires client != ""
    ensures Total(Recorded(rows, client, cycles)) == Total(rows) + WorthAll(cycles)
  {
    NothingIsLost(rows, ItemsOf(client, cycles));
    SortFlat(cycles, ItemsOfCycle(client));
    CyclesAreWorthTheirItems(client, cycles);
  }

  // ---- the program: deltas first, then one merge per bucket ----

  datatype Sums = Sums(nOk: nat, nFail: nat, latSum: int, latN: nat, latMin: int, latMax: int, handshakeSet: bool, handshake: Option<int>)

  const NO_SUMS := Sums(0, 0, 0, 0, 0, 0, false, None)

  function SumsPlus(d: Sums, r: Result): Sums {
    if !r.ok then d.(nFail := d.nFail + 1)
    else
      var ok := d.(nOk := d.nOk + 1,
                   handshakeSet := d.handshakeSet || r.key.kind == KIND_AWG,
                   handshake := if r.key.kind == KIND_AWG then r.handshakeMs else d.handshake);
      match r.tlsMs
      case None => ok
      case Some(v) =>
        ok.(latMin := if d.latN == 0 || v < d.latMin then v else d.latMin,
            latMax := if d.latN == 0 || v > d.latMax then v else d.latMax,
            latSum := d.latSum + v, latN := d.latN + 1)
  }

  function SumsOf(rs: seq<Result>): Sums {
    if rs == [] then NO_SUMS else SumsPlus(SumsOf(rs[..|rs| - 1]), rs[|rs| - 1])
  }

  function Merged(row: Bucket, d: Sums): Bucket {
    var counted := row.(nOk := row.nOk + d.nOk, nFail := row.nFail + d.nFail, sentAt := None, dropped := false);
    var timed := if d.latN == 0 then counted
                 else counted.(latMin := if row.latMin == None || d.latMin < row.latMin.value then Some(d.latMin) else row.latMin,
                               latMax := if row.latMax == None || d.latMax > row.latMax.value then Some(d.latMax) else row.latMax,
                               latSum := row.latSum + d.latSum, latN := row.latN + d.latN,
                               latAvg := Some(Average(row.latSum + d.latSum, row.latN + d.latN)));
    var shaken := if d.handshakeSet then timed.(handshake := d.handshake) else timed;
    if shaken.nOk == 0 then shaken.(latMin := None, latAvg := None, latMax := None, handshake := None) else shaken
  }

  /** A bucket without a success holds no latency. */
  predicate Tidy(b: Bucket) {
    b.nOk == 0 ==> b.latMin == None && b.latAvg == None && b.latMax == None && b.handshake == None
  }

  lemma {:induction false} SumsAreSane(rs: seq<Result>)
    ensures var d := SumsOf(rs);
            (d.nOk == 0 ==> d.latN == 0 && !d.handshakeSet) && (d.latN == 0 ==> d.latSum == 0)
  {
    if rs != [] {
      SumsAreSane(rs[..|rs| - 1]);
    }
  }

  lemma MergeOneMore(row: Bucket, d: Sums, r: Result)
    requires Tidy(row) && (d.nOk == 0 ==> d.latN == 0 && !d.handshakeSet) && (d.latN == 0 ==> d.latSum == 0)
    ensures Merged(row, SumsPlus(d, r)) == Plus(Merged(row, d), r)
  {
  }

  /** Merging a heartbeat's sums is counting its results one at a time. */
  lemma {:induction false} MergeIsCounting(row: Bucket, rs: seq<Result>)
    requires Tidy(row) && rs != []
    ensures Merged(row, SumsOf(rs)) == PlusAll(row, rs)
  {
    var init, r := rs[..|rs| - 1], rs[|rs| - 1];
    SumsAreSane(init);
    MergeOneMore(row, SumsOf(init), r);
    if init != [] {
      MergeIsCounting(row, init);
    } else {
      assert Plus(Merged(row, NO_SUMS), r) == Plus(row, r);
    }
  }

  lemma {:induction false} PlusAllStaysTidy(b: Bucket, rs: seq<Result>)
    requires Tidy(b)
    ensures Tidy(PlusAll(b, rs))
  {
    if rs != [] {
      PlusAllStaysTidy(b, rs[..|rs| - 1]);
    }
  }
}
