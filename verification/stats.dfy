/** The stats_buckets table in place, and its flush to the panel
    (internal/state/stats.go). */
module Stats {
  import opened Wrappers
  import opened Store
  import opened Sorting
  import opened Flatten
  import opened Wire
  import opened Buckets
  import opened PanelClient

  const CLOSE_DELAY: int := 60000
  const MAX_BATCH := 2000

  // ---- recording ----

  /** add: folds one result into what the heartbeat adds to its bucket. */
  method Add(delta: Sums, r: Result) returns (d: Sums)
    ensures d == SumsPlus(delta, r)
  {
    d := delta;
    if !r.ok {
      d := d.(nFail := d.nFail + 1);
      return;
    }
    d := d.(nOk := d.nOk + 1);
    if r.tlsMs.Some? {
      var v := r.tlsMs.value;
      if d.latN == 0 || v < d.latMin {
        d := d.(latMin := v);
      }
      if d.latN == 0 || v > d.latMax {
        d := d.(latMax := v);
      }
      d := d.(latSum := d.latSum + v, latN := d.latN + 1);
    }
    if r.key.kind == KIND_AWG {
      d := d.(handshakeSet := true, handshake := r.handshakeMs);
    }
  }

  function Absorb(ks: seq<BucketKey>, k: BucketKey): seq<BucketKey> {
    if k in ks then ks else ks + [k]
  }

  /** The keys of a table after `items` were counted in order: new ones at the end. */
  function Absorbed(ks: seq<BucketKey>, items: seq<Item>): seq<BucketKey> {
    if items == [] then ks else Absorb(Absorbed(ks, items[..|items| - 1]), items[|items| - 1].key)
  }

  function AbsorbAll(ks: seq<BucketKey>, more: seq<BucketKey>): seq<BucketKey> {
    if more == [] then ks else Absorb(AbsorbAll(ks, more[..|more| - 1]), more[|more| - 1])
  }

  lemma {:induction false} AbsorbedKeys(ks: seq<BucketKey>, items: seq<Item>)
    requires Distinct(ks)
    ensures Distinct(Absorbed(ks, items))
    ensures forall k :: k in Absorbed(ks, items) <==> k in ks || ResultsFor(items, k) != []
  {
    if items != [] {
      AbsorbedKeys(ks, items[..|items| - 1]);
    }
  }

  /** Grouping a heartbeat's keys first does not change the order rows are created in. */
  lemma {:induction false} GroupingKeepsOrder(ks: seq<BucketKey>, items: seq<Item>)
    ensures AbsorbAll(ks, Absorbed([], items)) == Absorbed(ks, items)
  {
    if items != [] {
      var init, k := items[..|items| - 1], items[|items| - 1].key;
      GroupingKeepsOrder(ks, init);
      var group := Absorbed([], init);
      if k in group {
        AbsorbAllHolds(ks, group, k);
      } else {
        assert (group + [k])[..|group|] == group;
      }
    }
  }

  lemma {:induction false} AbsorbAllHolds(ks: seq<BucketKey>, more: seq<BucketKey>, k: BucketKey)
    ensures k in AbsorbAll(ks, more) <==> k in ks || k in more
  {
    if more != [] {
      AbsorbAllHolds(ks, more[..|more| - 1], k);
      assert more == more[..|more| - 1] + [more[|more| - 1]];
    }
  }

  lemma OneMoreResult(done: seq<Item>, rs: seq<Result>, j: nat, f: Result -> seq<Item>)
    requires j < |rs|
    ensures done + Flat(rs[..j + 1], f) == (done + Flat(rs[..j], f)) + f(rs[j])
  {
    assert rs[..j + 1] == rs[..j] + [rs[j]];
    FlatAppend(rs[..j], rs[j], f);
  }

  lemma OneMoreCycle(client: ClientId, cycles: seq<Cycle>, i: nat)
    requires i < |cycles|
    ensures Flat(cycles[..i + 1], ItemsOfCycle(client)) ==
            Flat(cycles[..i], ItemsOfCycle(client)) + Flat(cycles[i].results, ItemOfResult(client, cycles[i]))
  {
    assert cycles[..i + 1] == cycles[..i] + [cycles[i]];
    FlatAppend(cycles[..i], cycles[i], ItemsOfCycle(client));
  }

  /** deltas holds the sums of each key of items, and order their first appearances. */
  ghost predicate Grouped(deltas: map<BucketKey, Sums>, order: seq<BucketKey>, items: seq<Item>) {
    && order == Absorbed([], items)
    && (forall k :: k in deltas <==> k in order)
    && (forall k :: k in deltas ==> deltas[k] == SumsOf(ResultsFor(items, k)))
  }

  lemma GroupStep(order: seq<BucketKey>, done: seq<Item>, k: BucketKey, r: Result)
    requires order == Absorbed([], done)
    ensures var more := done + [Item(k, r)];
            && Absorbed([], more) == Absorb(order, k)
            && (forall j :: j != k ==> ResultsFor(more, j) == ResultsFor(done, j))
            && SumsOf(ResultsFor(more, k)) == SumsPlus(SumsOf(ResultsFor(done, k)), r)
            && (k !in order ==> SumsOf(ResultsFor(done, k)) == NO_SUMS)
  {
    var more := done + [Item(k, r)];
    assert more[..|done|] == done;
    var rs := ResultsFor(done, k);
    assert (rs + [r])[..|rs|] == rs;
    AbsorbedKeys([], done);
    forall j | j != k ensures ResultsFor(more, j) == ResultsFor(done, j) {
      assert ResultsFor(done, j) + [] == ResultsFor(done, j);
    }
  }

  /** Record's inner body: one probe result into its bucket's delta. */
  method GroupResult(deltas: map<BucketKey, Sums>, order: seq<BucketKey>, ghost done: seq<Item>, k: BucketKey, r: Result)
    returns (deltas': map<BucketKey, Sums>, order': seq<BucketKey>)
    requires Grouped(deltas, order, done)
    ensures Grouped(deltas', order', done + [Item(k, r)])
  {
    deltas', order' := deltas, order;
    GroupStep(order, done, k, r);
    if k !in deltas' {
      deltas' := deltas'[k := NO_SUMS];
      order' := order' + [k];
    }
    var d := Add(deltas'[k], r);
    deltas' := deltas'[k := d];
  }

  method GroupCycle(deltas: map<BucketKey, Sums>, order: seq<BucketKey>, ghost done: seq<Item>, client: ClientId, c: Cycle)
    returns (deltas': map<BucketKey, Sums>, order': seq<BucketKey>)
    requires Grouped(deltas, order, done)
    ensures Grouped(deltas', order', done + Flat(c.results, ItemOfResult(client, c)))
  {
    deltas', order' := deltas, order;
    var start := BucketStart(c.ts);
    ghost var seen := done;
    assert done + [] == done;
    for j := 0 to |c.results|
      invariant seen == done + Flat(c.results[..j], ItemOfResult(client, c))
      invariant Grouped(deltas', order', seen)
    {
      var r := c.results[j];
      OneMoreResult(done, c.results, j, ItemOfResult(client, c));
      if r.ok || !c.unverified {
        deltas', order' := GroupResult(deltas', order', seen, BucketKey(client, r.key, start), r);
        seen := seen + [Item(BucketKey(client, r.key, start), r)];
      } else {
        assert seen + [] == seen;
      }
    }
    assert c.results[..|c.results|] == c.results;
  }

  /** The grouping half of Record: one delta per bucket the heartbeat touches. */
  method Group(client: ClientId, cycles: seq<Cycle>) returns (deltas: map<BucketKey, Sums>, order: seq<BucketKey>)
    ensures Grouped(deltas, order, ItemsOf(client, cycles))
  {
    deltas, order := map[], [];
    var ordered := Sort(cycles, SeqLe);
    for i := 0 to |ordered|
      invariant Grouped(deltas, order, Flat(ordered[..i], ItemsOfCycle(client)))
    {
      OneMoreCycle(client, ordered, i);
      deltas, order := GroupCycle(deltas, order, Flat(ordered[..i], ItemsOfCycle(client)), client, ordered[i]);
    }
    assert ordered[..|ordered|] == ordered;
  }

  // ---- flushing ----

  /** MonStatIn: what the panel is told about one bucket. */
  datatype Payload = Payload(
    key: BucketKey, nOk: nat, nFail: nat,
    latMin: Option<int>, latAvg: Option<int>, latMax: Option<int>, handshake: Option<int>)

  function PayloadOf(k: BucketKey, b: Bucket): Payload {
    Payload(k, b.nOk, b.nFail, b.latMin, b.latAvg, b.latMax, b.handshake)
  }

  /** What the panel is told about a bucket: its window, its target, and the counts,
      extremes, average and handshake of the results its window brought. */
  lemma PayloadTellsTheWindow(client: ClientId, cycles: seq<Cycle>, k: BucketKey)
    ensures var p := PayloadOf(k, RowOf(Recorded(map[], client, cycles), k));
            && p.key == k
            && exists rs :: IsBrought(rs, client, cycles, k) && Tells(p, rs)
  {
    BucketSummarisesItsWindow(client, cycles, k);
    var rs :| IsBrought(rs, client, cycles, k) && Summarises(RowOf(Recorded(map[], client, cycles), k), rs);
    assert Tells(PayloadOf(k, RowOf(Recorded(map[], client, cycles), k)), rs);
  }

  ghost predicate Tells(p: Payload, rs: seq<Result>) {
    var vs := Latencies(rs);
    && p.nOk == Count(rs, true) && p.nFail == Count(rs, false)
    && IsLeast(p.latMin, vs) && IsGreatest(p.latMax, vs)
    && p.latAvg == (if vs == [] then None else Some(Average(Sum(vs), |vs|)))
    && p.handshake == LastHandshake(rs)
  }

  predicate IsDue(rows: Rows, k: BucketKey, closedBefore: int) {
    k in rows && rows[k].sentAt == None && k.start <= closedBefore
  }

  function DueOf(rows: Rows, ids: seq<BucketKey>, closedBefore: int): (r: seq<BucketKey>)
    ensures forall k :: k in r <==> k in ids && IsDue(rows, k, closedBefore)
    ensures Distinct(ids) ==> Distinct(r)
  {
    if ids == [] then []
    else
      var last := ids[|ids| - 1];
      assert ids == ids[..|ids| - 1] + [last];
      DueOf(rows, ids[..|ids| - 1], closedBefore) + (if IsDue(rows, last, closedBefore) then [last] else [])
  }

  predicate StartLe(j: BucketKey, k: BucketKey) { j.start <= k.start }

  function BatchOf(rows: Rows, ids: seq<BucketKey>, closedBefore: int): seq<BucketKey> {
    var due := Sort(DueOf(rows, ids, closedBefore), StartLe);
    if |due| > MAX_BATCH then due[..MAX_BATCH] else due
  }

  /** A batch holds unsent buckets of closed windows only, at most two thousand and none
      twice; one is left out only when the batch is full, and of no earlier a window. */
  lemma BatchIsTheEarliestDue(rows: Rows, ids: seq<BucketKey>, closedBefore: int)
    requires Distinct(ids) && forall k :: k in ids <==> k in rows
    ensures var batch := BatchOf(rows, ids, closedBefore);
            && |batch| <= MAX_BATCH && Distinct(batch)
            && (forall k <- batch :: k in rows && rows[k].sentAt == None && k.start <= closedBefore)
            && (forall k :: k in rows && rows[k].sentAt == None && k.start <= closedBefore && k !in batch ==>
                  |batch| == MAX_BATCH && forall j <- batch :: j.start <= k.start)
  {
    var sorted, batch := Sort(DueOf(rows, ids, closedBefore), StartLe), BatchOf(rows, ids, closedBefore);
    SortedDue(rows, ids, closedBefore);
    assert batch == sorted[..|batch|] && (|batch| < MAX_BATCH ==> batch == sorted);
    hide BatchOf, DueOf, Sort;
    forall k | IsDue(rows, k, closedBefore) && k !in batch ensures forall j <- batch :: j.start <= k.start {
      forall j | j in batch ensures j.start <= k.start {
        EarliestFirst(sorted, |batch|, j, k);
      }
    }
  }

  lemma EarliestFirst(sorted: seq<BucketKey>, p: nat, j: BucketKey, k: BucketKey)
    requires Sorted(sorted, StartLe) && p <= |sorted| && j in sorted[..p] && k in sorted && k !in sorted[..p]
    ensures j.start <= k.start
  {
    var m :| 0 <= m < p && sorted[..p][m] == j;
    var n :| 0 <= n < |sorted| && sorted[n] == k;
    NotInPrefix(sorted, p, n);
    assert StartLe(sorted[m], sorted[n]);
  }

  lemma NotInPrefix(xs: seq<BucketKey>, p: nat, n: nat)
    requires p <= |xs| && n < |xs|
    ensures xs[n] !in xs[..p] ==> p <= n
  {
    assert n < p ==> xs[..p][n] == xs[n];
  }

  lemma SortedDue(rows: Rows, ids: seq<BucketKey>, closedBefore: int)
    requires Distinct(ids) && forall k :: k in ids <==> k in rows
    ensures var sorted := Sort(DueOf(rows, ids, closedBefore), StartLe);
            && Distinct(sorted) && Sorted(sorted, StartLe)
            && forall k :: k in sorted <==> IsDue(rows, k, closedBefore)
  {
    var due := DueOf(rows, ids, closedBefore);
    SortSorts(due, StartLe);
    var sorted := Sort(due, StartLe);
    DistinctIsPermuted(due, sorted);
    forall k ensures k in sorted <==> IsDue(rows, k, closedBefore) {
      assert k in sorted <==> k in multiset(sorted);
      assert k in due <==> k in multiset(due);
    }
  }

  /** PostStats: refused element by element, or failed as a whole. */
  datatype StatsAnswer = Accepted(rejected: seq<Rejection>) | Failed(failure: Failure)

  datatype Verdict = Kept | Sent | Given

  /** What an answer means for the i-th bucket of a batch. */
  function VerdictOn(answer: StatsAnswer, n: nat, i: nat): Verdict {
    match answer
    case Failed(f) => if IsRetryable(f) then Kept else Given
    case Accepted(rejected) => if i in RejectionsOf(n, rejected, None) then Given else Sent
  }

  function Stamped(b: Bucket, verdict: Verdict, at: int): Bucket {
    match verdict
    case Kept => b
    case Sent => b.(sentAt := Some(at))
    case Given => b.(sentAt := Some(at), dropped := true)
  }

  function IndexIn(ks: seq<BucketKey>, k: BucketKey): (i: nat)
    requires k in ks
    ensures i < |ks| && ks[i] == k
  {
    if ks[|ks| - 1] == k then |ks| - 1
    else
      assert ks == ks[..|ks| - 1] + [ks[|ks| - 1]];
      IndexIn(ks[..|ks| - 1], k)
  }

  /** The table once an answer to a batch has been filed. */
  function Answered(rows: Rows, batch: seq<BucketKey>, answer: StatsAnswer, at: int): Rows {
    map k | k in rows :: if k in batch then Stamped(rows[k], VerdictOn(answer, |batch|, IndexIn(batch, k)), at) else rows[k]
  }

  function PayloadsOf(rows: Rows, batch: seq<BucketKey>): seq<Payload>
    requires forall k <- batch :: k in rows
  {
    seq(|batch|, i requires 0 <= i < |batch| => PayloadOf(batch[i], rows[batch[i]]))
  }

  /** What the panel has last been told, and has last acknowledged, per bucket. */
  datatype Told = Told(posted: map<BucketKey, Payload>, acknowledged: map<BucketKey, Payload>)

  ghost function Informed(t: Told, rows: Rows, batch: seq<BucketKey>, answer: StatsAnswer): Told
    requires forall k <- batch :: k in rows
  {
    Told(t.posted + (map k | k in batch :: PayloadOf(k, rows[k])),
         t.acknowledged + (map k | k in batch && VerdictOn(answer, |batch|, IndexIn(batch, k)) == Sent :: PayloadOf(k, rows[k])))
  }

  /** A stamped bucket the panel did not refuse is exactly what the panel was last
      told about it, and acknowledged. */
  ghost predicate Agrees(rows: Rows, t: Told) {
    forall k :: k in rows && rows[k].sentAt.Some? && !rows[k].dropped ==>
      var p := PayloadOf(k, rows[k]);
      k in t.posted && t.posted[k] == p && k in t.acknowledged && t.acknowledged[k] == p
  }

  /** A batch the panel answers is stamped in full; a bucket of it is given up on
      exactly when the answer names its index, or refuses the batch as a whole. */
  lemma AnsweredElementByElement(rows: Rows, batch: seq<BucketKey>, answer: StatsAnswer, at: int, i: nat)
    requires Distinct(batch) && AllDue(rows, batch) && i < |batch|
    requires answer.Failed? ==> !IsRetryable(answer.failure)
    ensures var row := Answered(rows, batch, answer, at)[batch[i]];
            && PayloadOf(batch[i], row) == PayloadOf(batch[i], rows[batch[i]])
            && row.sentAt == Some(at)
            && (row.dropped <==> answer.Failed? || exists r <- answer.rejected :: r.index == i)
  {
    assert batch[i] in rows;
    assert IndexIn(batch, batch[i]) == i;
    if answer.Accepted? {
      RefusedAreTheIndexed(|batch|, answer.rejected, i);
    }
  }

  predicate AllDue(rows: Rows, batch: seq<BucketKey>) {
    forall k <- batch :: k in rows && rows[k].sentAt == None && !rows[k].dropped
  }

  lemma AnsweringKeepsAgreement(rows: Rows, t: Told, batch: seq<BucketKey>, answer: StatsAnswer, at: int)
    requires AllDue(rows, batch) && Agrees(rows, t)
    ensures Agrees(Answered(rows, batch, answer, at), Informed(t, rows, batch, answer))
  {
  }

  /** New data takes a bucket out of the agreement by clearing its stamp, and
      leaves every other bucket in it. */
  lemma RecordingKeepsAgreement(rows: Rows, t: Told, items: seq<Item>)
    requires Agrees(rows, t)
    ensures Agrees(CountAll(rows, items), t)
    ensures forall k :: ResultsFor(items, k) != [] ==> k in CountAll(rows, items) && CountAll(rows, items)[k].sentAt == None
  {
    forall k
      ensures k in CountAll(rows, items) <==> k in rows || ResultsFor(items, k) != []
      ensures k in CountAll(rows, items) ==>
                if ResultsFor(items, k) == [] then k in rows && CountAll(rows, items)[k] == rows[k]
                else CountAll(rows, items)[k].sentAt == None
    {
      CountAllByKey(rows, items, k);
    }
  }

  /** Everything that happens to the table, a batch and its stamps as one event. */
  datatype Happening = Heard(client: ClientId, cycles: seq<Cycle>) | Offered(closedBefore: int, answer: StatsAnswer, at: int)

  datatype Desk = Desk(rows: Rows, ids: seq<BucketKey>, told: Told)

  ghost predicate IsTable(d: Desk) {
    && Distinct(d.ids) && (forall k :: k in d.ids <==> k in d.rows)
    && forall k :: k in d.rows ==> Tidy(d.rows[k]) && (d.rows[k].sentAt == None ==> !d.rows[k].dropped)
  }

  ghost function NextDesk(d: Desk, h: Happening): Desk {
    match h
    case Heard(client, cycles) =>
      if client == "" then d
      else d.(rows := Recorded(d.rows, client, cycles), ids := Absorbed(d.ids, ItemsOf(client, cycles)))
    case Offered(closedBefore, answer, at) =>
      var batch := BatchOf(d.rows, d.ids, closedBefore);
      if forall k <- batch :: k in d.rows then
        d.(rows := Answered(d.rows, batch, answer, at), told := Informed(d.told, d.rows, batch, answer))
      else d
  }

  ghost function RunFrom(d: Desk, run: seq<Happening>): Desk {
    if run == [] then d else NextDesk(RunFrom(d, run[..|run| - 1]), run[|run| - 1])
  }

  const EMPTY_DESK := Desk(map[], [], Told(map[], map[]))

  /** The buckets still owed to the panel: what a flush uses up. */
  ghost function Owed(rows: Rows, closedBefore: int): set<BucketKey> {
    set k | k in rows && IsDue(rows, k, closedBefore)
  }

  /** Owed is every bucket not yet stamped whose window has closed by the cut-off. */
  lemma OwedAre(rows: Rows, closedBefore: int, k: BucketKey)
    ensures k in Owed(rows, closedBefore) <==> k in rows && rows[k].sentAt == None && k.start <= closedBefore
  {
  }

  lemma RoundUsesUp(rows: Rows, ids: seq<BucketKey>, closedBefore: int, answer: StatsAnswer, at: int)
    requires Distinct(ids) && forall k :: k in ids <==> k in rows
    requires BatchOf(rows, ids, closedBefore) != []
    requires answer.Failed? ==> !IsRetryable(answer.failure)
    ensures Owed(Answered(rows, BatchOf(rows, ids, closedBefore), answer, at), closedBefore) < Owed(rows, closedBefore)
  {
    var batch := BatchOf(rows, ids, closedBefore);
    BatchIsTheEarliestDue(rows, ids, closedBefore);
    var after := Answered(rows, batch, answer, at);
    var k := batch[0];
    assert k in batch;
    assert IsDue(rows, k, closedBefore);
    assert after[k].sentAt.Some?;
    assert k in Owed(rows, closedBefore) && k !in Owed(after, closedBefore);
  }

  lemma AnsweredIsTable(d: Desk, batch: seq<BucketKey>, answer: StatsAnswer, at: int, told: Told)
    requires IsTable(d)
    ensures IsTable(Desk(Answered(d.rows, batch, answer, at), d.ids, told))
  {
    var after := Answered(d.rows, batch, answer, at);
    forall k | k in after
      ensures Tidy(after[k]) && (after[k].sentAt == None ==> !after[k].dropped)
    {
      assert Tidy(d.rows[k]);
    }
  }

  lemma UnchangedOnRetry(rows: Rows, batch: seq<BucketKey>, answer: StatsAnswer, at: int)
    requires answer.Failed? && IsRetryable(answer.failure)
    ensures Answered(rows, batch, answer, at) == rows
  {
  }

  /** What a round leaves: fewer buckets owed, unless it failed and changed nothing. */
  lemma RoundIsFiled(d: Desk, closedBefore: int, answer: StatsAnswer, at: int)
    requires IsTable(d)
    ensures var batch := BatchOf(d.rows, d.ids, closedBefore);
            var after := Answered(d.rows, batch, answer, at);
            && Distinct(batch) && AllDue(d.rows, batch)
            && NextDesk(d, Offered(closedBefore, answer, at)) == Desk(after, d.ids, Informed(d.told, d.rows, batch, answer))
            && IsTable(NextDesk(d, Offered(closedBefore, answer, at)))
            && (if answer.Failed? && IsRetryable(answer.failure) then after == d.rows
                else batch != [] ==> Owed(after, closedBefore) < Owed(d.rows, closedBefore))
  {
    var batch := BatchOf(d.rows, d.ids, closedBefore);
    BatchIsTheEarliestDue(d.rows, d.ids, closedBefore);
    assert AllDue(d.rows, batch) by {
      forall k | k in batch ensures k in d.rows && d.rows[k].sentAt == None && !d.rows[k].dropped {
        assert IsDue(d.rows, k, closedBefore);
      }
    }
    var told := Informed(d.told, d.rows, batch, answer);
    AnsweredIsTable(d, batch, answer, at, told);
    if answer.Failed? && IsRetryable(answer.failure) {
      UnchangedOnRetry(d.rows, batch, answer, at);
    } else if batch != [] {
      RoundUsesUp(d.rows, d.ids, closedBefore, answer, at);
    }
  }

  lemma HearingKeeps(d: Desk, client: ClientId, cycles: seq<Cycle>)
    requires IsTable(d) && Agrees(d.rows, d.told)
    ensures var e := NextDesk(d, Heard(client, cycles)); IsTable(e) && Agrees(e.rows, e.told)
  {
    var items := ItemsOf(client, cycles);
    RecordingKeepsAgreement(d.rows, d.told, items);
    AbsorbedKeys(d.ids, items);
    CountedKeys(d.rows, items);
    CountedStaysTidy(d.rows, items);
  }

  /** Whatever heartbeats and flush rounds follow, with any answers, what is stamped
      as delivered stays what the panel was last told. */
  lemma {:induction false} RunsKeepAgreement(start: Desk, run: seq<Happening>)
    requires IsTable(start) && Agrees(start.rows, start.told)
    ensures var d := RunFrom(start, run); IsTable(d) && Agrees(d.rows, d.told)
  {
    if run != [] {
      RunsKeepAgreement(start, run[..|run| - 1]);
      var d := RunFrom(start, run[..|run| - 1]);
      match run[|run| - 1] {
        case Heard(client, cycles) =>
          HearingKeeps(d, client, cycles);
        case Offered(closedBefore, answer, at) =>
          RoundIsFiled(d, closedBefore, answer, at);
          AnsweringKeepsAgreement(d.rows, d.told, BatchOf(d.rows, d.ids, closedBefore), answer, at);
      }
    }
  }

  lemma AgreementHolds(start: Desk, run: seq<Happening>)
    requires IsTable(start)
    ensures Agrees(start.rows, start.told) ==> Agrees(RunFrom(start, run).rows, RunFrom(start, run).told)
  {
    if Agrees(start.rows, start.told) {
      RunsKeepAgreement(start, run);
    }
  }

  /** Flush is not one transaction: it reads, posts, then stamps by id.  When a
      heartbeat lands in between, an accepted bucket is stamped with the truth
      exactly if the heartbeat counted nothing for it. */
  lemma LateStampIsTrueIff(rows: Rows, items: seq<Item>, k: BucketKey, at: int)
    requires k in rows
    ensures var stamped := Stamped(RowOf(CountAll(rows, items), k), Sent, at);
            PayloadOf(k, stamped) == PayloadOf(k, rows[k]) <==> ResultsFor(items, k) == []
  {
    CountAllByKey(rows, items, k);
    PlusAllCounts(rows[k], ResultsFor(items, k));
  }

  lemma {:induction false} PlusAllCounts(b: Bucket, rs: seq<Result>)
    ensures PlusAll(b, rs).nOk + PlusAll(b, rs).nFail == b.nOk + b.nFail + |rs|
  {
    if rs != [] {
      PlusAllCounts(b, rs[..|rs| - 1]);
    }
  }

  /** One failed probe counted between the read and the stamp is stamped unsent. */
  lemma LateStampCanLie(k: BucketKey, at: int)
    ensures var rows: Rows := map[k := BLANK.(nFail := 1)];
            var items := [Item(k, Result(k.key, false, None, None, None))];
            var stamped := Stamped(RowOf(CountAll(rows, items), k), Sent, at);
            stamped.sentAt == Some(at) && stamped.nFail == 2 && PayloadOf(k, stamped) != PayloadOf(k, rows[k])
  {
    var items := [Item(k, Result(k.key, false, None, None, None))];
    assert items[..0] == [];
  }

  /** Every round of a flush uses its one cut-off, and only the last may have failed
      in a way worth repeating: then the flush fails with it. */
  predicate IsFlush(run: seq<Happening>, closedBefore: int, error: Option<Failure>) {
    && (forall h <- run :: h.Offered? && h.closedBefore == closedBefore)
    && (error.Some? ==> run != [])
    && forall i :: 0 <= i < |run| && run[i].Offered? ==>
         if i == |run| - 1 && error.Some? then run[i].answer == Failed(error.value)
         else run[i].answer.Failed? ==> !IsRetryable(run[i].answer.failure)
  }

  lemma OneMoreRound(start: Desk, run: seq<Happening>, closedBefore: int, h: Happening)
    requires IsFlush(run, closedBefore, None) && h.Offered? && h.closedBefore == closedBefore
    ensures RunFrom(start, run + [h]) == NextDesk(RunFrom(start, run), h)
    ensures if h.answer.Failed? && IsRetryable(h.answer.failure) then IsFlush(run + [h], closedBefore, Some(h.answer.failure))
            else IsFlush(run + [h], closedBefore, None)
  {
    assert (run + [h])[..|run|] == run;
  }

  class Table {
    var rows: Rows
    /** The keys in the order their rows were created: the id column. */
    var ids: seq<BucketKey>
    ghost var told: Told

    ghost function Value(): Desk
      reads this
    {
      Desk(rows, ids, told)
    }

    ghost predicate Valid()
      reads this
    {
      IsTable(Value())
    }

    constructor ()
      ensures Valid() && Value() == EMPTY_DESK && Agrees(rows, told)
    {
      rows, ids, told := map[], [], Told(map[], map[]);
    }

    /** applyDelta: one read-modify-write of one bucket. */
    method ApplyDelta(k: BucketKey, d: Sums)
      modifies this`rows, this`ids
      ensures rows == old(rows)[k := Merged(RowOf(old(rows), k), d)]
      ensures ids == if k in old(rows) then old(ids) else old(ids) + [k]
    {
      var row := RowOf(rows, k);
      row := row.(nOk := row.nOk + d.nOk, nFail := row.nFail + d.nFail);
      if d.latN > 0 {
        if row.latMin == None || d.latMin < row.latMin.value {
          row := row.(latMin := Some(d.latMin));
        }
        if row.latMax == None || d.latMax > row.latMax.value {
          row := row.(latMax := Some(d.latMax));
        }
        row := row.(latSum := row.latSum + d.latSum, latN := row.latN + d.latN);
        row := row.(latAvg := Some(Average(row.latSum, row.latN)));
      }
      if d.handshakeSet {
        row := row.(handshake := d.handshake);
      }
      if row.nOk == 0 {
        row := row.(latMin := None, latAvg := None, latMax := None, handshake := None);
      }
      row := row.(sentAt := None, dropped := false);
      if k !in rows {
        ids := ids + [k];
      }
      rows := rows[k := row];
    }

    method ApplyAll(deltas: map<BucketKey, Sums>, order: seq<BucketKey>)
      requires forall k <- order :: k in deltas
      requires forall k :: k in ids <==> k in rows
      modifies this`rows, this`ids
      ensures rows == MergedAll(old(rows), order, deltas)
      ensures ids == AbsorbAll(old(ids), order)
    {
      for i := 0 to |order|
        invariant rows == MergedAll(old(rows), order[..i], deltas)
        invariant ids == AbsorbAll(old(ids), order[..i])
        invariant forall k :: k in ids <==> k in rows
      {
        assert order[..i + 1][..i] == order[..i];
        ApplyDelta(order[i], deltas[order[i]]);
      }
      assert order[..|order|] == order;
    }

    /** Record: after any heartbeat the table is what counting its results one at a
        time would have made it. */
    method Record(client: ClientId, cycles: seq<Cycle>)
      requires Valid()
      modifies this`rows, this`ids
      ensures Valid()
      ensures Value() == NextDesk(old(Value()), Heard(client, cycles))
    {
      if client == "" {
        return;
      }
      var deltas, order := Group(client, cycles);
      ghost var items := ItemsOf(client, cycles);
      ApplyAll(deltas, order);
      GroupingKeepsOrder(old(ids), items);
      AbsorbedKeys(old(ids), items);
      MergedIsCounted(old(rows), order, deltas, items);
      CountedStaysTidy(old(rows), items);
      CountedKeys(old(rows), items);
    }

    /** UPDATE ... WHERE id IN keys. */
    method MarkSent(keys: seq<BucketKey>, at: int)
      modifies this`rows
      ensures rows == map k | k in old(rows) :: if k in keys then Stamped(old(rows)[k], Sent, at) else old(rows)[k]
    {
      rows := map k | k in rows :: if k in keys then rows[k].(sentAt := Some(at)) else rows[k];
    }

    method MarkDropped(keys: seq<BucketKey>, at: int)
      modifies this`rows
      ensures rows == map k | k in old(rows) :: if k in keys then Stamped(old(rows)[k], Given, at) else old(rows)[k]
    {
      rows := map k | k in rows :: if k in keys then rows[k].(sentAt := Some(at), dropped := true) else rows[k];
    }

    /** Files the answer to a batch: nothing changes on a failure worth repeating. */
    method File(batch: seq<BucketKey>, answer: StatsAnswer, at: int)
      requires Distinct(batch)
      modifies this`rows
      ensures rows == Answered(old(rows), batch, answer, at)
    {
      match answer {
        case Failed(f) =>
          if !IsRetryable(f) {
            MarkDropped(batch, at);
          }
        case Accepted(rejected) =>
          var refusals := Rejections(|batch|, rejected, None);
          var sent, refused := Split(batch, refusals);
          PickedByIndex(batch, refusals, true);
          PickedByIndex(batch, refusals, false);
          MarkSent(sent, at);
          MarkDropped(refused, at);
      }
    }

    /** One batch offered, answered and filed. */
    method Offer(batch: seq<BucketKey>, closedBefore: int, answer: StatsAnswer, at: int)
      requires Valid() && batch == BatchOf(rows, ids, closedBefore) && batch != []
      modifies this`rows, this`told
      ensures Valid() && Value() == NextDesk(old(Value()), Offered(closedBefore, answer, at))
      ensures answer.Failed? && IsRetryable(answer.failure) ==> rows == old(rows)
      ensures !(answer.Failed? && IsRetryable(answer.failure)) ==> Owed(rows, closedBefore) < old(Owed(rows, closedBefore))
    {
      RoundIsFiled(Value(), closedBefore, answer, at);
      told := Informed(told, rows, batch, answer);
      File(batch, answer, at);
    }

    /** Flush.  `panel` is the panel: its n-th answer, to what it is sent; `now` is
        the clock, read once for the cut-off and once per batch.  `run` are the
        rounds it went through, each offering the earliest due buckets of its time.
        It ends with nothing due, or with a failure worth repeating. */
    method Flush(panel: (nat, seq<Payload>) -> StatsAnswer, now: nat -> int) returns (error: Option<Failure>, ghost run: seq<Happening>)
      requires Valid()
      modifies this`rows, this`told
      ensures Valid() && Value() == RunFrom(old(Value()), run)
      ensures IsFlush(run, now(0) - WINDOW - CLOSE_DELAY, error)
      ensures error == None ==> Owed(rows, now(0) - WINDOW - CLOSE_DELAY) == {}
      ensures error.Some? ==> IsRetryable(error.value)
      ensures old(Agrees(rows, told)) ==> Agrees(rows, told)
    {
      error, run := Drain(now(0) - WINDOW - CLOSE_DELAY, panel, now);
      AgreementHolds(old(Value()), run);
    }

    method Drain(closedBefore: int, panel: (nat, seq<Payload>) -> StatsAnswer, now: nat -> int)
      returns (error: Option<Failure>, ghost run: seq<Happening>)
      requires Valid()
      modifies this`rows, this`told
      ensures Valid() && Value() == RunFrom(old(Value()), run)
      ensures IsFlush(run, closedBefore, error)
      ensures error == None ==> Owed(rows, closedBefore) == {}
      ensures error.Some? ==> IsRetryable(error.value)
    {
      var n := 0;
      run := [];
      while true
        invariant Valid() && Value() == RunFrom(old(Value()), run)
        invariant IsFlush(run, closedBefore, None)
        decreases Owed(rows, closedBefore)
      {
        var batch := BatchOf(rows, ids, closedBefore);
        BatchIsTheEarliestDue(rows, ids, closedBefore);
        if |batch| == 0 {
          return None, run;
        }
        var answer := panel(n, PayloadsOf(rows, batch));
        Offer(batch, closedBefore, answer, now(n + 1));
        ghost var h := Offered(closedBefore, answer, now(n + 1));
        OneMoreRound(old(Value()), run, closedBefore, h);
        run := run + [h];
        if answer.Failed? && IsRetryable(answer.failure) {
          return Some(answer.failure), run;
        }
        n := n + 1;
      }
    }
  }

  function MergedAll(rows: Rows, ks: seq<BucketKey>, sums: map<BucketKey, Sums>): Rows
    requires forall k <- ks :: k in sums
  {
    if ks == [] then rows
    else
      var last := ks[|ks| - 1];
      assert ks == ks[..|ks| - 1] + [last];
      var before := MergedAll(rows, ks[..|ks| - 1], sums);
      before[last := Merged(RowOf(before, last), sums[last])]
  }

  lemma {:induction false} MergedAllByKey(rows: Rows, ks: seq<BucketKey>, sums: map<BucketKey, Sums>, k: BucketKey)
    requires (forall k <- ks :: k in sums) && Distinct(ks)
    ensures k in MergedAll(rows, ks, sums) <==> k in rows || k in ks
    ensures k in MergedAll(rows, ks, sums) ==>
              MergedAll(rows, ks, sums)[k] == if k in ks then Merged(RowOf(rows, k), sums[k]) else rows[k]
  {
    if ks != [] {
      assert ks == ks[..|ks| - 1] + [ks[|ks| - 1]];
      MergedAllByKey(rows, ks[..|ks| - 1], sums, k);
    }
  }

  lemma CountedKeys(rows: Rows, items: seq<Item>)
    ensures forall k :: k in CountAll(rows, items) <==> k in rows || ResultsFor(items, k) != []
  {
    forall k ensures k in CountAll(rows, items) <==> k in rows || ResultsFor(items, k) != [] {
      CountAllByKey(rows, items, k);
    }
  }

  /** Merging every touched bucket's sums gives the table counted one at a time. */
  lemma MergedIsCounted(rows: Rows, order: seq<BucketKey>, sums: map<BucketKey, Sums>, items: seq<Item>)
    requires forall k :: k in rows ==> Tidy(rows[k])
    requires order == Absorbed([], items)
    requires forall k <- order :: k in sums && sums[k] == SumsOf(ResultsFor(items, k))
    ensures MergedAll(rows, order, sums) == CountAll(rows, items)
  {
    AbsorbedKeys([], items);
    forall k
      ensures k in MergedAll(rows, order, sums) <==> k in CountAll(rows, items)
      ensures k in MergedAll(rows, order, sums) ==> MergedAll(rows, order, sums)[k] == CountAll(rows, items)[k]
    {
      MergedAllByKey(rows, order, sums, k);
      CountAllByKey(rows, items, k);
      if k in order {
        MergeIsCounting(RowOf(rows, k), ResultsFor(items, k));
      }
    }
  }

  lemma CountedStaysTidy(rows: Rows, items: seq<Item>)
    requires forall k :: k in rows ==> Tidy(rows[k])
    ensures forall k :: k in CountAll(rows, items) ==> Tidy(CountAll(rows, items)[k])
    ensures forall k :: k in CountAll(rows, items) ==>
              var row := CountAll(rows, items)[k];
              if ResultsFor(items, k) == [] then k in rows && row == rows[k] else row.sentAt == None && !row.dropped
  {
    forall k | k in CountAll(rows, items)
      ensures Tidy(CountAll(rows, items)[k])
      ensures var row := CountAll(rows, items)[k];
              if ResultsFor(items, k) == [] then k in rows && row == rows[k] else row.sentAt == None && !row.dropped
    {
      CountAllByKey(rows, items, k);
      PlusAllStaysTidy(RowOf(rows, k), ResultsFor(items, k));
    }
  }
}
