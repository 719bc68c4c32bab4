/** What becomes of every event ever queued: the outbox with a book kept beside it,
    over all runs of the poller and of whoever else queues events. */
module Ledger {
  import opened Wrappers
  import opened Sorting
  import opened Flatten
  import opened PanelClient
  import opened Watch
  import opened Outbox

  datatype Fate = Delivered | Refused | Unreadable | Aged(at: int)

  /** `queued` holds each event as it stood while it was in the queue, `fate` what took
      it out, `delivered` the accepted ones in order; `looks` are the requests observed,
      `panel` the panel events filed and `panelIds` their ids. */
  datatype World = World(
    poll: Poll, queued: map<string, Row>, fate: map<string, Fate>,
    delivered: seq<string>, looks: seq<Look>, panel: seq<Filing>, panelIds: seq<string>)

  const START := World(IDLE, map[], map[], [], [], [], [])

  function Queue(w: World, row: Row): World {
    w.(poll := w.poll.(rows := w.poll.rows + [row]), queued := w.queued[row.id := row])
  }

  function Observe(w: World, look: Look, id: string, now: int): World {
    var p := Observed(w.poll, look, id, now);
    var v := w.(poll := p, looks := w.looks + [look]);
    match Filed(w.poll.mode, look)
    case None => v
    case Some(f) => v.(queued := w.queued[id := Row(id, now, PanelEvent(f), true, true, None, false)],
                      panel := w.panel + [f], panelIds := w.panelIds + [id])
  }

  function AgedAt(queued: map<string, Row>, fate: map<string, Fate>, now: int): map<string, Fate> {
    fate + map id | id in queued && id !in fate && queued[id].notified && queued[id].ts < now - MAX_AGE :: Aged(now)
  }

  function Sweep(w: World, now: int): World {
    w.(poll := w.poll.(rows := Pruned(w.poll.rows, now)),
       fate := AgedAt(w.queued, w.fate, now))
  }

  /** An event that has left the queue is not touched any more, whatever its row says. */
  function Quieten(w: World, id: string): World {
    w.(poll := w.poll.(rows := UnnotifiedIn(w.poll.rows, id)),
       queued := if id in w.queued && id !in w.fate then w.queued[id := Unnotified(w.queued[id])] else w.queued)
  }

  function Stamp(w: World, ids: seq<string>, f: Fate, at: int): World {
    w.(poll := w.poll.(rows := Marked(w.poll.rows, ids, at, f != Delivered),
                       recoverySent := if f == Delivered && w.poll.pending then w.poll.recoverySent + |ids| else w.poll.recoverySent),
       fate := w.fate + (map id | id in ids :: f),
       delivered := if f == Delivered then w.delivered + ids else w.delivered)
  }

  function Offer(w: World, answer: EventsAnswer, after: int, id: string, now: int): World {
    var batch := Batch(w.poll.rows);
    var ids := Decoded(batch, true);
    var v := Stamp(w, Decoded(batch, false), Unreadable, now);
    if ids == [] then v
    else
      var u := Observe(v, Look(OutcomeOf(answer), after), id, now);
      Stamp(Stamp(u, SentOf(ids, answer), Delivered, now), RefusedOf(ids, answer), Refused, now)
  }

  function Next(w: World, s: Step): World {
    match s
    case Queued(row) => Queue(w, row)
    case Looked(look, id, now) => Observe(w, look, id, now)
    case Swept(now) => Sweep(w, now)
    case Offered(answer, after, id, now) => Offer(w, answer, after, id, now)
    case MessageFailed(id) => Quieten(w, id)
    case Drained => w.(poll := w.poll.(pending := false, recoverySent := 0))
  }

  /** Ids are uuids, used once; only the engine's own messages are put back; a drain is
      over when nothing is unsent. */
  predicate Enabled(w: World, s: Step) {
    match s
    case Queued(row) => row.id !in w.queued && row.sentAt == None && !row.dropped && row.event == EngineEvent
    case Looked(_, id, _) => id !in w.queued
    case Offered(_, _, id, _) => id !in w.queued
    case Swept(_) => true
    case MessageFailed(id) => id in w.queued ==> w.queued[id].event == EngineEvent
    case Drained => Unsent(w.poll.rows) == []
  }

  function Run(run: seq<Step>): World {
    if run == [] then START else Next(Run(run[..|run| - 1]), run[|run| - 1])
  }

  predicate CanRun(run: seq<Step>) {
    run == [] || (CanRun(run[..|run| - 1]) && Enabled(Run(run[..|run| - 1]), run[|run| - 1]))
  }

  // ---- the invariant ----

  /** The row is the event of the book; once that has left the queue the row's flags may
      still be written. */
  predicate SameEvent(r: Row, q: Row, left: bool) {
    && r.id == q.id && r.ts == q.ts && r.event == q.event
    && (left || (r.notified == q.notified && r.readable == q.readable))
  }

  ghost predicate RowStands(r: Row, queued: map<string, Row>, fate: map<string, Fate>) {
    && r.id in queued && SameEvent(r, queued[r.id], r.id in fate)
    && (r.sentAt == None <==> r.id !in fate)
    && (r.id in fate ==> !fate[r.id].Aged?)
    && (r.dropped <==> r.id in fate && fate[r.id] != Delivered)
  }

  ghost predicate Kept(rows: seq<Row>, id: string) {
    exists r <- rows :: r.id == id
  }

  /** Who may leave the queue, and how. */
  ghost predicate FateStands(id: string, f: Fate, queued: map<string, Row>) {
    && id in queued
    && match f
       case Aged(at) => queued[id].notified && queued[id].ts < at - MAX_AGE
       case Unreadable => !queued[id].readable
       case _ => queued[id].readable
  }

  ghost predicate Table(rows: seq<Row>, queued: map<string, Row>, fate: map<string, Fate>) {
    && Distinct(IdsOf(rows))
    && (forall r <- rows :: RowStands(r, queued, fate))
    && (forall id :: id in queued ==> Kept(rows, id) || (id in fate && fate[id].Aged?))
    && (forall id :: id in fate ==> FateStands(id, fate[id], queued))
  }

  ghost predicate Tally(w: World) {
    && Distinct(w.delivered) && (forall id :: id in w.delivered <==> id in w.fate && w.fate[id] == Delivered)
    && w.poll.mode == ModeAfter(w.looks) && w.panel == FiledIn(w.looks)
  }

  ghost predicate Balanced(w: World) {
    Table(w.poll.rows, w.queued, w.fate) && Tally(w)
  }

  ghost predicate Open(w: World, id: string) {
    id in w.queued && id !in w.fate
  }

  // ---- every step keeps it ----

  lemma AppendKeeps(rows: seq<Row>, queued: map<string, Row>, fate: map<string, Fate>, row: Row)
    requires Table(rows, queued, fate) && row.id !in queued && row.sentAt == None && !row.dropped
    ensures Table(rows + [row], queued[row.id := row], fate)
  {
    var all := rows + [row];
    assert IdsOf(all) == IdsOf(rows) + [row.id];
    forall i | 0 <= i < |rows| ensures IdsOf(rows)[i] != row.id {
      assert rows[i] in rows;
    }
    forall id | id in queued[row.id := row]
      ensures Kept(all, id) || (id in fate && fate[id].Aged?)
    {
      if id == row.id {
        assert row in all;
      } else if Kept(rows, id) {
        var r :| r in rows && r.id == id;
        assert r in all;
      }
    }
  }

  lemma ObserveKeeps(w: World, look: Look, id: string, now: int)
    requires Balanced(w) && id !in w.queued
    ensures Balanced(Observe(w, look, id, now))
    ensures forall k :: Open(w, k) ==> Open(Observe(w, look, id, now), k) && Observe(w, look, id, now).queued[k] == w.queued[k]
  {
    assert (w.looks + [look])[..|w.looks|] == w.looks;
    var filed := Filed(w.poll.mode, look);
    if filed.Some? {
      AppendKeeps(w.poll.rows, w.queued, w.fate, Row(id, now, PanelEvent(filed.value), true, true, None, false));
    }
    assert FiledIn(w.looks) + [] == FiledIn(w.looks);
  }

  lemma MarkedKeeps(rows: seq<Row>, queued: map<string, Row>, fate: map<string, Fate>, ids: seq<string>, f: Fate, at: int)
    requires Table(rows, queued, fate) && !f.Aged?
    requires forall id <- ids :: id in queued && id !in fate && (queued[id].readable <==> f != Unreadable)
    ensures Table(Marked(rows, ids, at, f != Delivered), queued, fate + map id | id in ids :: f)
  {
    var later, fates := Marked(rows, ids, at, f != Delivered), fate + map id | id in ids :: f;
    assert IdsOf(later) == IdsOf(rows);
    forall r | r in later ensures RowStands(r, queued, fates) {
      var i :| 0 <= i < |later| && later[i] == r;
      assert RowStands(rows[i], queued, fate);
    }
    forall id | id in queued ensures Kept(later, id) || (id in fates && fates[id].Aged?) {
      if Kept(rows, id) {
        var r :| r in rows && r.id == id;
        var i :| 0 <= i < |rows| && rows[i] == r;
        assert later[i] in later && later[i].id == id;
      } else {
        assert id in fate && id !in ids;
      }
    }
  }

  lemma StampKeeps(w: World, ids: seq<string>, f: Fate, at: int)
    requires Balanced(w) && !f.Aged? && Distinct(ids)
    requires forall id <- ids :: Open(w, id) && (w.queued[id].readable <==> f != Unreadable)
    ensures Balanced(Stamp(w, ids, f, at))
    ensures forall k :: Open(w, k) && k !in ids ==> Open(Stamp(w, ids, f, at), k)
  {
    MarkedKeeps(w.poll.rows, w.queued, w.fate, ids, f, at);
    if f == Delivered {
      forall i, j | 0 <= i < j < |w.delivered + ids| ensures (w.delivered + ids)[i] != (w.delivered + ids)[j] {
        if i < |w.delivered| <= j {
          assert (w.delivered + ids)[j] in ids;
          assert (w.delivered + ids)[i] in w.delivered;
        }
      }
    }
  }

  lemma IdsPrefix(rows: seq<Row>)
    requires Distinct(IdsOf(rows)) && rows != []
    ensures Distinct(IdsOf(rows[..|rows| - 1])) && forall r <- rows[..|rows| - 1] :: r.id != rows[|rows| - 1].id
  {
    var init, last := rows[..|rows| - 1], rows[|rows| - 1];
    assert IdsOf(rows)[..|rows| - 1] == IdsOf(init);
    DistinctPrefix(IdsOf(rows));
    forall r | r in init ensures r.id != last.id {
      var i :| 0 <= i < |init| && init[i] == r;
      assert IdsOf(init)[i] == r.id;
    }
  }

  lemma IdsAppend(rows: seq<Row>, last: Row)
    requires Distinct(IdsOf(rows)) && forall r <- rows :: r.id != last.id
    ensures Distinct(IdsOf(rows + [last]))
  {
    assert IdsOf(rows + [last]) == IdsOf(rows) + [last.id];
    DistinctAppend(IdsOf(rows), last.id);
  }

  lemma {:induction false} PrunedMembers(rows: seq<Row>, now: int)
    ensures forall r :: r in Pruned(rows, now) <==> r in rows && !Expired(r, now)
  {
    if rows != [] {
      PrunedMembers(rows[..|rows| - 1], now);
      assert rows == rows[..|rows| - 1] + [rows[|rows| - 1]];
    }
  }

  lemma {:induction false} PrunedIds(rows: seq<Row>, now: int)
    requires Distinct(IdsOf(rows))
    ensures Distinct(IdsOf(Pruned(rows, now)))
  {
    if rows != [] {
      var init, last := rows[..|rows| - 1], rows[|rows| - 1];
      IdsPrefix(rows);
      PrunedIds(init, now);
      if !Expired(last, now) {
        PrunedMembers(init, now);
        IdsAppend(Pruned(init, now), last);
      } else {
        assert Pruned(init, now) + [] == Pruned(init, now);
      }
    }
  }

  lemma PrunedRowsStand(rows: seq<Row>, queued: map<string, Row>, fate: map<string, Fate>, now: int)
    requires Table(rows, queued, fate)
    ensures forall r <- Pruned(rows, now) :: RowStands(r, queued, AgedAt(queued, fate, now))
  {
    PrunedMembers(rows, now);
    forall r | r in Pruned(rows, now) ensures RowStands(r, queued, AgedAt(queued, fate, now)) {
      assert RowStands(r, queued, fate);
    }
  }

  lemma PrunedIsAged(rows: seq<Row>, queued: map<string, Row>, fate: map<string, Fate>, now: int, id: string)
    requires Table(rows, queued, fate) && id in queued
    ensures Kept(Pruned(rows, now), id) || (id in AgedAt(queued, fate, now) && AgedAt(queued, fate, now)[id].Aged?)
  {
    PrunedMembers(rows, now);
    if Kept(rows, id) {
      var r :| r in rows && r.id == id;
      assert RowStands(r, queued, fate);
      assert Expired(r, now) || r in Pruned(rows, now);
    }
  }

  lemma SweepKeeps(w: World, now: int)
    requires Balanced(w)
    ensures Balanced(Sweep(w, now))
  {
    PrunedIds(w.poll.rows, now);
    PrunedRowsStand(w.poll.rows, w.queued, w.fate, now);
    forall id | id in w.queued ensures Kept(Pruned(w.poll.rows, now), id) || (id in Sweep(w, now).fate && Sweep(w, now).fate[id].Aged?) {
      PrunedIsAged(w.poll.rows, w.queued, w.fate, now, id);
    }
  }

  lemma QuietRowStands(rows: seq<Row>, queued: map<string, Row>, fate: map<string, Fate>, id: string, i: nat)
    requires Table(rows, queued, fate) && i < |rows|
    ensures var later := if id in queued && id !in fate then queued[id := Unnotified(queued[id])] else queued;
            RowStands(UnnotifiedIn(rows, id)[i], later, fate)
  {
    assert RowStands(rows[i], queued, fate);
  }

  lemma QuietKept(rows: seq<Row>, id: string, k: string)
    ensures Kept(rows, k) ==> Kept(UnnotifiedIn(rows, id), k)
  {
    if Kept(rows, k) {
      var r :| r in rows && r.id == k;
      var i :| 0 <= i < |rows| && rows[i] == r;
      assert UnnotifiedIn(rows, id)[i] in UnnotifiedIn(rows, id);
    }
  }

  lemma QuietenKeeps(w: World, id: string)
    requires Balanced(w)
    ensures Balanced(Quieten(w, id))
  {
    var v := Quieten(w, id);
    assert IdsOf(v.poll.rows) == IdsOf(w.poll.rows);
    forall i | 0 <= i < |w.poll.rows| ensures RowStands(v.poll.rows[i], v.queued, v.fate) {
      QuietRowStands(w.poll.rows, w.queued, w.fate, id, i);
    }
    forall k | k in v.queued ensures Kept(v.poll.rows, k) || (k in v.fate && v.fate[k].Aged?) {
      QuietKept(w.poll.rows, id, k);
    }
  }

  lemma {:induction false} UnsentIds(rows: seq<Row>)
    requires Distinct(IdsOf(rows))
    ensures Distinct(Unsent(rows))
  {
    if rows != [] {
      var init, last := rows[..|rows| - 1], rows[|rows| - 1];
      IdsPrefix(rows);
      UnsentIds(init);
      UnsentMembers(init);
      if last.sentAt == None {
        DistinctAppend(Unsent(init), last);
      } else {
        assert Unsent(init) + [] == Unsent(init);
      }
    }
  }

  lemma BatchIsDistinct(rows: seq<Row>)
    requires Distinct(IdsOf(rows))
    ensures Distinct(Batch(rows))
  {
    UnsentIds(rows);
    RowOrder();
    SortSorts(Unsent(rows), RowLe);
    DistinctIsPermuted(Unsent(rows), Sort(Unsent(rows), RowLe));
  }

  lemma {:induction false} DecodedDiffer(rows: seq<Row>, batch: seq<Row>, readable: bool)
    requires Distinct(IdsOf(rows)) && Distinct(batch) && forall r <- batch :: r in rows
    ensures Distinct(Decoded(batch, readable))
  {
    if batch != [] {
      var init, last := batch[..|batch| - 1], batch[|batch| - 1];
      assert batch == init + [last];
      DistinctPrefix(batch);
      DecodedDiffer(rows, init, readable);
      DecodedMembers(init, readable);
      NotAmong(rows, init, last);
      if last.readable == readable {
        assert last.id !in Decoded(init, readable);
        DistinctAppend(Decoded(init, readable), last.id);
      } else {
        assert Decoded(init, readable) + [] == Decoded(init, readable);
      }
    }
  }

  lemma NotAmong(rows: seq<Row>, some: seq<Row>, last: Row)
    requires Distinct(IdsOf(rows)) && last in rows && last !in some && forall r <- some :: r in rows
    ensures forall r <- some :: r.id != last.id
  {
    var j :| 0 <= j < |rows| && rows[j] == last;
    forall r | r in some ensures r.id != last.id {
      var i :| 0 <= i < |rows| && rows[i] == r;
      assert IdsOf(rows)[i] == r.id && IdsOf(rows)[j] == last.id;
    }
  }

  /** The ids of an offer: open, each once, told apart by whether they can be read. */
  lemma BatchIsOpen(w: World, readable: bool)
    requires Balanced(w)
    ensures var ids := Decoded(Batch(w.poll.rows), readable);
            Distinct(ids) && forall id <- ids :: Open(w, id) && w.queued[id].readable == readable
  {
    var batch := Batch(w.poll.rows);
    BatchMembers(w.poll.rows);
    BatchIsDistinct(w.poll.rows);
    DecodedDiffer(w.poll.rows, batch, readable);
    DecodedMembers(batch, readable);
    forall id | id in Decoded(batch, readable) ensures Open(w, id) && w.queued[id].readable == readable {
      var r :| r in batch && r.readable == readable && r.id == id;
      assert RowStands(r, w.queued, w.fate);
    }
  }

  lemma {:induction false} PickedDiffer(ids: seq<string>, refusals: map<nat, Rejection>, refused: bool)
    requires Distinct(ids)
    ensures Distinct(Picked(ids, refusals, refused)) && forall id <- Picked(ids, refusals, refused) :: id in ids
  {
    if ids != [] {
      var n := |ids| - 1;
      var init := ids[..n];
      assert ids == init + [ids[n]];
      DistinctPrefix(ids);
      PickedDiffer(init, refusals, refused);
      if (n in refusals) == refused {
        DistinctAppend(Picked(init, refusals, refused), ids[n]);
      } else {
        assert Picked(init, refusals, refused) + [] == Picked(init, refusals, refused);
      }
    }
  }

  lemma {:induction false} PickedApart(ids: seq<string>, refusals: map<nat, Rejection>)
    requires Distinct(ids)
    ensures forall id <- Picked(ids, refusals, false) :: id !in Picked(ids, refusals, true)
  {
    if ids != [] {
      var n := |ids| - 1;
      var init := ids[..n];
      DistinctPrefix(ids);
      PickedApart(init, refusals);
      PickedDiffer(init, refusals, false);
      PickedDiffer(init, refusals, true);
    }
  }

  /** An answer splits a batch: no element is both sent and refused, none is twice. */
  lemma SplitsCleanly(ids: seq<string>, answer: EventsAnswer)
    requires Distinct(ids)
    ensures Distinct(SentOf(ids, answer)) && Distinct(RefusedOf(ids, answer))
    ensures forall id <- SentOf(ids, answer) :: id in ids && id !in RefusedOf(ids, answer)
    ensures forall id <- RefusedOf(ids, answer) :: id in ids
  {
    if answer.Accepted? {
      var refusals := RejectionsOf(|ids|, answer.rejected, Some(ids));
      PickedDiffer(ids, refusals, false);
      PickedDiffer(ids, refusals, true);
      PickedApart(ids, refusals);
    }
  }

  lemma OfferKeeps(w: World, answer: EventsAnswer, after: int, id: string, now: int)
    requires Balanced(w) && id !in w.queued
    ensures Balanced(Offer(w, answer, after, id, now))
  {
    var batch := Batch(w.poll.rows);
    var ids, bad := Decoded(batch, true), Decoded(batch, false);
    BatchIsOpen(w, true);
    BatchIsOpen(w, false);
    StampKeeps(w, bad, Unreadable, now);
    var v := Stamp(w, bad, Unreadable, now);
    if ids != [] {
      ObserveKeeps(v, Look(OutcomeOf(answer), after), id, now);
      var u := Observe(v, Look(OutcomeOf(answer), after), id, now);
      SplitsCleanly(ids, answer);
      assert forall k <- ids :: Open(v, k) && Open(u, k) && u.queued[k] == w.queued[k];
      var sent := SentOf(ids, answer);
      StampKeeps(u, sent, Delivered, now);
      StampKeeps(Stamp(u, sent, Delivered, now), RefusedOf(ids, answer), Refused, now);
    }
  }

  lemma NextKeeps(w: World, s: Step)
    requires Balanced(w) && Enabled(w, s)
    ensures Balanced(Next(w, s))
  {
    match s
    case Queued(row) => AppendKeeps(w.poll.rows, w.queued, w.fate, row);
    case Looked(look, id, now) => ObserveKeeps(w, look, id, now);
    case Swept(now) => SweepKeeps(w, now);
    case Offered(answer, after, id, now) => OfferKeeps(w, answer, after, id, now);
    case MessageFailed(id) => QuietenKeeps(w, id);
    case Drained =>
  }

  lemma {:induction false} RunBalances(run: seq<Step>)
    requires CanRun(run)
    ensures Balanced(Run(run))
  {
    if run != [] {
      RunBalances(run[..|run| - 1]);
      NextKeeps(Run(run[..|run| - 1]), run[|run| - 1]);
    }
  }

  /** The book only watches: the poller it follows is the one the program runs. */
  lemma {:induction false} BookFollows(run: seq<Step>)
    ensures Run(run).poll == PollAfter(IDLE, run)
  {
    if run != [] {
      BookFollows(run[..|run| - 1]);
      StepFollows(Run(run[..|run| - 1]), run[|run| - 1]);
    }
  }

  lemma StepFollows(w: World, s: Step)
    ensures Next(w, s).poll == NextPoll(w.poll, s)
  {
  }

  // ---- what that means ----

  /** In every run, an event is in the queue, unsent, until something takes it out:
      the panel accepts it or refuses it, it cannot be read, or it is pruned; and only
      one that is notified then is pruned, after more than a day. */
  lemma EveryEventIsAccountedFor(run: seq<Step>, id: string)
    requires CanRun(run) && id in Run(run).queued
    ensures var w := Run(run);
            if id !in w.fate then exists r <- w.poll.rows :: r == w.queued[id] && r.sentAt == None && !r.dropped
            else match w.fate[id]
              case Aged(at) => w.queued[id].notified && w.queued[id].ts < at - MAX_AGE && forall r <- w.poll.rows :: r.id != id
              case Unreadable => !w.queued[id].readable && exists r <- w.poll.rows :: r.id == id && r.sentAt.Some? && r.dropped
              case Refused => exists r <- w.poll.rows :: r.id == id && r.sentAt.Some? && r.dropped
              case Delivered => exists r <- w.poll.rows :: r.id == id && r.sentAt.Some? && !r.dropped
  {
    RunBalances(run);
    var w := Run(run);
    QueuedIsUnsent(run, id);
    if Kept(w.poll.rows, id) {
      var r :| r in w.poll.rows && r.id == id;
      assert RowStands(r, w.queued, w.fate);
    }
    if id in w.fate && w.fate[id].Aged? {
      forall r | r in w.poll.rows ensures r.id != id {
        assert RowStands(r, w.queued, w.fate);
      }
    }
  }

  lemma {:induction false} QueuedIsUnsent(run: seq<Step>, id: string)
    requires CanRun(run) && id in Run(run).queued
    ensures Run(run).queued[id].sentAt == None && !Run(run).queued[id].dropped && Run(run).queued[id].id == id
  {
    if run != [] {
      var init := run[..|run| - 1];
      if id in Run(init).queued {
        QueuedIsUnsent(init, id);
      }
      QueuedOnce(Run(init), run[|run| - 1], id);
    }
  }

  lemma QueuedOnce(w: World, s: Step, id: string)
    requires Enabled(w, s)
    ensures id in w.queued ==>
              && id in Next(w, s).queued
              && Next(w, s).queued[id] == if s == MessageFailed(id) && id !in w.fate then Unnotified(w.queued[id]) else w.queued[id]
    ensures id !in w.queued && id in Next(w, s).queued ==>
              var r := Next(w, s).queued[id]; r.sentAt == None && !r.dropped && r.id == id
  {
  }

  lemma StampKeepsFates(w: World, ids: seq<string>, f: Fate, at: int, id: string)
    requires id in w.fate && id !in ids
    ensures id in Stamp(w, ids, f, at).fate && Stamp(w, ids, f, at).fate[id] == w.fate[id]
  {
  }

  lemma OfferKeepsFates(w: World, answer: EventsAnswer, after: int, uuid: string, now: int, id: string)
    requires Balanced(w) && id in w.fate
    ensures id in Offer(w, answer, after, uuid, now).fate && Offer(w, answer, after, uuid, now).fate[id] == w.fate[id]
  {
    var ids, bad := Decoded(Batch(w.poll.rows), true), Decoded(Batch(w.poll.rows), false);
    BatchIsOpen(w, true);
    BatchIsOpen(w, false);
    assert id !in ids && id !in bad;
    StampKeepsFates(w, bad, Unreadable, now, id);
    if ids != [] {
      SplitsCleanly(ids, answer);
      var u := Observe(Stamp(w, bad, Unreadable, now), Look(OutcomeOf(answer), after), uuid, now);
      StampKeepsFates(u, SentOf(ids, answer), Delivered, now, id);
      StampKeepsFates(Stamp(u, SentOf(ids, answer), Delivered, now), RefusedOf(ids, answer), Refused, now, id);
    }
  }

  lemma StepKeepsFates(w: World, s: Step, id: string)
    requires Balanced(w) && id in w.fate
    ensures id in Next(w, s).fate && Next(w, s).fate[id] == w.fate[id]
  {
    if s.Offered? {
      OfferKeepsFates(w, s.answer, s.after, s.id, s.now, id);
    }
  }

  /** What became of an event never changes: nothing accepted is refused later, or
      accepted twice. */
  lemma {:induction false} FatesAreFinal(run: seq<Step>, later: seq<Step>, id: string)
    requires CanRun(run + later) && CanRun(run) && id in Run(run).fate
    ensures id in Run(run + later).fate && Run(run + later).fate[id] == Run(run).fate[id]
  {
    if later == [] {
      assert run + later == run;
    } else {
      var init := later[..|later| - 1];
      assert (run + later)[..|run + later| - 1] == run + init;
      FatesAreFinal(run, init, id);
      RunBalances(run + init);
      StepKeepsFates(Run(run + init), later[|later| - 1], id);
    }
  }

  /** An event not notified, as filed or since its message failed, is never pruned:
      whatever happens it stays queued until the panel has answered for it. */
  lemma {:induction false} NotNotifiedIsNeverPruned(run: seq<Step>, later: seq<Step>, id: string)
    requires CanRun(run + later) && CanRun(run) && id in Run(run).queued && !Run(run).queued[id].notified
    ensures var w := Run(run + later); id in w.queued && !w.queued[id].notified && (id in w.fate ==> !w.fate[id].Aged?)
  {
    if later == [] {
      assert run + later == run;
      RunBalances(run);
    } else {
      var init := later[..|later| - 1];
      assert (run + later)[..|run + later| - 1] == run + init;
      NotNotifiedIsNeverPruned(run, init, id);
      QueuedOnce(Run(run + init), later[|later| - 1], id);
      RunBalances(run + later);
    }
  }

  /** So once its message has failed, an event still queued then waits for the panel. */
  lemma FailedMessageIsNeverPruned(run: seq<Step>, later: seq<Step>, id: string)
    requires CanRun(run + [MessageFailed(id)]) && CanRun((run + [MessageFailed(id)]) + later) && Open(Run(run), id)
    ensures var w := Run((run + [MessageFailed(id)]) + later);
            id in w.queued && !w.queued[id].notified && (id in w.fate ==> !w.fate[id].Aged?)
  {
    var told := run + [MessageFailed(id)];
    assert told[..|run|] == run;
    NotNotifiedIsNeverPruned(told, later, id);
  }

  /** The states a run of steps goes through. */
  ghost predicate Goes(ws: seq<World>, steps: seq<Step>) {
    |ws| == |steps| + 1 && forall i {:trigger steps[i]} :: 0 <= i < |steps| ==> ws[i + 1] == Next(ws[i], steps[i])
  }

  predicate Tallied(p: Poll) {
    !p.pending ==> p.recoverySent == 0
  }

  lemma StepTallies(w: World, s: Step)
    requires Tallied(w.poll)
    ensures var v := Next(w, s);
            Tallied(v.poll) && (v.poll.pending ==> v.poll.recoverySent == w.poll.recoverySent + |v.delivered| - |w.delivered|)
  {
  }

  lemma GoesOneStep(ws: seq<World>, steps: seq<Step>, i: nat)
    requires Goes(ws, steps) && i < |steps| && Tallied(ws[i].poll)
    ensures var w, v := ws[i], ws[i + 1];
            Tallied(v.poll) && (v.poll.pending ==> v.poll.recoverySent == w.poll.recoverySent + |v.delivered| - |w.delivered|)
  {
    StepTallies(ws[i], steps[i]);
  }

  /** "panel back, N events resent": when the recovery has been pending ever since the
      first of the steps, over however many interrupted drains, N is the number of
      events the panel accepted since then. */
  lemma {:induction false} RecoveryCountsTheResent(ws: seq<World>, steps: seq<Step>, n: nat)
    requires Goes(ws, steps) && 0 < n <= |steps|
    requires Tallied(ws[0].poll) && !ws[0].poll.pending && forall j :: 0 < j <= n ==> ws[j].poll.pending
    ensures MessageAt(ws[n].poll) == Some(|ws[n].delivered| - |ws[0].delivered|)
  {
    if n > 1 {
      RecoveryCountsTheResent(ws, steps, n - 1);
    }
    GoesOneStep(ws, steps, n - 1);
  }

  lemma {:induction false} RunTallies(run: seq<Step>)
    ensures Tallied(Run(run).poll)
  {
    if run != [] {
      RunTallies(run[..|run| - 1]);
      StepTallies(Run(run[..|run| - 1]), run[|run| - 1]);
    }
  }

  /** `delivered` is the accepted events, each once. */
  lemma DeliveredOnce(run: seq<Step>)
    requires CanRun(run)
    ensures var w := Run(run); Distinct(w.delivered) && forall id :: id in w.delivered <==> id in w.fate && w.fate[id] == Delivered
  {
    RunBalances(run);
  }

  /** The panel events of the outbox are the filings, one row each: `panelIds` names
      the row of each, and no other row is a panel event. */
  ghost predicate Booked(w: World) {
    && |w.panelIds| == |w.panel| && Distinct(w.panelIds)
    && (forall i :: 0 <= i < |w.panelIds| ==> w.panelIds[i] in w.queued && w.queued[w.panelIds[i]].event == PanelEvent(w.panel[i]))
    && (forall id :: id in w.queued && w.queued[id].event.PanelEvent? ==> id in w.panelIds)
  }

  lemma ObserveBooks(w: World, look: Look, id: string, now: int)
    requires Booked(w) && id !in w.queued
    ensures Booked(Observe(w, look, id, now))
  {
    if Filed(w.poll.mode, look).Some? {
      assert id !in w.panelIds;
      DistinctAppend(w.panelIds, id);
    }
  }

  lemma StepBooks(w: World, s: Step)
    requires Booked(w) && Enabled(w, s)
    ensures Booked(Next(w, s))
  {
    match s
    case Looked(look, id, now) => ObserveBooks(w, look, id, now);
    case Offered(answer, after, id, now) =>
      var v := Stamp(w, Decoded(Batch(w.poll.rows), false), Unreadable, now);
      assert v.queued == w.queued && v.panel == w.panel && v.panelIds == w.panelIds;
      ObserveBooks(v, Look(OutcomeOf(answer), after), id, now);
    case _ =>
  }

  lemma {:induction false} RunIsBooked(run: seq<Step>)
    requires CanRun(run)
    ensures Booked(Run(run))
  {
    if run != [] {
      RunIsBooked(run[..|run| - 1]);
      StepBooks(Run(run[..|run| - 1]), run[|run| - 1]);
    }
  }

  /** In every run the panel events queued alternate, PANEL_DOWN first, and the mode is
      the last of them; and every panel event in the outbox is one of these. */
  lemma PanelEventsAlternate(run: seq<Step>)
    requires CanRun(run)
    ensures var w := Run(run);
            && Distinct(w.panelIds)
            && (forall i :: 0 <= i < |w.panelIds| ==>
                  w.panelIds[i] in w.queued && w.queued[w.panelIds[i]].event.PanelEvent?
                  && (w.queued[w.panelIds[i]].event.filing.WentDown? <==> i % 2 == 0))
            && (w.poll.mode.down <==> |w.panelIds| % 2 == 1)
            && (forall r <- w.poll.rows :: r.event.PanelEvent? ==> r.id in w.panelIds && r.event == w.queued[r.id].event)
  {
    RunBalances(run);
    RunIsBooked(run);
    FilingsAlternate(Run(run).looks);
    BookedRows(Run(run));
  }

  lemma BookedRows(w: World)
    requires Balanced(w) && Booked(w)
    ensures forall r <- w.poll.rows :: r.id in w.queued && r.event == w.queued[r.id].event && (r.event.PanelEvent? ==> r.id in w.panelIds)
  {
    forall r | r in w.poll.rows ensures r.id in w.queued && r.event == w.queued[r.id].event {
      assert RowStands(r, w.queued, w.fate);
    }
  }
}
