/** The event outbox and its drain (internal/panel/poller.go: flush, Prune, observe
    and the recovery count). */
module Outbox {
  import opened Wrappers
  import opened Sorting
  import opened Flatten
  import opened PanelClient
  import opened Watch

  const MAX_EVENTS := 1000
  const MAX_AGE: int := 86400000

  datatype Event = PanelEvent(filing: Filing) | EngineEvent

  /** A row of events_outbox.  `readable` is whether its payload will parse. */
  datatype Row = Row(id: string, ts: int, event: Event, readable: bool, notified: bool, sentAt: Option<int>, dropped: bool)

  /** The poller's mode and recovery count, and the table it drains. */
  datatype Poll = Poll(mode: Mode, pending: bool, recoverySent: nat, rows: seq<Row>)

  const IDLE := Poll(FRESH, false, 0, [])

  // ---- the table ----

  function IdsOf(rows: seq<Row>): seq<string> {
    seq(|rows|, i requires 0 <= i < |rows| => rows[i].id)
  }

  function Unsent(rows: seq<Row>): seq<Row> {
    if rows == [] then []
    else Unsent(rows[..|rows| - 1]) + (if rows[|rows| - 1].sentAt == None then [rows[|rows| - 1]] else [])
  }

  predicate RowLe(a: Row, b: Row) {
    a.ts < b.ts || (a.ts == b.ts && TextLe(a.id, b.id))
  }

  /** The oldest unsent rows, at most a thousand. */
  function Batch(rows: seq<Row>): seq<Row> {
    var sorted := Sort(Unsent(rows), RowLe);
    if |sorted| > MAX_EVENTS then sorted[..MAX_EVENTS] else sorted
  }

  function Decoded(batch: seq<Row>, readable: bool): seq<string> {
    if batch == [] then []
    else Decoded(batch[..|batch| - 1], readable) + (if batch[|batch| - 1].readable == readable then [batch[|batch| - 1].id] else [])
  }

  function MarkedRow(r: Row, ids: seq<string>, at: int, dropped: bool): Row {
    if r.id in ids then r.(sentAt := Some(at), dropped := r.dropped || dropped) else r
  }

  function Marked(rows: seq<Row>, ids: seq<string>, at: int, dropped: bool): seq<Row> {
    seq(|rows|, i requires 0 <= i < |rows| => MarkedRow(rows[i], ids, at, dropped))
  }

  predicate Expired(r: Row, now: int) {
    r.sentAt == None && r.notified && r.ts < now - MAX_AGE
  }

  function Pruned(rows: seq<Row>, now: int): seq<Row> {
    if rows == [] then []
    else Pruned(rows[..|rows| - 1], now) + (if Expired(rows[|rows| - 1], now) then [] else [rows[|rows| - 1]])
  }

  /** unnotify: the event's message failed, so the panel must announce it after all;
      its payload is written anew. */
  function Unnotified(r: Row): Row {
    r.(notified := false, readable := true)
  }

  function UnnotifiedIn(rows: seq<Row>, id: string): seq<Row> {
    seq(|rows|, i requires 0 <= i < |rows| => if rows[i].id == id then Unnotified(rows[i]) else rows[i])
  }

  // ---- the steps ----

  function Observed(p: Poll, look: Look, id: string, now: int): Poll {
    var q := p.(mode := Noted(p.mode, look), pending := p.pending || (look.outcome == None && p.mode.down));
    match Filed(p.mode, look)
    case None => q
    case Some(filing) => q.(rows := q.rows + [Row(id, now, PanelEvent(filing), true, true, None, false)])
  }

  datatype EventsAnswer = Accepted(rejected: seq<Rejection>) | Failed(failure: Failure)

  function OutcomeOf(answer: EventsAnswer): Option<Failure> {
    if answer.Failed? then Some(answer.failure) else None
  }

  /** A batch the panel will never take: an answer that names the request as wrong. */
  predicate Refuses(answer: EventsAnswer) {
    answer.Failed? && answer.failure.Api? && !IsRetryable(answer.failure)
  }

  function SentOf(ids: seq<string>, answer: EventsAnswer): seq<string> {
    if answer.Failed? then [] else Picked(ids, RejectionsOf(|ids|, answer.rejected, Some(ids)), false)
  }

  function RefusedOf(ids: seq<string>, answer: EventsAnswer): seq<string> {
    if Refuses(answer) then ids
    else if answer.Failed? then []
    else Picked(ids, RejectionsOf(|ids|, answer.rejected, Some(ids)), true)
  }

  /** What the answer to a batch does once it has been observed. */
  function Answered(p: Poll, ids: seq<string>, answer: EventsAnswer, at: int): Poll {
    var sent := SentOf(ids, answer);
    p.(rows := Marked(Marked(p.rows, sent, at, false), RefusedOf(ids, answer), at, true),
       recoverySent := if p.pending then p.recoverySent + |sent| else p.recoverySent)
  }

  datatype Step =
    | Queued(row: Row)
    | Looked(look: Look, id: string, now: int)
    | Swept(now: int)
    | Offered(answer: EventsAnswer, after: int, id: string, now: int)
    | MessageFailed(id: string)
    | Drained

  function NextPoll(p: Poll, s: Step): Poll {
    match s
    case Queued(row) => p.(rows := p.rows + [row])
    case Looked(look, id, now) => Observed(p, look, id, now)
    case Swept(now) => p.(rows := Pruned(p.rows, now))
    case Offered(answer, after, id, now) =>
      var batch := Batch(p.rows);
      var ids := Decoded(batch, true);
      var q := p.(rows := Marked(p.rows, Decoded(batch, false), now, true));
      if ids == [] then q else Answered(Observed(q, Look(OutcomeOf(answer), after), id, now), ids, answer, now)
    case MessageFailed(id) => p.(rows := UnnotifiedIn(p.rows, id))
    case Drained => p.(pending := false, recoverySent := 0)
  }

  function PollAfter(p: Poll, run: seq<Step>): Poll {
    if run == [] then p else NextPoll(PollAfter(p, run[..|run| - 1]), run[|run| - 1])
  }

  // ---- the program ----

  lemma MarkNone(rows: seq<Row>, at: int, dropped: bool)
    ensures Marked(rows, [], at, dropped) == rows
  {
  }

  class Poller {
    var down: bool
    var failures: nat
    var pendingRecovery: bool
    var recoverySent: nat
    var rows: seq<Row>

    ghost function Value(): Poll
      reads this
    {
      Poll(Mode(down, failures), pendingRecovery, recoverySent, rows)
    }

    constructor ()
      ensures Value() == IDLE
    {
      down, failures, pendingRecovery, recoverySent, rows := false, 0, false, 0, [];
    }

    method Enqueue(row: Row)
      modifies this`rows
      ensures rows == old(rows) + [row]
    {
      rows := rows + [row];
    }

    /** The engine's unnotify, on the table it shares: UPDATE ... WHERE id = id. */
    method Unnotify(id: string)
      modifies this`rows
      ensures Value() == NextPoll(old(Value()), MessageFailed(id))
    {
      for i := 0 to |rows|
        invariant |rows| == |old(rows)|
        invariant forall j :: 0 <= j < |rows| ==> rows[j] == if j < i then UnnotifiedIn(old(rows), id)[j] else old(rows)[j]
      {
        if rows[i].id == id {
          rows := rows[i := rows[i].(notified := false, readable := true)];
        }
      }
      assert rows == UnnotifiedIn(old(rows), id);
    }

    method MarkUp() returns (back: bool)
      modifies this`down, this`failures, this`pendingRecovery
      ensures back == old(down)
      ensures !down && failures == 0 && pendingRecovery == (old(pendingRecovery) || old(down))
    {
      failures := 0;
      if !down {
        return false;
      }
      down := false;
      pendingRecovery := true;
      return true;
    }

    method MarkDown(panelDownAfter: int) returns (tripped: bool)
      modifies this`down, this`failures
      ensures failures == old(failures) + 1
      ensures tripped <==> !old(down) && failures >= Threshold(panelDownAfter)
      ensures down == (old(down) || tripped)
    {
      var after := panelDownAfter;
      if after < 1 {
        after := 1;
      }
      failures := failures + 1;
      if down || failures < after {
        return false;
      }
      down := true;
      return true;
    }

    /** observe; `id` is the uuid a filed event would get. */
    method Observe(outcome: Option<Failure>, after: int, id: string, now: int)
      modifies this
      ensures Value() == Observed(old(Value()), Look(outcome, after), id, now)
    {
      if outcome == None {
        var back := MarkUp();
        if back {
          Enqueue(Row(id, now, PanelEvent(CameBack), true, true, None, false));
        }
        return;
      }
      var reason := FailureReason(outcome.value);
      if reason == None {
        return;
      }
      var tripped := MarkDown(after);
      if tripped {
        Enqueue(Row(id, now, PanelEvent(WentDown(reason.value)), true, true, None, false));
      }
    }

    /** DELETE ... WHERE sent_at IS NULL AND notified AND ts < cutoff. */
    method Prune(now: int)
      modifies this`rows
      ensures rows == Pruned(old(rows), now)
    {
      var kept: seq<Row> := [];
      for i := 0 to |rows|
        invariant rows == old(rows) && kept == Pruned(rows[..i], now)
      {
        assert rows[..i + 1][..i] == rows[..i];
        if !Expired(rows[i], now) {
          kept := kept + [rows[i]];
        }
      }
      assert rows[..|rows|] == rows;
      rows := kept;
    }

    method MarkSent(ids: seq<string>, at: int)
      modifies this`rows
      ensures rows == Marked(old(rows), ids, at, false)
    {
      for i := 0 to |rows|
        invariant |rows| == |old(rows)|
        invariant forall j :: 0 <= j < |rows| ==> rows[j] == if j < i then MarkedRow(old(rows)[j], ids, at, false) else old(rows)[j]
      {
        if rows[i].id in ids {
          rows := rows[i := rows[i].(sentAt := Some(at))];
        }
      }
    }

    method MarkDropped(ids: seq<string>, at: int)
      modifies this`rows
      ensures rows == Marked(old(rows), ids, at, true)
    {
      for i := 0 to |rows|
        invariant |rows| == |old(rows)|
        invariant forall j :: 0 <= j < |rows| ==> rows[j] == if j < i then MarkedRow(old(rows)[j], ids, at, true) else old(rows)[j]
      {
        if rows[i].id in ids {
          rows := rows[i := rows[i].(sentAt := Some(at), dropped := true)];
        }
      }
    }

    static method DecodeBatch(batch: seq<Row>) returns (ids: seq<string>, dropped: seq<string>)
      ensures ids == Decoded(batch, true) && dropped == Decoded(batch, false)
    {
      ids, dropped := [], [];
      for i := 0 to |batch|
        invariant ids == Decoded(batch[..i], true) && dropped == Decoded(batch[..i], false)
      {
        assert batch[..i + 1][..i] == batch[..i];
        if !batch[i].readable {
          dropped := dropped + [batch[i].id];
        } else {
          ids := ids + [batch[i].id];
        }
      }
      assert batch[..|batch|] == batch;
    }

    method AddRecoverySent(n: nat)
      modifies this`recoverySent
      ensures recoverySent == old(recoverySent) + (if pendingRecovery then n else 0)
    {
      if pendingRecovery {
        recoverySent := recoverySent + n;
      }
    }

    /** The "panel back, N events resent" message, when one is due. */
    method FinishRecovery() returns (message: Option<nat>)
      modifies this`pendingRecovery, this`recoverySent
      ensures message == if old(pendingRecovery) then Some(old(recoverySent)) else None
      ensures !pendingRecovery && recoverySent == 0
    {
      var pending, sent := pendingRecovery, recoverySent;
      pendingRecovery, recoverySent := false, 0;
      if !pending {
        return None;
      }
      return Some(sent);
    }

    /** Files an observed answer; an error is one the batch should be kept for. */
    method File(ids: seq<string>, answer: EventsAnswer, at: int) returns (error: Option<Failure>)
      modifies this`rows, this`recoverySent
      ensures Value() == Answered(old(Value()), ids, answer, at)
      ensures error == if answer.Failed? && !Refuses(answer) then Some(answer.failure) else None
      ensures error == None <==> answer.Accepted? || (answer.failure.Api? && answer.failure.status < 500)
    {
      MarkNone(rows, at, true);
      MarkNone(rows, at, false);
      match answer {
        case Failed(f) =>
          if f.Api? && !IsRetryable(f) {
            MarkDropped(ids, at);
            return None;
          }
          return Some(f);
        case Accepted(rejected) =>
          var refusals := Rejections(|ids|, rejected, Some(ids));
          var sent, refused := Split(ids, refusals);
          MarkSent(sent, at);
          MarkDropped(refused, at);
          AddRecoverySent(|sent|);
          return None;
      }
    }

    /** One turn of flush's loop over a batch that is not empty. */
    method Offer(panel: (nat, seq<string>) -> EventsAnswer, n: nat, after: int, id: string, now: int) returns (error: Option<Failure>, ghost s: Step)
      requires Batch(rows) != []
      modifies this
      ensures s == Offered(panel(n, Decoded(Batch(old(rows)), true)), after, id, now)
      ensures Value() == NextPoll(old(Value()), s)
      ensures error == if Decoded(Batch(old(rows)), true) != [] && s.answer.Failed? && !Refuses(s.answer) then Some(s.answer.failure) else None
    {
      var batch := Batch(rows);
      var ids, dropped := DecodeBatch(batch);
      s := Offered(panel(n, ids), after, id, now);
      MarkNone(rows, now, true);
      if |dropped| > 0 {
        MarkDropped(dropped, now);
      }
      if |ids| == 0 {
        return None, s;
      }
      var answer := panel(n, ids);
      Observe(OutcomeOf(answer), after, id, now);
      error := File(ids, answer, now);
    }

    /** flush.  `panel` answers the n-th batch, whatever it likes; `uuid` and `now`
        are the ids and the clock.  It ends: with nothing unsent and the recovery
        message given, or with a failure that keeps the batch in the queue.  `run`
        is what it did. */
    method Flush(panel: (nat, seq<string>) -> EventsAnswer, after: int, uuid: nat -> string, now: nat -> int)
      returns (error: Option<Failure>, message: Option<nat>, ghost run: seq<Step>)
      modifies this
      ensures Value() == PollAfter(old(Value()), run)
      ensures IsFlush(run, now(0), error == None)
      ensures error.Some? ==> message == None && !(error.value.Api? && error.value.status < 500)
      ensures error == None ==> Unsent(rows) == [] && message == MessageAt(PollAfter(old(Value()), run[..|run| - 1]))
    {
      Prune(now(0));
      run := [Swept(now(0))];
      assert run[..0] == [];
      error, run := Drain(panel, after, uuid, now, old(Value()), run);
      if error.Some? {
        return error, None, run;
      }
      message := FinishRecovery();
      assert (run + [Drained])[..|run|] == run;
      run := run + [Drained];
    }

    method Drain(panel: (nat, seq<string>) -> EventsAnswer, after: int, uuid: nat -> string, now: nat -> int, ghost start: Poll, ghost sofar: seq<Step>)
      returns (error: Option<Failure>, ghost run: seq<Step>)
      requires Value() == PollAfter(start, sofar) && IsFlush(sofar, now(0), false)
      modifies this
      ensures Value() == PollAfter(start, run) && IsFlush(run, now(0), false)
      ensures error.Some? ==> !Refuses(Failed(error.value))
      ensures error == None ==> Unsent(rows) == []
    {
      var n := 0;
      run := sofar;
      while true
        invariant Value() == PollAfter(start, run) && IsFlush(run, now(0), false)
        decreases down, |Unsent(rows)|
      {
        EmptyBatch(rows);
        if |Batch(rows)| == 0 {
          return None, run;
        }
        ghost var before := Value();
        ghost var s;
        error, s := Offer(panel, n, after, uuid(n), now(n + 1));
        assert (run + [s])[..|run|] == run;
        run := run + [s];
        if error.Some? {
          return error, run;
        }
        OfferShrinks(before, s);
        n := n + 1;
      }
    }
  }

  function MessageAt(p: Poll): Option<nat> {
    if p.pending then Some(p.recoverySent) else None
  }

  /** A flush prunes once, offers batches, and closes the recovery only if it drained. */
  predicate IsFlush(run: seq<Step>, now: int, drained: bool) {
    && run != [] && run[0] == Swept(now)
    && (drained <==> run[|run| - 1] == Drained)
    && forall i :: 0 < i < |run| - (if drained then 1 else 0) ==> run[i].Offered?
  }

  lemma EmptyBatch(rows: seq<Row>)
    ensures Batch(rows) == [] <==> Unsent(rows) == []
  {
  }

  lemma {:induction false} UnsentMembers(rows: seq<Row>)
    ensures forall r :: r in Unsent(rows) <==> r in rows && r.sentAt == None
  {
    if rows != [] {
      UnsentMembers(rows[..|rows| - 1]);
      assert rows == rows[..|rows| - 1] + [rows[|rows| - 1]];
    }
  }

  lemma RowOrder()
    ensures TotalPreorder(RowLe)
  {
    forall a: Row, b: Row ensures RowLe(a, b) || RowLe(b, a) {
      TextTotal(a.id, b.id);
    }
    forall a: Row, b: Row, c: Row | RowLe(a, b) && RowLe(b, c) ensures RowLe(a, c) {
      if a.ts == b.ts == c.ts {
        TextTransitive(a.id, b.id, c.id);
      }
    }
  }

  lemma BatchMembers(rows: seq<Row>)
    ensures |Batch(rows)| <= MAX_EVENTS
    ensures forall r <- Batch(rows) :: r in rows && r.sentAt == None
  {
    RowOrder();
    UnsentMembers(rows);
    var unsent := Unsent(rows);
    SortSorts(unsent, RowLe);
    forall r | r in Batch(rows) ensures r in rows && r.sentAt == None {
      assert r in Sort(unsent, RowLe);
      assert r in multiset(Sort(unsent, RowLe));
      assert r in unsent;
    }
  }

  lemma SortedUnsent(rows: seq<Row>)
    ensures Sorted(Sort(Unsent(rows), RowLe), RowLe)
    ensures forall r :: r in Sort(Unsent(rows), RowLe) <==> r in rows && r.sentAt == None
  {
    RowOrder();
    UnsentMembers(rows);
    SortSorts(Unsent(rows), RowLe);
    forall r ensures r in Sort(Unsent(rows), RowLe) <==> r in Unsent(rows) {
      assert r in Sort(Unsent(rows), RowLe) <==> r in multiset(Sort(Unsent(rows), RowLe));
      assert r in Unsent(rows) <==> r in multiset(Unsent(rows));
    }
  }

  lemma PastPrefix(rows: seq<Row>, n: nat, j: nat)
    requires n <= |rows| && j < |rows|
    ensures rows[j] !in rows[..n] ==> n <= j
  {
    assert j < n ==> rows[..n][j] == rows[j];
  }

  lemma TakenFirst(sorted: seq<Row>, n: nat)
    requires Sorted(sorted, RowLe) && n <= |sorted|
    ensures forall i, j :: 0 <= i < j < n ==> NoOlder(sorted[j], sorted[i])
    ensures forall r <- sorted, b <- sorted[..n] :: r !in sorted[..n] ==> NoOlder(r, b)
  {
    forall r, b | r in sorted && b in sorted[..n] && r !in sorted[..n] ensures NoOlder(r, b) {
      var i :| 0 <= i < n && sorted[i] == b;
      var j :| 0 <= j < |sorted| && sorted[j] == r;
      PastPrefix(sorted, n, j);
      assert RowLe(sorted[i], sorted[j]);
    }
  }

  /** A batch is the thousand oldest unsent rows, or all of them, by time and then by id:
      no row left out is older than one taken. */
  lemma BatchIsTheOldest(rows: seq<Row>)
    ensures forall r <- Batch(rows) :: r in rows && r.sentAt == None
    ensures |Batch(rows)| <= 1000
    ensures |Batch(rows)| < 1000 ==> forall r <- rows :: r.sentAt == None ==> r in Batch(rows)
    ensures forall i, j :: 0 <= i < j < |Batch(rows)| ==> NoOlder(Batch(rows)[j], Batch(rows)[i])
    ensures forall r <- rows, b <- Batch(rows) :: r.sentAt == None && r !in Batch(rows) ==> NoOlder(r, b)
  {
    SortedUnsent(rows);
    var sorted := Sort(Unsent(rows), RowLe);
    TakenFirst(sorted, |Batch(rows)|);
    assert Batch(rows) == sorted[..|Batch(rows)|];
    hide Unsent, Sort, Batch, NoOlder, RowLe;
    assert |Batch(rows)| < 1000 ==> Batch(rows) == sorted by {
      WholeBatch(rows);
    }
  }

  lemma WholeBatch(rows: seq<Row>)
    ensures |Batch(rows)| < 1000 ==> Batch(rows) == Sort(Unsent(rows), RowLe)
    ensures |Batch(rows)| <= 1000
  {
  }

  predicate NoOlder(r: Row, b: Row) {
    b.ts < r.ts || (b.ts == r.ts && TextLe(b.id, r.id))
  }

  /** Filing ids stamps exactly their rows, with the time of the answer. */
  lemma FilingStamps(rows: seq<Row>, ids: seq<string>, at: int, dropped: bool, i: nat)
    requires i < |rows|
    ensures var r := Marked(rows, ids, at, dropped)[i];
            if rows[i].id in ids then r == rows[i].(sentAt := Some(at), dropped := rows[i].dropped || dropped) else r == rows[i]
  {
  }

  lemma {:induction false} DecodedMembers(batch: seq<Row>, readable: bool)
    ensures forall id :: id in Decoded(batch, readable) <==> exists r <- batch :: r.readable == readable && r.id == id
  {
    if batch != [] {
      var init, last := batch[..|batch| - 1], batch[|batch| - 1];
      assert batch == init + [last];
      DecodedMembers(init, readable);
      assert last in batch;
    }
  }

  /** Rows stamped one by one, none unstamped. */
  ghost predicate OnlyStamped(rows: seq<Row>, later: seq<Row>) {
    |later| == |rows| && forall i :: 0 <= i < |rows| ==> later[i].id == rows[i].id && (rows[i].sentAt.Some? ==> later[i].sentAt.Some?)
  }

  lemma {:induction false} FewerUnsent(rows: seq<Row>, later: seq<Row>)
    requires OnlyStamped(rows, later)
    ensures |Unsent(later)| <= |Unsent(rows)|
    ensures (exists i :: 0 <= i < |rows| && rows[i].sentAt == None && later[i].sentAt.Some?) ==> |Unsent(later)| < |Unsent(rows)|
  {
    if rows != [] {
      FewerUnsent(rows[..|rows| - 1], later[..|rows| - 1]);
    }
  }

  lemma EachIsFiled(ids: seq<string>, answer: EventsAnswer)
    requires answer.Accepted? || Refuses(answer)
    ensures forall id <- ids :: id in SentOf(ids, answer) || id in RefusedOf(ids, answer)
  {
    if answer.Accepted? {
      var refusals := RejectionsOf(|ids|, answer.rejected, Some(ids));
      PickedByIndex(ids, refusals, false);
      PickedByIndex(ids, refusals, true);
    }
  }

  lemma MarkedStamps(rows: seq<Row>, ids: seq<string>, at: int, dropped: bool)
    ensures OnlyStamped(rows, Marked(rows, ids, at, dropped))
    ensures forall i :: 0 <= i < |rows| && rows[i].id in ids ==> Marked(rows, ids, at, dropped)[i].sentAt.Some?
  {
  }

  /** What an offer does to the table when it files no event. */
  function Resolved(rows: seq<Row>, bad: seq<string>, sent: seq<string>, refused: seq<string>, at: int): seq<Row> {
    Marked(Marked(Marked(rows, bad, at, true), sent, at, false), refused, at, true)
  }

  lemma ResolvedStamps(rows: seq<Row>, bad: seq<string>, sent: seq<string>, refused: seq<string>, at: int)
    ensures OnlyStamped(rows, Resolved(rows, bad, sent, refused, at))
    ensures forall i :: 0 <= i < |rows| && (rows[i].id in bad || rows[i].id in sent || rows[i].id in refused) ==>
              Resolved(rows, bad, sent, refused, at)[i].sentAt.Some?
  {
    var one := Marked(rows, bad, at, true);
    var two := Marked(one, sent, at, false);
    MarkedStamps(rows, bad, at, true);
    MarkedStamps(one, sent, at, false);
    MarkedStamps(two, refused, at, true);
  }

  lemma OfferedQuietly(p: Poll, s: Step)
    requires s.Offered?
    ensures var batch := Batch(p.rows);
            var ids, bad := Decoded(batch, true), Decoded(batch, false);
            var q := NextPoll(p, s);
            && (ids == [] ==> q == p.(rows := Resolved(p.rows, bad, [], [], s.now)))
            && (ids != [] && ((s.answer.Accepted? && !p.mode.down) || Refuses(s.answer)) ==>
                  q.mode.down == p.mode.down
                  && q.rows == Resolved(p.rows, bad, SentOf(ids, s.answer), RefusedOf(ids, s.answer), s.now))
            && (ids != [] && s.answer.Accepted? ==> !q.mode.down)
  {
    var bad := Decoded(Batch(p.rows), false);
    MarkNone(Marked(p.rows, bad, s.now, true), s.now, false);
    MarkNone(Marked(p.rows, bad, s.now, true), s.now, true);
  }

  /** Every turn of the loop either leaves PANEL_DOWN or leaves fewer rows unsent;
      only a success can file an event, and only on leaving PANEL_DOWN. */
  lemma OfferShrinks(p: Poll, s: Step)
    requires s.Offered? && Batch(p.rows) != []
    requires Decoded(Batch(p.rows), true) == [] || s.answer.Accepted? || Refuses(s.answer)
    ensures var q := NextPoll(p, s);
            (p.mode.down && !q.mode.down) || (p.mode.down == q.mode.down && |Unsent(q.rows)| < |Unsent(p.rows)|)
  {
    OfferedQuietly(p, s);
    BatchResolves(p.rows, s.answer, s.now);
  }

  lemma BatchResolves(rows: seq<Row>, answer: EventsAnswer, at: int)
    requires Batch(rows) != []
    ensures var ids, bad := Decoded(Batch(rows), true), Decoded(Batch(rows), false);
            && (ids == [] ==> |Unsent(Resolved(rows, bad, [], [], at))| < |Unsent(rows)|)
            && (answer.Accepted? || Refuses(answer) ==>
                  |Unsent(Resolved(rows, bad, SentOf(ids, answer), RefusedOf(ids, answer), at))| < |Unsent(rows)|)
  {
    var batch := Batch(rows);
    var ids, bad := Decoded(batch, true), Decoded(batch, false);
    BatchMembers(rows);
    DecodedMembers(batch, true);
    DecodedMembers(batch, false);
    var r := batch[0];
    assert r in batch;
    var i :| 0 <= i < |rows| && rows[i] == r;
    assert r.id in ids || r.id in bad;
    if ids == [] {
      ResolvedStamps(rows, bad, [], [], at);
      FewerUnsent(rows, Resolved(rows, bad, [], [], at));
    }
    if answer.Accepted? || Refuses(answer) {
      EachIsFiled(ids, answer);
      ResolvedStamps(rows, bad, SentOf(ids, answer), RefusedOf(ids, answer), at);
      FewerUnsent(rows, Resolved(rows, bad, SentOf(ids, answer), RefusedOf(ids, answer), at));
    }
  }
}
