/** What being given one's due comes to: what a sync pauses, which results step which
    row, and histories over whole runs. */
module Received {
  import opened Wrappers
  import opened Store
  import opened Machine
  import opened History
  import opened Wire
  import opened Tables
  import opened Runs
  import opened Pauses
  import opened Dues

  /** The events filed for a row grow by those of the acts due to it. */
  lemma TrailGrows(db: Db, op: Op, after: Db, t: Target, u: Target)
    requires Explained(db) && Explained(after) && Continues(db, op, after, t, u) && u in after.targets
    ensures TrailOf(after.log, u.id) == TrailOf(db.log, t.id) + Live(t, Due(db, op, t)).log
  {
    assert RowExplained(db, t) && RowExplained(after, u);
    hide Due, Live, TrailOf, Leaves;
    var past := db.pasts[t.id];
    LiveConcat(Fresh(t.id, t.client, t.key, past.bornAt), past.acts, Due(db, op, t));
  }

  lemma RowIsOf(db: Db, op: Op, after: Db, t: Target, u: Target)
    requires GivesDue(db, op, after) && t in db.targets && u in after.targets && u.id == t.id
    ensures Continues(db, op, after, t, u)
  {
    IdsAreSmall(db, t);
    hide Due, Leaves, Wants;
    assert Accounted(db, op, after, u);
    var v :| Continues(db, op, after, v, u);
    SameIdSameRow(db, t, v);
  }

  lemma IdsAreSmall(db: Db, t: Target)
    requires Ids(db) && t in db.targets
    ensures t.id < db.nextId
  {
  }

  // ---- what a sync must do ----

  /** u is t moved at now, and the move is the one event filed for it. */
  ghost predicate MovedTo(db: Db, after: Db, t: Target, u: Target, to: TargetState, reason: Reason, now: int) {
    && u == t.(state := to, reason := reason, since := now, oks := 0, fails := 0, flappingUntil := None)
    && TrailOf(after.log, t.id) == TrailOf(db.log, t.id) + [Filed(now, Transition(t.state, to, reason, false, t.since))]
  }

  ghost predicate LeftAlone(db: Db, after: Db, t: Target, u: Target) {
    u == t && TrailOf(after.log, t.id) == TrailOf(db.log, t.id)
  }

  /** What a sync must make of a row. */
  ghost predicate Synchronised(db: Db, op: Op, after: Db, t: Target, u: Target)
    requires op.Inbounds?
  {
    var inbound := InboundKey(t.key.kind, t.key.inbound);
    var off := if inbound in op.live then !op.live[inbound] else inbound in db.known;
    var on := inbound in op.live && op.live[inbound];
    && u.id == t.id && (off ==> u.state == Paused)
    && (if off && t.state != Paused then MovedTo(db, after, t, u, Paused, ConfigDisabled, op.now)
        else if on && t.state == Paused && t.reason == ConfigDisabled then MovedTo(db, after, t, u, Unknown, ConfigEnabled, op.now)
        else LeftAlone(db, after, t, u))
  }

  /** After a sync every row of an inbound that is listed as disabled, or was known and
      is not listed, is PAUSED: with config_disabled, since now and by one event from its
      old state unless it was PAUSED already.  A row paused so comes back as UNKNOWN when
      its inbound is listed as enabled.  Every other row is the same, and no event is
      filed for it. */
  lemma SyncPauses(db: Db, op: Op, t: Target)
    requires Explained(db) && op.Inbounds? && Enabled(db, op) && t in db.targets
    ensures exists u <- Next(db, op).targets :: Synchronised(db, op, Next(db, op), t, u)
    ensures |Next(db, op).targets| == |db.targets|
  {
    NextGives(db, op);
    SyncedSizes(db, op.gone, op.order, op.live, op.now);
    hide Enabled, Synced, Synchronised, GivesDue;
    SteppedSyncs(db, op, Next(db, op), t);
  }

  lemma SteppedSyncs(db: Db, op: Op, after: Db, t: Target)
    requires op.Inbounds? && GivesDue(db, op, after) && t in db.targets
    ensures exists u <- after.targets :: Synchronised(db, op, after, t, u)
  {
    var u :| u in after.targets && u.id == t.id;
    RowIsOf(db, op, after, t, u);
    TrailGrows(db, op, after, t, u);
    hide GivesDue, Explained, Leaves, TrailOf, Live, Synchronised, SyncMoves, LeftAlone;
    RowSyncs(db, op, after, t, u);
  }

  lemma RowSyncs(db: Db, op: Op, after: Db, t: Target, u: Target)
    requires op.Inbounds? && u.id == t.id && u == Live(t, SyncMoves(t, op.live, db.known, op.now)).row
    requires TrailOf(after.log, t.id) == TrailOf(db.log, t.id) + Live(t, SyncMoves(t, op.live, db.known, op.now)).log
    ensures Synchronised(db, op, after, t, u)
  {
    hide TrailOf, Live;
    var moves := SyncMoves(t, op.live, db.known, op.now);
    OneFiled(TrailOf(db.log, t.id), t, moves);
    OneMoved(t, moves);
  }

  lemma OneMoved(t: Target, moves: seq<Act>)
    requires |moves| <= 1 && forall m <- moves :: m.Move?
    ensures Live(t, moves).row ==
            if moves == [] then t else t.(state := moves[0].to, reason := moves[0].reason, since := moves[0].at, oks := 0, fails := 0, flappingUntil := None)
  {
    if moves != [] {
      assert moves == [moves[0]] && moves[0] in moves;
    }
    OneAct(t, if moves == [] then Move(Unknown, NoReason, 0) else moves[0]);
  }

  lemma OneFiled(trail: seq<Filed>, t: Target, moves: seq<Act>)
    requires |moves| <= 1 && forall m <- moves :: m.Move?
    ensures trail + Live(t, moves).log ==
            if moves == [] then trail else trail + [Filed(moves[0].at, Transition(t.state, moves[0].to, moves[0].reason, false, t.since))]
  {
    if moves != [] {
      assert moves == [moves[0]] && moves[0] in moves;
      OneAct(t, moves[0]);
    }
  }

  // ---- what a heartbeat's results do ----

  function ResultsIn(acts: seq<Act>): seq<Act> {
    if acts == [] then []
    else ResultsIn(acts[..|acts| - 1]) + (if acts[|acts| - 1].Result? then [acts[|acts| - 1]] else [])
  }

  lemma {:induction false} ResultsConcat(xs: seq<Act>, ys: seq<Act>)
    ensures ResultsIn(xs + ys) == ResultsIn(xs) + ResultsIn(ys)
  {
    if ys == [] {
      assert xs + ys == xs;
    } else {
      assert (xs + ys)[..|xs + ys| - 1] == xs + ys[..|ys| - 1];
      ResultsConcat(xs, ys[..|ys| - 1]);
    }
  }

  lemma {:induction false} GivenAreResults(results: seq<Result>, key: TargetKey, th: Thresholds, now: int)
    ensures ResultsIn(Given(results, key, th, now)) == Given(results, key, th, now)
  {
    if results != [] {
      var init, r := results[..|results| - 1], results[|results| - 1];
      GivenAreResults(init, key, th, now);
      if r.key == key {
        ResultsConcat(Given(init, key, th, now), [OneGiven(r, th, now)]);
        assert [OneGiven(r, th, now)][..0] == [];
      } else {
        assert Given(init, key, th, now) + [] == Given(init, key, th, now);
      }
    }
  }

  /** Where the results about one target stand in a list. */
  ghost function AboutAt(results: seq<Result>, key: TargetKey): (at: seq<nat>)
    ensures forall i: nat :: i in at <==> i < |results| && results[i].key == key
  {
    if results == [] then []
    else AboutAt(results[..|results| - 1], key) + (if results[|results| - 1].key == key then [|results| - 1] else [])
  }

  function PickedOut(results: seq<Result>, key: TargetKey): seq<Result> {
    if results == [] then []
    else PickedOut(results[..|results| - 1], key) + (if results[|results| - 1].key == key then [results[|results| - 1]] else [])
  }

  /** A target is given the results about it in their order, each once: with the outcome
      sent, the reason sent or http_error, the thresholds and the time of the heartbeat. */
  lemma {:induction false} GivenInOrder(results: seq<Result>, key: TargetKey, th: Thresholds, now: int)
    ensures Picks(results, AboutAt(results, key), PickedOut(results, key))
    ensures |Given(results, key, th, now)| == |PickedOut(results, key)|
    ensures forall k :: 0 <= k < |PickedOut(results, key)| ==> IsSent(Given(results, key, th, now)[k], PickedOut(results, key)[k], th, now)
  {
    if results != [] {
      var init, last := results[..|results| - 1], results[|results| - 1];
      GivenInOrder(init, key, th, now);
      assert results == init + [last];
      PicksMore(init, last, AboutAt(init, key), PickedOut(init, key));
    }
  }

  /** The act is this result, as it was sent. */
  predicate IsSent(act: Act, r: Result, th: Thresholds, now: int) {
    && act.Result? && act.th == th && act.at == now && act.res.ok == r.ok
    && (if r.ok then act.res.reason == NoReason
        else if r.reason.Some? && r.reason.value != NoReason then act.res.reason == r.reason.value
        else act.res.reason == HttpError)
  }

  /** The live cycle is the newest verified one past the ack, the first of equals, and its
      results are those about targets of the config; without one there are no results. */
  lemma LiveResultsAre(db: Db, op: Op)
    requires op.Beat?
    ensures var cycles, ack := op.req.cycles, AcksOf(db, op.client);
            || (LiveResults(db, op) == [] && forall c <- cycles :: c.unverified || c.seqNo <= ack)
            || exists i :: IsLive(cycles, ack, i) && LiveResults(db, op) == KeepKnown(cycles[i].results, op.keys)
  {
    var ack := AcksOf(db, op.client);
    var kept := Accepted(ack, op.req.cycles);
    if LiveCycle(CleanedAll(kept, op.now, op.keys)) == None {
      NoneIsLive(kept, op.now, op.keys);
    } else {
      var k := LiveIsKept(kept, op.now, op.keys);
      hide CleanedAll, LiveCycle;
      LiveAt(ack, op.req.cycles, kept, k);
    }
  }

  lemma NoneIsLive(kept: seq<Cycle>, now: int, keys: set<TargetKey>)
    requires LiveCycle(CleanedAll(kept, now, keys)) == None
    ensures forall c <- kept :: c.unverified
  {
    var cleaned := CleanedAll(kept, now, keys);
    forall c | c in kept ensures c.unverified {
      var k :| 0 <= k < |kept| && kept[k] == c;
      assert cleaned[k] in cleaned;
    }
  }

  /** Cleaning cycles does not change which one is live. */
  lemma LiveIsKept(kept: seq<Cycle>, now: int, keys: set<TargetKey>) returns (k: nat)
    requires LiveCycle(CleanedAll(kept, now, keys)).Some?
    ensures k < |kept| && Newest(kept, k) && LiveCycle(CleanedAll(kept, now, keys)).value.results == KeepKnown(kept[k].results, keys)
  {
    CleanedAre(kept, now, keys);
    hide CleanedAll, KeepKnown;
    var cleaned := CleanedAll(kept, now, keys);
    k := LiveIsNewest(cleaned);
    hide LiveCycle;
    forall c | c in kept && !c.unverified ensures c.seqNo <= kept[k].seqNo {
      var m :| 0 <= m < |kept| && kept[m] == c;
      assert cleaned[m] in cleaned;
    }
    forall j | 0 <= j < k ensures kept[j].unverified || kept[j].seqNo < kept[k].seqNo {
      assert cleaned[j].unverified || cleaned[j].seqNo < cleaned[k].seqNo;
    }
  }

  ghost predicate IsLive(cycles: seq<Cycle>, ack: int, i: int) {
    Newest(cycles, i) && cycles[i].seqNo > ack
  }

  lemma LiveAt(ack: int, cycles: seq<Cycle>, kept: seq<Cycle>, k: nat)
    requires kept == Accepted(ack, cycles) && Newest(kept, k)
    ensures exists i :: IsLive(cycles, ack, i) && cycles[i] == kept[k]
  {
    AcceptedInOrder(ack, cycles);
    var at := NewAt(ack, cycles);
    var i := at[k];
    assert kept[k] in kept;
    forall j | 0 <= j < i ensures cycles[j].unverified || cycles[j].seqNo < cycles[i].seqNo {
      if cycles[j].seqNo > ack {
        EarlierIsKept(cycles, at, kept, k, j);
      }
    }
    assert IsLive(cycles, ack, i);
  }

  lemma EarlierIsKept(cycles: seq<Cycle>, at: seq<nat>, kept: seq<Cycle>, k: nat, j: nat)
    requires Picks(cycles, at, kept) && k < |at| && j in at && j < at[k]
    ensures exists m :: 0 <= m < k && kept[m] == cycles[j]
  {
    var m :| 0 <= m < |at| && at[m] == j;
    assert kept[m] == cycles[j];
  }

  function ResultsOf(db: Db, id: nat): seq<Act> {
    if id < db.nextId then ResultsIn(PastOf(db, id).acts) else []
  }

  /** The live results of an operation that step the row it leaves as u. */
  function Reaching(db: Db, op: Op, u: Target): seq<Act> {
    if op.Beat? && u.client == op.client && u.state != Paused then Given(LiveResults(db, op), u.key, op.th, op.now) else []
  }

  /** An operation steps a row with exactly the live results that reach it: a heartbeat
      steps every row of its mon-client that it does not leave PAUSED with the live
      results about its target, in order and as they were sent; nothing else steps one. */
  lemma OnlyLiveResultsStep(db: Db, op: Op, u: Target)
    requires Explained(db) && Enabled(db, op) && u in Next(db, op).targets
    ensures ResultsOf(Next(db, op), u.id) == ResultsOf(db, u.id) + Reaching(db, op, u)
  {
    NextGives(db, op);
    hide Next, GivesDue, Enabled;
    SteppedByResults(db, op, Next(db, op), u);
  }

  /** And every target with a live result has a row. */
  lemma LiveResultsHaveRows(db: Db, op: Op, r: Result)
    requires Explained(db) && op.Beat? && Enabled(db, op) && r in LiveResults(db, op)
    ensures exists u <- Next(db, op).targets :: u.client == op.client && u.key == r.key
  {
    hide LiveResults, Explained;
    WantedHaveRows(db, op, r.key);
    var u :| u in Next(db, op).targets && IsRowOf(u, op.client, r.key);
  }

  lemma SteppedByResults(db: Db, op: Op, after: Db, u: Target)
    requires GivesDue(db, op, after) && u in after.targets
    ensures ResultsOf(after, u.id) == ResultsOf(db, u.id) + Reaching(db, op, u)
  {
    IdsAreSmall(after, u);
    AccountedByResults(db, op, after, u);
  }

  lemma AccountedByResults(db: Db, op: Op, after: Db, u: Target)
    requires Accounted(db, op, after, u) && u.id < after.nextId
    ensures ResultsOf(after, u.id) == ResultsOf(db, u.id) + Reaching(db, op, u)
  {
    hide Wants, Leaves, Due, Reaching, Live, ResultsIn;
    if u.id < db.nextId {
      var t :| Continues(db, op, after, t, u);
      ResultsConcat(db.pasts[t.id].acts, Due(db, op, t));
      DueReaches(db, op, t, u);
    } else {
      var born := Fresh(u.id, u.client, u.key, op.now);
      DueReaches(db, op, born, u);
      assert NO_ACTS + Reaching(db, op, u) == Reaching(db, op, u);
    }
  }

  lemma DueReaches(db: Db, op: Op, t: Target, u: Target)
    requires SameRow(t, u) && u == Live(t, Due(db, op, t)).row
    ensures ResultsIn(Due(db, op, t)) == Reaching(db, op, u)
  {
    if op.Beat? && t.client == op.client {
      BeatDueReaches(db, op, t, u);
    } else {
      MovesAreNoResults(Due(db, op, t));
    }
  }

  lemma BeatDueReaches(db: Db, op: Op, t: Target, u: Target)
    requires op.Beat? && t.client == op.client && SameRow(t, u) && u == Live(t, Due(db, op, t)).row
    ensures ResultsIn(Due(db, op, t)) == Reaching(db, op, u)
  {
    if t.client == op.client {
      var moves, live := ConfigMoves(op, t), LiveResults(db, op);
      hide LiveResults, Cause;
      MovedState(t, moves);
      var v := Live(t, moves).row;
      assert v.state == if moves == [] then t.state else moves[0].to;
      GivenAreResults(live, t.key, op.th, op.now);
      MovesAreNoResults(moves);
      if v.state == Paused {
        assert Due(db, op, t) == moves + NO_ACTS;
        assert moves + NO_ACTS == moves;
      } else {
        ResultsConcat(moves, Given(live, t.key, op.th, op.now));
        LiveConcat(t, moves, Given(live, t.key, op.th, op.now));
        LiveStaysOpen(v, live, t.key, op.th, op.now);
        assert NO_ACTS + Given(live, t.key, op.th, op.now) == Given(live, t.key, op.th, op.now);
      }
    }
  }

  lemma MovesAreNoResults(moves: seq<Act>)
    requires |moves| <= 1 && forall m <- moves :: m.Move?
    ensures ResultsIn(moves) == []
  {
    if moves != [] {
      assert moves[..0] == [] && moves[0] in moves;
    }
  }

  // ---- whole runs ----

  function Found(ts: seq<Target>, id: nat): (r: Option<Target>)
    ensures r.Some? ==> r.value in ts && r.value.id == id
    ensures r == None ==> forall t <- ts :: t.id != id
  {
    if ts == [] then None
    else
      var last := ts[|ts| - 1];
      assert ts == ts[..|ts| - 1] + [last];
      if last.id == id then Some(last) else Found(ts[..|ts| - 1], id)
  }

  /** What an operation that led from db to after owed the row with this id. */
  ghost function DueTo(db: Db, op: Op, after: Db, id: nat, before: seq<Act>): seq<Act> {
    match Found(db.targets, id)
    case Some(t) => before + Due(db, op, t)
    case None =>
      match Found(after.targets, id)
      case Some(u) => if op.Beat? then Due(db, op, Fresh(u.id, u.client, u.key, op.now)) else []
      case None => []
  }

  /** Everything a run's operations owed a row, from its creation on. */
  ghost function DueIn(ops: seq<Op>, id: nat): seq<Act> {
    if ops == [] then []
    else
      var init, last := ops[..|ops| - 1], ops[|ops| - 1];
      match Run(init)
      case None => []
      case Some(db) => if Enabled(db, last) then DueTo(db, last, Next(db, last), id, DueIn(init, id)) else []
  }

  /** In every run a row's whole history is what the operations owed it. */
  lemma {:induction false} HistoriesAreDue(ops: seq<Op>, t: Target)
    requires Run(ops).Some? && t in Run(ops).value.targets
    ensures t.id in Run(ops).value.pasts && Run(ops).value.pasts[t.id].acts == DueIn(ops, t.id)
  {
    if ops != [] {
      var init, last := ops[..|ops| - 1], ops[|ops| - 1];
      LastGives(ops);
      DueStep(ops, t.id);
      var db, after := Run(init).value, Run(ops).value;
      OnlyRowOf(after, t);
      hide Due, Run, GivesDue, DueIn, DueTo;
      if Found(db.targets, t.id).Some? {
        HistoriesAreDue(init, Found(db.targets, t.id).value);
      }
      HistoryStep(db, last, after, t, DueIn(init, t.id));
    }
  }

  lemma DueStep(ops: seq<Op>, id: nat)
    requires ops != [] && Run(ops).Some?
    ensures var init, last := ops[..|ops| - 1], ops[|ops| - 1];
            Run(init).Some? && DueIn(ops, id) == DueTo(Run(init).value, last, Run(ops).value, id, DueIn(init, id))
  {
    hide DueTo, Next, Enabled;
  }

  lemma HistoryStep(db: Db, op: Op, after: Db, t: Target, before: seq<Act>)
    requires GivesDue(db, op, after) && t in after.targets && Found(after.targets, t.id) == Some(t)
    requires var found := Found(db.targets, t.id); found.Some? ==> t.id in db.pasts && db.pasts[t.id].acts == before
    ensures t.id in after.pasts && after.pasts[t.id].acts == DueTo(db, op, after, t.id, before)
  {
    hide Due, Leaves, Wants, Live;
    var found := Found(db.targets, t.id);
    if found.Some? {
      RowIsOf(db, op, after, found.value, t);
    }
    assert Accounted(db, op, after, t);
  }

  lemma OnlyRowOf(db: Db, t: Target)
    requires Ids(db) && t in db.targets
    ensures Found(db.targets, t.id) == Some(t)
  {
    SameIdSameRow(db, t, Found(db.targets, t.id).value);
  }

  lemma LastGives(ops: seq<Op>)
    requires ops != [] && Run(ops).Some?
    ensures Run(ops[..|ops| - 1]).Some? && GivesDue(Run(ops[..|ops| - 1]).value, ops[|ops| - 1], Run(ops).value)
  {
    ReachableIsExplained(ops[..|ops| - 1]);
    NextGives(Run(ops[..|ops| - 1]).value, ops[|ops| - 1]);
    hide Next, GivesDue, Explained;
  }

  ghost function ReachedBy(db: Db, op: Op, after: Db, id: nat): seq<Act> {
    match Found(after.targets, id)
    case None => []
    case Some(u) => Reaching(db, op, u)
  }

  /** The live results of a run that reached a row. */
  ghost function ReachedIn(ops: seq<Op>, id: nat): seq<Act> {
    if ops == [] then []
    else
      var init, last := ops[..|ops| - 1], ops[|ops| - 1];
      match Run(init)
      case None => []
      case Some(db) => ReachedIn(init, id) + (if Enabled(db, last) then ReachedBy(db, last, Next(db, last), id) else [])
  }

  lemma ReachedStep(ops: seq<Op>, id: nat)
    requires ops != [] && Run(ops).Some?
    ensures var init, last := ops[..|ops| - 1], ops[|ops| - 1];
            Run(init).Some? && ReachedIn(ops, id) == ReachedIn(init, id) + ReachedBy(Run(init).value, last, Run(ops).value, id)
  {
    hide ReachedBy, Next, Enabled;
  }

  /** In every run the results that stepped a row are exactly the live results that
      reached it, in order. */
  lemma {:induction false} OnlyReachingResultsStep(ops: seq<Op>, t: Target)
    requires Run(ops).Some? && t in Run(ops).value.targets
    ensures ResultsOf(Run(ops).value, t.id) == ReachedIn(ops, t.id)
  {
    if ops != [] {
      var init, last := ops[..|ops| - 1], ops[|ops| - 1];
      LastGives(ops);
      ReachedStep(ops, t.id);
      var db, after := Run(init).value, Run(ops).value;
      OnlyRowOf(after, t);
      SteppedByResults(db, last, after, t);
      hide Reaching, Run, ResultsOf, GivesDue, ReachedIn;
      if Found(db.targets, t.id).Some? {
        OnlyReachingResultsStep(init, Found(db.targets, t.id).value);
      } else {
        NewIsUnreached(init, db, last, after, t);
      }
    }
  }

  lemma NewIsUnreached(init: seq<Op>, db: Db, op: Op, after: Db, t: Target)
    requires Run(init) == Some(db) && GivesDue(db, op, after) && t in after.targets && Found(db.targets, t.id) == None
    ensures ReachedIn(init, t.id) == [] && ResultsOf(db, t.id) == []
  {
    assert Accounted(db, op, after, t);
    hide Due, Leaves, Wants, Run;
    IdsAreNew(init, t.id);
  }

  lemma IdsGrow(db: Db, op: Op)
    requires Explained(db) && Enabled(db, op)
    ensures db.nextId <= Next(db, op).nextId
  {
    match op
    case Beat(_, _, _, _, _, _) => BeatFollows(db, op);
    case Inbounds(gone, order, live, now) =>
      VanishFollows(db, gone, now, op);
      VanishKeeps(db, gone, now);
      RefreshFollows(Vanished(db, gone, now), order, live, now, op);
    case GoSilent(silent, missed, now) => LossesFollow(db, silent, missed, now, op);
    case _ =>
  }

  lemma {:induction false} IdsAreNew(ops: seq<Op>, id: nat)
    requires Run(ops).Some? && id >= Run(ops).value.nextId
    ensures ReachedIn(ops, id) == []
  {
    if ops != [] {
      var init := ops[..|ops| - 1];
      ReachableIsExplained(ops);
      ReachableIsExplained(init);
      IdsGrow(Run(init).value, ops[|ops| - 1]);
      IdsAreNew(init, id);
      ReachedStep(ops, id);
      hide ReachedIn, Reaching;
      var found := Found(Run(ops).value.targets, id);
      if found.Some? {
        IdsAreSmall(Run(ops).value, found.value);
      }
    }
  }
}
