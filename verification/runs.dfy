/** Whole-run invariants of the engine's tables: every row is explained by its
    own past, and every past is a life of the machine. */
module Runs {
  import opened Wrappers
  import opened Store
  import opened Machine
  import opened History
  import opened Sorting
  import opened Wire
  import opened Tables
  import Config
  import Paths

  /** The transitions filed for one row, in order. */
  function TrailOf(log: seq<Entry>, id: nat): seq<Filed> {
    if log == [] then []
    else
      var e := log[|log| - 1];
      var before := TrailOf(log[..|log| - 1], id);
      if e.TargetEntry? && e.rowId == id then before + [e.filed] else before
  }

  /** A row is what its past makes of a fresh row, and the outbox holds exactly
      the transitions of that past. */
  ghost predicate RowExplained(db: Db, t: Target) {
    && t.id in db.pasts
    && var past := db.pasts[t.id];
       var birth := Fresh(t.id, t.client, t.key, past.bornAt);
       && Lived(birth, past.acts)
       && Live(birth, past.acts) == Life(t, TrailOf(db.log, t.id))
  }

  ghost predicate Ids(db: Db) {
    && (forall i :: 0 <= i < |db.targets| ==> db.targets[i].id < db.nextId)
    && Separate(db.targets)
  }

  /** No two rows share an id or a (mon-client, key). */
  ghost predicate Separate(ts: seq<Target>) {
    forall i, j :: 0 <= i < j < |ts| ==> Apart(ts[i], ts[j])
  }

  predicate Apart(t: Target, u: Target) {
    t.id != u.id && (t.client != u.client || t.key != u.key)
  }

  ghost predicate LogIds(log: seq<Entry>, nextId: nat) {
    forall e <- log :: e.TargetEntry? ==> e.rowId < nextId
  }

  /** Row ids and target keys are unique, and every row is explained. */
  ghost predicate Explained(db: Db) {
    && Ids(db)
    && LogIds(db.log, db.nextId)
    && forall t <- db.targets :: RowExplained(db, t)
  }

  // ---- the trail under appends ----

  lemma TrailAppend(log: seq<Entry>, e: Entry, id: nat)
    ensures TrailOf(log + [e], id) == if e.TargetEntry? && e.rowId == id then TrailOf(log, id) + [e.filed] else TrailOf(log, id)
  {
    assert (log + [e])[..|log|] == log;
  }

  lemma {:induction false} TrailOfOthers(log: seq<Entry>, more: seq<Entry>, id: nat)
    requires forall e <- more :: e.TargetEntry? ==> e.rowId != id
    ensures TrailOf(log + more, id) == TrailOf(log, id)
  {
    if more == [] {
      assert log + more == log;
    } else {
      var init, last := more[..|more| - 1], more[|more| - 1];
      TrailOfOthers(log, init, id);
      TrailAppend(log + init, last, id);
      assert log + more == (log + init) + [last];
    }
  }

  lemma {:induction false} TrailOfEntries(log: seq<Entry>, t: Target, evs: seq<Transition>, at: int)
    ensures TrailOf(log + Entries(t, evs, at), t.id) == TrailOf(log, t.id) + Stamped(evs, at)
  {
    if evs == [] {
      assert log + Entries(t, evs, at) == log;
    } else {
      var init, last := evs[..|evs| - 1], evs[|evs| - 1];
      TrailOfEntries(log, t, init, at);
      var e := TargetEntry(t.id, t.client, t.key, Filed(at, last));
      LastEntry(t, evs, at);
      TrailAppend(log + Entries(t, init, at), e, t.id);
      Regroup(log, Entries(t, init, at), [e]);
      Regroup(TrailOf(log, t.id), Stamped(init, at), [e.filed]);
    }
  }

  lemma LastEntry(t: Target, evs: seq<Transition>, at: int)
    requires evs != []
    ensures var init, last := evs[..|evs| - 1], Filed(at, evs[|evs| - 1]);
            && Entries(t, evs, at) == Entries(t, init, at) + [TargetEntry(t.id, t.client, t.key, last)]
            && Stamped(evs, at) == Stamped(init, at) + [last]
  {
  }

  lemma Regroup<T>(a: seq<T>, b: seq<T>, c: seq<T>)
    ensures a + (b + c) == (a + b) + c
  {
  }

  lemma {:induction false} TrailOfNobody(log: seq<Entry>, nextId: nat)
    requires LogIds(log, nextId)
    ensures TrailOf(log, nextId) == []
  {
    if log != [] {
      var init := log[..|log| - 1];
      assert forall e <- init :: e in log;
      TrailOfNobody(init, nextId);
      assert log[|log| - 1] in log;
    }
  }

  // ---- single row operations ----

  lemma ActKeepsIdentity(t: Target, act: Act)
    ensures Acted(t, act).row.id == t.id && Acted(t, act).row.client == t.client && Acted(t, act).row.key == t.key
  {
  }

  lemma OtherRowStaysExplained(db: Db, i: nat, act: Act, t: Target)
    requires i < |db.targets| && RowExplained(db, t) && t.id != db.targets[i].id
    ensures RowExplained(ActOn(db, i, act), t)
  {
    OtherTrailStays(db, i, act, t.id);
  }

  lemma OtherTrailStays(db: Db, i: nat, act: Act, id: nat)
    requires i < |db.targets| && id != db.targets[i].id
    ensures TrailOf(ActOn(db, i, act).log, id) == TrailOf(db.log, id)
  {
    TrailOfOthers(db.log, Entries(db.targets[i], Acted(db.targets[i], act).events, act.at), id);
  }

  lemma ActedRowStaysExplained(db: Db, i: nat, act: Act)
    requires i < |db.targets| && RowExplained(db, db.targets[i]) && Legal(db.targets[i], act)
    ensures RowExplained(ActOn(db, i, act), ActOn(db, i, act).targets[i])
  {
    var t := db.targets[i];
    var past := db.pasts[t.id];
    ActKeepsIdentity(t, act);
    LiveExtends(Fresh(t.id, t.client, t.key, past.bornAt), past.acts, act);
    TrailOfEntries(db.log, t, Acted(t, act).events, act.at);
  }

  lemma ActKeeps(db: Db, i: nat, act: Act)
    requires Explained(db) && i < |db.targets| && Legal(db.targets[i], act)
    ensures Explained(ActOn(db, i, act))
  {
    var after := ActOn(db, i, act);
    ActKeepsIdentity(db.targets[i], act);
    forall j | 0 <= j < |after.targets| ensures RowExplained(after, after.targets[j]) {
      if j == i {
        assert db.targets[i] in db.targets;
        ActedRowStaysExplained(db, i, act);
      } else {
        assert db.targets[j] in db.targets;
        OtherRowStaysExplained(db, i, act, db.targets[j]);
      }
    }
    forall e | e in after.log && e.TargetEntry? ensures e.rowId < after.nextId {
      if e !in db.log {
        assert e.rowId == db.targets[i].id;
      }
    }
  }

  lemma CreateKeeps(db: Db, client: ClientId, key: TargetKey, now: int)
    requires Explained(db) && IndexOf(db.targets, client, key) == |db.targets|
    ensures Explained(Create(db, client, key, now))
  {
    var after := Create(db, client, key, now);
    var t := Fresh(db.nextId, client, key, now);
    TrailOfNobody(db.log, db.nextId);
    assert RowExplained(after, t);
    forall u | u in db.targets ensures RowExplained(after, u) {
      assert u.id != db.nextId;
    }
  }

  lemma {:induction false} PurgeKeepsApart(ts: seq<Target>, p: Purge)
    requires Separate(ts)
    ensures Separate(Left(ts, p))
  {
    if ts != [] {
      var init, last := ts[..|ts| - 1], ts[|ts| - 1];
      PurgeKeepsApart(init, p);
      forall t | t in Left(init, p) ensures Apart(t, last) {
        var j :| 0 <= j < |init| && init[j] == t;
        assert ts[j] == t && Apart(ts[j], ts[|ts| - 1]);
      }
    }
  }

  lemma PurgeKeeps(db: Db, p: Purge)
    requires Explained(db)
    ensures Explained(Purged(db, p))
  {
    PurgeKeepsApart(db.targets, p);
    var r := Left(db.targets, p);
    forall i | 0 <= i < |r| ensures r[i].id < db.nextId {
      assert r[i] in r;
    }
  }

  /** Operations on the other tables, and mon-client events, change no row's story. */
  lemma OtherTablesKeep(db: Db, after: Db)
    requires Explained(db)
    requires after.targets == db.targets && after.nextId == db.nextId && after.pasts == db.pasts
    requires after.log == db.log || exists e :: after.log == db.log + [e] && e.ClientEntry?
    ensures Explained(after)
  {
    if after.log != db.log {
      var e :| after.log == db.log + [e] && e.ClientEntry?;
      forall t | t in db.targets ensures RowExplained(after, t) {
        TrailAppend(db.log, e, t.id);
      }
    }
  }

  // ---- bulk operations ----

  lemma ReasonPauses(key: TargetKey, keys: set<TargetKey>, rejected: set<TargetKey>, excl: Config.Exclusions)
    ensures var r := ConfigPause(key, keys, rejected, excl); r == NoReason || IsConfigPause(r)
  {
  }

  lemma DecisionsAreLegal(s: Sweep, t: Target, now: int)
    requires s.Silence? ==> s.reason != ConfigEnabled
    ensures Decision(s, t, now).Some? ==> Legal(t, Decision(s, t, now).value) && Decision(s, t, now).value.at == now
  {
    if s.Reconcile? {
      ReasonPauses(t.key, s.keys, s.rejected, s.excl);
    }
  }

  ghost predicate DecidesLegally(decide: Target -> Option<Act>) {
    forall t :: decide(t).Some? ==> Legal(t, decide(t).value)
  }

  lemma {:induction false} MovesKeep(db: Db, decide: Target -> Option<Act>, n: nat)
    requires Explained(db) && n <= |db.targets| && DecidesLegally(decide)
    ensures Explained(SweptTo(db, decide, n))
  {
    if n > 0 {
      MovesKeep(db, decide, n - 1);
      var before := SweptTo(db, decide, n - 1);
      var decision := decide(before.targets[n - 1]);
      if decision.Some? {
        ActKeeps(before, n - 1, decision.value);
      }
    }
  }

  lemma SweepKeeps(db: Db, s: Sweep, now: int)
    requires Explained(db)
    requires s.Silence? ==> s.reason != ConfigEnabled
    ensures Explained(Swept(db, s, now))
  {
    var decide := DecisionOf(s, now);
    forall t: Target ensures decide(t).Some? ==> Legal(t, decide(t).value) {
      DecisionsAreLegal(s, t, now);
    }
    MovesKeep(db, decide, |db.targets|);
  }

  lemma EnsureRowKeeps(db: Db, client: ClientId, key: TargetKey, now: int)
    requires Explained(db)
    ensures Explained(EnsureRow(db, client, key, now))
  {
    if IndexOf(db.targets, client, key) == |db.targets| {
      CreateKeeps(db, client, key, now);
    }
  }

  lemma {:induction false} EnsureRowsKeep(db: Db, client: ClientId, keys: seq<TargetKey>, now: int)
    requires Explained(db)
    ensures Explained(EnsureRows(db, client, keys, now))
  {
    if keys != [] {
      EnsureRowsKeep(db, client, keys[..|keys| - 1], now);
      EnsureRowKeeps(EnsureRows(db, client, keys[..|keys| - 1], now), client, keys[|keys| - 1], now);
    }
  }

  lemma ResultKeeps(db: Db, client: ClientId, res: Result, th: Thresholds, now: int)
    requires Explained(db)
    ensures Explained(ResultApplied(db, client, res, th, now))
  {
    EnsureRowKeeps(db, client, res.key, now);
    var found := EnsureRow(db, client, res.key, now);
    var i := IndexOf(found.targets, client, res.key);
    if i < |found.targets| && found.targets[i].state != Paused {
      ActKeeps(found, i, Act.Result(th, OutcomeOf(res.ok, res.reason), now));
    }
  }

  lemma {:induction false} ResultsKeep(db: Db, client: ClientId, results: seq<Result>, th: Thresholds, now: int)
    requires Explained(db)
    ensures Explained(ResultsApplied(db, client, results, th, now))
  {
    if results != [] {
      var init := results[..|results| - 1];
      ResultsKeep(db, client, init, th, now);
      ResultKeeps(ResultsApplied(db, client, init, th, now), client, results[|results| - 1], th, now);
    }
  }

  lemma ReconcileKeeps(db: Db, client: ClientId, keys: set<TargetKey>, rejected: set<TargetKey>, excl: Config.Exclusions, now: int)
    requires Explained(db)
    ensures Explained(Reconciled(db, client, keys, rejected, excl, now))
  {
    var purged := Purged(db, OutOfConfig(client, keys, excl));
    PurgeKeeps(db, OutOfConfig(client, keys, excl));
    EnsureRowsKeep(purged, client, Missing(keys, rejected, excl), now);
    var ensured := EnsureRows(purged, client, Missing(keys, rejected, excl), now);
    SweepKeeps(ensured, Reconcile(client, keys, rejected, excl), now);
  }

  lemma GreetKeeps(db: Db, client: ClientId, ack: int, now: int)
    requires Explained(db) && client in db.clients
    ensures Explained(Greeted(db, client, ack, now))
  {
    var e := ClientEntry(client, now, WireFrom(db.clients[client].state), Online, NoReason);
    var after := Greeted(db, client, ack, now);
    assert after.log == db.log || after.log == db.log + [e];
    OtherTablesKeep(db, after);
  }

  lemma BeatKeeps(db: Db, client: ClientId, req: Request, keys: set<TargetKey>, excl: Config.Exclusions, th: Thresholds, now: int)
    requires Explained(db) && client in db.clients
    ensures Explained(Beaten(db, client, req, keys, excl, th, now))
  {
    var lastAck := db.clients[client].lastAckSeq;
    var cycles := CleanedAll(Accepted(lastAck, req.cycles), now, keys);
    var rejected := Paths.RejectedOf(keys, req.rejected);
    var greeted := Greeted(db, client, AckOf(lastAck, req.cycles), now);
    GreetKeeps(db, client, AckOf(lastAck, req.cycles), now);
    var retired := Purged(greeted, Retired(client, keys, db.known));
    PurgeKeeps(greeted, Retired(client, keys, db.known));
    var reconciled := Reconciled(retired, client, keys, rejected, excl, now);
    ReconcileKeeps(retired, client, keys, rejected, excl, now);
    match LiveCycle(cycles) {
      case None =>
      case Some(live) => ResultsKeep(reconciled, client, live.results, th, now);
    }
    OtherTablesKeep(LiveApplied(reconciled, client, cycles, th, now), Beaten(db, client, req, keys, excl, th, now));
  }

  lemma {:induction false} VanishKeeps(db: Db, gone: seq<InboundKey>, now: int)
    requires Explained(db)
    ensures Explained(Vanished(db, gone, now))
  {
    if gone != [] {
      var before, k := Vanished(db, gone[..|gone| - 1], now), gone[|gone| - 1];
      VanishKeeps(db, gone[..|gone| - 1], now);
      SweepKeeps(before, PauseInbound(k), now);
      OtherTablesKeep(Swept(before, PauseInbound(k), now), Vanished(db, gone, now));
    }
  }

  lemma {:induction false} RefreshKeeps(db: Db, order: seq<InboundKey>, live: map<InboundKey, bool>, now: int)
    requires Explained(db)
    ensures Explained(Refreshed(db, order, live, now))
  {
    if order != [] {
      var before, k := Refreshed(db, order[..|order| - 1], live, now), order[|order| - 1];
      RefreshKeeps(db, order[..|order| - 1], live, now);
      SweepKeeps(before, if k in live && live[k] then ResumeInbound(k) else PauseInbound(k), now);
    }
  }

  lemma LossKeeps(db: Db, client: ClientId, missed: nat, now: int)
    requires Explained(db) && client in db.clients
    ensures Explained(Lost(db, client, missed, now))
  {
    var offline := db.(clients := db.clients[client := db.clients[client].(state := Offline, missed := missed)],
                       log := db.log + [ClientEntry(client, now, Some(Online), Offline, HeartbeatMissed)]);
    OtherTablesKeep(db, offline);
    SweepKeeps(offline, Silence(client, MonClientOffline), now);
  }

  lemma {:induction false} LossesKeep(db: Db, silent: seq<ClientId>, missed: nat, now: int)
    requires Explained(db) && forall c <- silent :: c in db.clients
    ensures Explained(LostAll(db, silent, missed, now))
  {
    if silent != [] {
      LossesKeep(db, silent[..|silent| - 1], missed, now);
      LossKeeps(LostAll(db, silent[..|silent| - 1], missed, now), silent[|silent| - 1], missed, now);
    }
  }

  lemma CutKeeps(db: Db, client: ClientId, now: int)
    requires Explained(db) && client in db.clients
    ensures Explained(Cut(db, client, now))
  {
    var mc := db.clients[client];
    var e := ClientEntry(client, now, WireFrom(mc.state), Offline, TokenRevoked);
    var told := if mc.state == Offline then db else db.(log := db.log + [e]);
    OtherTablesKeep(db, told);
    SweepKeeps(told, Silence(client, MonClientRevoked), now);
    OtherTablesKeep(Swept(told, Silence(client, MonClientRevoked), now), Cut(db, client, now));
  }

  lemma NextKeeps(db: Db, op: Op)
    requires Explained(db) && Enabled(db, op)
    ensures Explained(Next(db, op))
  {
    match op
    case Beat(client, req, keys, excl, th, now) => BeatKeeps(db, client, req, keys, excl, th, now);
    case Inbounds(gone, order, live, now) =>
      VanishKeeps(db, gone, now);
      RefreshKeeps(Vanished(db, gone, now), order, live, now);
    case SeeInbounds(_) => OtherTablesKeep(db, Next(db, op));
    case ServePaths(served) => PurgeKeeps(db, Unserved(served));
    case GoSilent(silent, missed, now) => LossesKeep(db, silent, missed, now);
    case Disable(client, now) => SweepKeeps(db, Silence(client, MonClientDisabled), now);
    case Revoke(client, now) => CutKeeps(db, client, now);
    case Delete(client) =>
      PurgeKeeps(db, Everything(client));
      OtherTablesKeep(Purged(db, Everything(client)), Next(db, op));
    case Approve(_) => OtherTablesKeep(db, Next(db, op));
  }

  /** Every reachable table state is explained. */
  lemma {:induction false} ReachableIsExplained(ops: seq<Op>)
    requires Run(ops).Some?
    ensures Explained(Run(ops).value)
  {
    if ops != [] {
      ReachableIsExplained(ops[..|ops| - 1]);
      NextKeeps(Run(ops[..|ops| - 1]).value, ops[|ops| - 1]);
    }
  }

  /** Log and table agree in every reachable state: a row's announced events
      chain from UNKNOWN to its state and give its since and its reason, its counters
      are the trailing runs of its applied results, and its hold and pause reason fit
      its state. */
  lemma LogAndTableAgree(ops: seq<Op>)
    ensures Run(ops).Some? ==> forall t <- Run(ops).value.targets :: Agrees(Run(ops).value, t)
  {
    if Run(ops).Some? {
      ReachableIsExplained(ops);
      forall t | t in Run(ops).value.targets ensures Agrees(Run(ops).value, t) {
        ExplainedAgrees(Run(ops).value, t);
      }
    }
  }

  ghost predicate Agrees(db: Db, t: Target) {
    && Announced(TrailOf(db.log, t.id)) == Some(t.state)
    && t.id in db.pasts
    && Says(t, AccountOf(TrailOf(db.log, t.id), db.pasts[t.id].bornAt))
    && t.lastResultAt == LastResultAt(db.pasts[t.id].acts)
    && t.oks == Streak(db.pasts[t.id].acts, true)
    && t.fails == Streak(db.pasts[t.id].acts, false)
    && Shaped(t)
  }

  lemma ExplainedAgrees(db: Db, t: Target)
    requires Explained(db) && t in db.targets
    ensures Agrees(db, t)
  {
    assert RowExplained(db, t);
    var past := db.pasts[t.id];
    var birth := Fresh(t.id, t.client, t.key, past.bornAt);
    LogTellsState(birth, past.acts);
    LogTellsSinceAndWhy(birth, past.acts);
    LastResultIsDated(birth, past.acts);
    CountersAreStreaks(birth, past.acts);
    LifeIsShaped(birth, past.acts);
  }
}
