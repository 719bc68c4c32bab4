/** What the engine's tables tell about the mon-clients themselves: their own events,
    their acks and the batches recorded for them, over whole runs. */
module MonClients {
  import opened Wrappers
  import opened Store
  import opened Machine
  import opened History
  import opened Flatten
  import opened Wire
  import opened Tables
  import Config
  import Paths
  import Protocol
  import opened Runs

  // ---- what belongs to one mon-client ----

  function Mine(log: seq<Entry>, client: ClientId): seq<Entry> {
    if log == [] then []
    else
      var e := log[|log| - 1];
      Mine(log[..|log| - 1], client) + (if e.ClientEntry? && e.who == client then [e] else [])
  }

  function BatchesOf(recorded: seq<Batch>, client: ClientId): seq<Batch> {
    if recorded == [] then []
    else
      var b := recorded[|recorded| - 1];
      BatchesOf(recorded[..|recorded| - 1], client) + (if b.client == client then [b] else [])
  }

  function RowsOf(ts: seq<Target>, client: ClientId): seq<Target> {
    if ts == [] then []
    else
      var t := ts[|ts| - 1];
      RowsOf(ts[..|ts| - 1], client) + (if t.client == client then [t] else [])
  }

  /** The event of its own that an operation files about a mon-client, if any. */
  function Said(db: Db, op: Op, client: ClientId): seq<Entry>
    requires client in db.clients
  {
    var state := db.clients[client].state;
    match op
    case Beat(c, _, _, _, _, now) =>
      if c == client && state != Online then [ClientEntry(client, now, WireFrom(state), Online, NoReason)] else []
    case GoSilent(silent, _, now) =>
      if client in silent then [ClientEntry(client, now, Some(Online), Offline, HeartbeatMissed)] else []
    case Revoke(c, now) =>
      if c == client && state != Offline then [ClientEntry(client, now, WireFrom(state), Offline, TokenRevoked)] else []
    case _ => []
  }

  /** The state an operation leaves a mon-client in. */
  function StateAfter(db: Db, op: Op, client: ClientId): ClientState
    requires client in db.clients
  {
    match op
    case Beat(c, _, _, _, _, _) => if c == client then Online else db.clients[client].state
    case GoSilent(silent, _, _) => if client in silent then Offline else db.clients[client].state
    case Revoke(c, _) => if c == client then Offline else db.clients[client].state
    case Approve(c) => if c == client then Never else db.clients[client].state
    case _ => db.clients[client].state
  }

  function AckAfter(db: Db, op: Op, client: ClientId): int
    requires client in db.clients
  {
    match op
    case Beat(c, req, _, _, _, _) =>
      if c == client then AckOf(db.clients[client].lastAckSeq, req.cycles) else db.clients[client].lastAckSeq
    case Approve(c) => if c == client then 0 else db.clients[client].lastAckSeq
    case _ => db.clients[client].lastAckSeq
  }

  /** When the mon-client was last heard, after an operation. */
  function HeardAfter(db: Db, op: Op, client: ClientId): Option<int>
    requires client in db.clients
  {
    match op
    case Beat(c, _, _, _, _, now) => if c == client then Some(now) else db.clients[client].lastHeartbeat
    case Approve(c) => if c == client then None else db.clients[client].lastHeartbeat
    case _ => db.clients[client].lastHeartbeat
  }

  /** And how many heartbeats it has missed. */
  function MissedAfter(db: Db, op: Op, client: ClientId): nat
    requires client in db.clients
  {
    match op
    case Beat(c, _, _, _, _, _) => if c == client then 0 else db.clients[client].missed
    case GoSilent(silent, missed, _) => if client in silent then missed else db.clients[client].missed
    case Approve(c) => if c == client then 0 else db.clients[client].missed
    case _ => db.clients[client].missed
  }

  /** The batch an operation hands to the statistics for a mon-client, if any. */
  function Handed(db: Db, op: Op, client: ClientId): seq<Batch>
    requires client in db.clients
  {
    match op
    case Beat(c, req, keys, _, _, now) =>
      var cycles := CleanedAll(Accepted(db.clients[client].lastAckSeq, req.cycles), now, keys);
      if c == client && cycles != [] then [Batch(client, cycles)] else []
    case _ => []
  }

  // ---- appending ----

  lemma MineAppend(log: seq<Entry>, e: Entry, client: ClientId)
    ensures Mine(log + [e], client) == Mine(log, client) + (if e.ClientEntry? && e.who == client then [e] else [])
  {
    assert (log + [e])[..|log|] == log;
  }

  lemma {:induction false} MineOfTargets(log: seq<Entry>, more: seq<Entry>, client: ClientId)
    requires forall e <- more :: e.TargetEntry?
    ensures Mine(log + more, client) == Mine(log, client)
  {
    if more == [] {
      assert log + more == log;
    } else {
      var init, last := more[..|more| - 1], more[|more| - 1];
      assert last in more && forall e <- init :: e in more;
      MineOfTargets(log, init, client);
      MineAppend(log + init, last, client);
      assert log + more == (log + init) + [last];
    }
  }

  lemma BatchesAppend(recorded: seq<Batch>, b: Batch, client: ClientId)
    ensures BatchesOf(recorded + [b], client) == BatchesOf(recorded, client) + (if b.client == client then [b] else [])
  {
    assert (recorded + [b])[..|recorded|] == recorded;
  }

  lemma RowsAppend(ts: seq<Target>, t: Target, client: ClientId)
    ensures RowsOf(ts + [t], client) == RowsOf(ts, client) + (if t.client == client then [t] else [])
  {
    assert (ts + [t])[..|ts|] == ts;
  }

  lemma {:induction false} RowsUpdate(ts: seq<Target>, i: nat, t: Target, client: ClientId)
    requires i < |ts| && ts[i].client != client && t.client != client
    ensures RowsOf(ts[i := t], client) == RowsOf(ts, client)
  {
    var init := ts[..|ts| - 1];
    if i == |init| {
      assert ts[i := t][..|init|] == init;
    } else {
      RowsUpdate(init, i, t, client);
      assert ts[i := t][..|init|] == init[i := t];
    }
  }

  lemma {:induction false} RowsLeft(ts: seq<Target>, p: Purge, client: ClientId)
    requires forall t <- ts :: t.client == client ==> !Goes(p, t)
    ensures RowsOf(Left(ts, p), client) == RowsOf(ts, client)
  {
    if ts != [] {
      var init, last := ts[..|ts| - 1], ts[|ts| - 1];
      assert last in ts && forall t <- init :: t in ts;
      RowsLeft(init, p, client);
      if !Goes(p, last) {
        RowsAppend(Left(init, p), last, client);
      } else {
        assert Left(ts, p) == Left(init, p);
      }
    }
  }

  // ---- what the tables keep for a mon-client ----

  /** Everything an operation can leave alone for a mon-client, its target rows apart. */
  ghost predicate Silent(db: Db, after: Db, client: ClientId) {
    && after.clients == db.clients
    && after.recorded == db.recorded
    && Mine(after.log, client) == Mine(db.log, client)
  }

  lemma ActIsSilent(db: Db, i: nat, act: Act, client: ClientId)
    requires i < |db.targets|
    ensures Silent(db, ActOn(db, i, act), client)
    ensures db.targets[i].client != client ==> RowsOf(ActOn(db, i, act).targets, client) == RowsOf(db.targets, client)
  {
    var t := db.targets[i];
    ActKeepsIdentity(t, act);
    hide Acted;
    MineOfTargets(db.log, Entries(t, Acted(t, act).events, act.at), client);
    if t.client != client {
      RowsUpdate(db.targets, i, Acted(t, act).row, client);
    }
  }

  ghost predicate Spares(decide: Target -> Option<Act>, client: ClientId) {
    forall t :: decide(t).Some? ==> t.client != client
  }

  function MoveOne(db: Db, decide: Target -> Option<Act>, i: nat): Db
    requires i < |db.targets|
  {
    match decide(db.targets[i])
    case None => db
    case Some(act) => ActOn(db, i, act)
  }

  lemma MovesStep(db: Db, decide: Target -> Option<Act>, n: nat)
    requires 0 < n <= |db.targets|
    ensures SweptTo(db, decide, n) == MoveOne(SweptTo(db, decide, n - 1), decide, n - 1)
  {
    hide ActOn;
  }

  lemma MovesStart(db: Db, decide: Target -> Option<Act>, client: ClientId)
    ensures SweptTo(db, decide, 0) == db && Silent(db, db, client)
  {
  }

  lemma MoveIsSilent(db: Db, decide: Target -> Option<Act>, i: nat, client: ClientId)
    requires i < |db.targets|
    ensures Silent(db, MoveOne(db, decide, i), client)
    ensures Spares(decide, client) ==> RowsOf(MoveOne(db, decide, i).targets, client) == RowsOf(db.targets, client)
  {
    hide ActOn;
    var decision := decide(db.targets[i]);
    if decision.Some? {
      ActIsSilent(db, i, decision.value, client);
    }
  }

  lemma SilenceAdds(a: Db, b: Db, c: Db, client: ClientId)
    requires Silent(a, b, client) && Silent(b, c, client)
    ensures Silent(a, c, client)
  {
  }

  lemma {:induction false} MovesAreSilent(db: Db, decide: Target -> Option<Act>, n: nat, client: ClientId)
    requires n <= |db.targets|
    ensures Silent(db, SweptTo(db, decide, n), client)
    ensures Spares(decide, client) ==> RowsOf(SweptTo(db, decide, n).targets, client) == RowsOf(db.targets, client)
  {
    hide *;
    MovesStart(db, decide, client);
    if n > 0 {
      MovesStep(db, decide, n);
      var before := SweptTo(db, decide, n - 1);
      var after := MoveOne(before, decide, n - 1);
      MovesAreSilent(db, decide, n - 1, client);
      MoveIsSilent(before, decide, n - 1, client);
      SilenceAdds(db, before, after, client);
      assert after == SweptTo(db, decide, n);
    }
  }

  /** The bulk moves of one mon-client's rows. */
  predicate Moves(s: Sweep, client: ClientId) {
    match s
    case PauseInbound(_) => true
    case ResumeInbound(_) => true
    case Silence(c, _) => c == client
    case Reconcile(c, _, _, _) => c == client
  }

  lemma SweepIsSilent(db: Db, s: Sweep, now: int, client: ClientId)
    ensures Silent(db, Swept(db, s, now), client)
    ensures !Moves(s, client) ==> RowsOf(Swept(db, s, now).targets, client) == RowsOf(db.targets, client)
  {
    MovesAreSilent(db, DecisionOf(s, now), |db.targets|, client);
    if !Moves(s, client) {
      assert Spares(DecisionOf(s, now), client);
    }
  }

  lemma EnsureIsSilent(db: Db, c: ClientId, key: TargetKey, now: int, client: ClientId)
    ensures Silent(db, EnsureRow(db, c, key, now), client)
    ensures c != client ==> RowsOf(EnsureRow(db, c, key, now).targets, client) == RowsOf(db.targets, client)
  {
    RowsAppend(db.targets, Fresh(db.nextId, c, key, now), client);
  }

  lemma {:induction false} EnsuresAreSilent(db: Db, c: ClientId, keys: seq<TargetKey>, now: int, client: ClientId)
    ensures Silent(db, EnsureRows(db, c, keys, now), client)
    ensures c != client ==> RowsOf(EnsureRows(db, c, keys, now).targets, client) == RowsOf(db.targets, client)
  {
    if keys != [] {
      EnsuresAreSilent(db, c, keys[..|keys| - 1], now, client);
      EnsureIsSilent(EnsureRows(db, c, keys[..|keys| - 1], now), c, keys[|keys| - 1], now, client);
    }
  }

  lemma ResultIsSilent(db: Db, c: ClientId, res: Result, th: Thresholds, now: int, client: ClientId)
    ensures Silent(db, ResultApplied(db, c, res, th, now), client)
    ensures c != client ==> RowsOf(ResultApplied(db, c, res, th, now).targets, client) == RowsOf(db.targets, client)
  {
    EnsureIsSilent(db, c, res.key, now, client);
    var found := EnsureRow(db, c, res.key, now);
    var i := IndexOf(found.targets, c, res.key);
    if i < |found.targets| && found.targets[i].state != Paused {
      ActIsSilent(found, i, Act.Result(th, OutcomeOf(res.ok, res.reason), now), client);
    }
  }

  lemma {:induction false} ResultsAreSilent(db: Db, c: ClientId, results: seq<Result>, th: Thresholds, now: int, client: ClientId)
    ensures Silent(db, ResultsApplied(db, c, results, th, now), client)
    ensures c != client ==> RowsOf(ResultsApplied(db, c, results, th, now).targets, client) == RowsOf(db.targets, client)
  {
    if results != [] {
      var init := results[..|results| - 1];
      ResultsAreSilent(db, c, init, th, now, client);
      ResultIsSilent(ResultsApplied(db, c, init, th, now), c, results[|results| - 1], th, now, client);
    }
  }

  lemma PurgeIsSilent(db: Db, p: Purge, client: ClientId)
    ensures Silent(db, Purged(db, p), client)
    ensures (forall t <- db.targets :: t.client == client ==> !Goes(p, t)) ==> RowsOf(Purged(db, p).targets, client) == RowsOf(db.targets, client)
  {
    if forall t <- db.targets :: t.client == client ==> !Goes(p, t) {
      RowsLeft(db.targets, p, client);
    }
  }

  /** A heartbeat past its greeting. */
  ghost function Worked(greeted: Db, c: ClientId, cycles: seq<Cycle>, keys: set<TargetKey>, rejected: set<TargetKey>,
                        excl: Config.Exclusions, th: Thresholds, now: int): Db {
    LiveApplied(Reconciled(Purged(greeted, Retired(c, keys, greeted.known)), c, keys, rejected, excl, now), c, cycles, th, now)
  }

  lemma WorkIsSilent(greeted: Db, c: ClientId, cycles: seq<Cycle>, keys: set<TargetKey>, rejected: set<TargetKey>,
                     excl: Config.Exclusions, th: Thresholds, now: int, client: ClientId)
    ensures var after := Worked(greeted, c, cycles, keys, rejected, excl, th, now);
            && Silent(greeted, after, client)
            && (c != client ==> RowsOf(after.targets, client) == RowsOf(greeted.targets, client))
  {
    var retired := Purged(greeted, Retired(c, keys, greeted.known));
    PurgeIsSilent(greeted, Retired(c, keys, greeted.known), client);
    var purged := Purged(retired, OutOfConfig(c, keys, excl));
    PurgeIsSilent(retired, OutOfConfig(c, keys, excl), client);
    var ensured := EnsureRows(purged, c, Missing(keys, rejected, excl), now);
    EnsuresAreSilent(purged, c, Missing(keys, rejected, excl), now, client);
    var reconciled := Swept(ensured, Reconcile(c, keys, rejected, excl), now);
    SweepIsSilent(ensured, Reconcile(c, keys, rejected, excl), now, client);
    match LiveCycle(cycles) {
      case None =>
      case Some(live) => ResultsAreSilent(reconciled, c, live.results, th, now, client);
    }
  }

  /** What one operation does to a mon-client known before and after it. */
  ghost predicate Tells(db: Db, op: Op, after: Db, client: ClientId)
    requires client in db.clients
  {
    && client in after.clients
    && after.clients[client].state == StateAfter(db, op, client)
    && after.clients[client].lastAckSeq == AckAfter(db, op, client)
    && after.clients[client].lastHeartbeat == HeardAfter(db, op, client)
    && after.clients[client].missed == MissedAfter(db, op, client)
    && Mine(after.log, client) == Mine(db.log, client) + Said(db, op, client)
    && BatchesOf(after.recorded, client) == BatchesOf(db.recorded, client) + Handed(db, op, client)
  }

  lemma BeatenIsWorked(db: Db, op: Op)
    requires op.Beat? && op.client in db.clients
    ensures var lastAck := db.clients[op.client].lastAckSeq;
            var cycles := CleanedAll(Accepted(lastAck, op.req.cycles), op.now, op.keys);
            var greeted := Greeted(db, op.client, AckOf(lastAck, op.req.cycles), op.now);
            var worked := Worked(greeted, op.client, cycles, op.keys, Paths.RejectedOf(op.keys, op.req.rejected), op.excl, op.th, op.now);
            Next(db, op) == if cycles == [] then worked else worked.(recorded := worked.recorded + [Batch(op.client, cycles)])
  {
  }

  /** A greeting, and any work after it that is silent, tells what a heartbeat tells. */
  lemma GreetingTells(db: Db, op: Op, cycles: seq<Cycle>, worked: Db, client: ClientId)
    requires op.Beat? && op.client in db.clients && client in db.clients
    requires cycles == CleanedAll(Accepted(db.clients[op.client].lastAckSeq, op.req.cycles), op.now, op.keys)
    requires Silent(Greeted(db, op.client, AckOf(db.clients[op.client].lastAckSeq, op.req.cycles), op.now), worked, client)
    ensures Tells(db, op, if cycles == [] then worked else worked.(recorded := worked.recorded + [Batch(op.client, cycles)]), client)
  {
    hide Mine, BatchesOf, CleanedAll, Accepted, AckOf;
    MineAppend(db.log, ClientEntry(op.client, op.now, WireFrom(db.clients[op.client].state), Online, NoReason), client);
    BatchesAppend(db.recorded, Batch(op.client, cycles), client);
  }

  lemma BeatTells(db: Db, op: Op, client: ClientId)
    requires op.Beat? && Enabled(db, op) && client in db.clients
    ensures Tells(db, op, Next(db, op), client)
    ensures op.client != client ==> RowsOf(Next(db, op).targets, client) == RowsOf(db.targets, client)
  {
    BeatenIsWorked(db, op);
    hide Mine, RowsOf, BatchesOf, Worked, Next, Tells;
    var lastAck := db.clients[op.client].lastAckSeq;
    var cycles := CleanedAll(Accepted(lastAck, op.req.cycles), op.now, op.keys);
    var greeted := Greeted(db, op.client, AckOf(lastAck, op.req.cycles), op.now);
    var rejected := Paths.RejectedOf(op.keys, op.req.rejected);
    WorkIsSilent(greeted, op.client, cycles, op.keys, rejected, op.excl, op.th, op.now, client);
    GreetingTells(db, op, cycles, Worked(greeted, op.client, cycles, op.keys, rejected, op.excl, op.th, op.now), client);
  }

  lemma {:induction false} VanishIsSilent(db: Db, gone: seq<InboundKey>, now: int, client: ClientId)
    ensures Silent(db, Vanished(db, gone, now), client)
  {
    if gone != [] {
      var before, k := Vanished(db, gone[..|gone| - 1], now), gone[|gone| - 1];
      VanishIsSilent(db, gone[..|gone| - 1], now, client);
      SweepIsSilent(before, PauseInbound(k), now, client);
    }
  }

  lemma {:induction false} RefreshIsSilent(db: Db, order: seq<InboundKey>, live: map<InboundKey, bool>, now: int, client: ClientId)
    ensures Silent(db, Refreshed(db, order, live, now), client)
  {
    if order != [] {
      var before, k := Refreshed(db, order[..|order| - 1], live, now), order[|order| - 1];
      RefreshIsSilent(db, order[..|order| - 1], live, now, client);
      SweepIsSilent(before, if k in live && live[k] then ResumeInbound(k) else PauseInbound(k), now, client);
    }
  }

  lemma LossTells(db: Db, c: ClientId, missed: nat, now: int, client: ClientId)
    requires c in db.clients && client in db.clients
    ensures var after := Lost(db, c, missed, now);
            && after.clients == db.clients[c := db.clients[c].(state := Offline, missed := missed)]
            && after.recorded == db.recorded
            && Mine(after.log, client) == Mine(db.log, client) + (if c == client then [ClientEntry(c, now, Some(Online), Offline, HeartbeatMissed)] else [])
            && (c != client ==> RowsOf(after.targets, client) == RowsOf(db.targets, client))
  {
    var e := ClientEntry(c, now, Some(Online), Offline, HeartbeatMissed);
    var offline := db.(clients := db.clients[c := db.clients[c].(state := Offline, missed := missed)], log := db.log + [e]);
    MineAppend(db.log, e, client);
    SweepIsSilent(offline, Silence(c, MonClientOffline), now, client);
  }

  lemma {:induction false} LossesTell(db: Db, silent: seq<ClientId>, missed: nat, now: int, client: ClientId)
    requires (forall c <- silent :: c in db.clients) && client in db.clients && Distinct(silent)
    ensures var after := LostAll(db, silent, missed, now);
            && after.clients[client].lastAckSeq == db.clients[client].lastAckSeq
            && after.clients[client].lastHeartbeat == db.clients[client].lastHeartbeat
            && after.clients[client].missed == (if client in silent then missed else db.clients[client].missed)
            && after.clients[client].state == (if client in silent then Offline else db.clients[client].state)
            && after.recorded == db.recorded
            && Mine(after.log, client) == Mine(db.log, client) + (if client in silent then [ClientEntry(client, now, Some(Online), Offline, HeartbeatMissed)] else [])
            && (client !in silent ==> RowsOf(after.targets, client) == RowsOf(db.targets, client))
  {
    if silent != [] {
      var init, last := silent[..|silent| - 1], silent[|silent| - 1];
      DistinctPrefix(silent);
      assert silent == init + [last];
      LossesTell(db, init, missed, now, client);
      LossTells(LostAll(db, init, missed, now), last, missed, now, client);
    }
  }

  lemma CutTells(db: Db, op: Op, client: ClientId)
    requires op.Revoke? && Enabled(db, op) && client in db.clients
    ensures Tells(db, op, Next(db, op), client)
    ensures op.client != client ==> RowsOf(Next(db, op).targets, client) == RowsOf(db.targets, client)
  {
    var c, mc := op.client, db.clients[op.client];
    var e := ClientEntry(c, op.now, WireFrom(mc.state), Offline, TokenRevoked);
    var told := if mc.state == Offline then db else db.(log := db.log + [e]);
    MineAppend(db.log, e, client);
    SweepIsSilent(told, Silence(c, MonClientRevoked), op.now, client);
  }

  lemma DeleteTells(db: Db, op: Op, client: ClientId)
    requires op.Delete? && Enabled(db, op) && client in db.clients && op.client != client
    ensures Tells(db, op, Next(db, op), client)
    ensures RowsOf(Next(db, op).targets, client) == RowsOf(db.targets, client)
  {
    PurgeIsSilent(db, Everything(op.client), client);
  }

  /** A deleted mon-client is gone, and nobody else is. */
  lemma DeletionForgets(db: Db, op: Op)
    requires op.Delete? && Enabled(db, op)
    ensures Next(db, op).clients == map c | c in db.clients && c != op.client :: db.clients[c]
    ensures Next(db, op).log == db.log && Next(db, op).recorded == db.recorded
  {
  }

  /** One operation files at most one event of a mon-client, moves its ack only by its
      own heartbeat or approval, and records what its own heartbeat brought. */
  lemma NextTells(db: Db, op: Op, client: ClientId)
    requires Enabled(db, op) && client in db.clients && op != Delete(client)
    ensures Tells(db, op, Next(db, op), client)
  {
    match op
    case Beat(_, _, _, _, _, _) => BeatTells(db, op, client);
    case Inbounds(gone, order, live, now) =>
      VanishIsSilent(db, gone, now, client);
      RefreshIsSilent(Vanished(db, gone, now), order, live, now, client);
    case SeeInbounds(_) =>
    case ServePaths(served) => PurgeIsSilent(db, Unserved(served), client);
    case GoSilent(silent, missed, now) => LossesTell(db, silent, missed, now, client);
    case Disable(c, now) => SweepIsSilent(db, Silence(c, MonClientDisabled), now, client);
    case Revoke(_, _) => CutTells(db, op, client);
    case Delete(_) => DeleteTells(db, op, client);
    case Approve(_) =>
  }

  /** Whether an operation is about a mon-client; those on inbounds and paths are about
      every one. */
  predicate About(op: Op, client: ClientId) {
    match op
    case Beat(c, _, _, _, _, _) => c == client
    case Inbounds(_, _, _, _) => true
    case SeeInbounds(_) => false
    case ServePaths(_) => true
    case GoSilent(silent, _, _) => client in silent
    case Disable(c, _) => c == client
    case Revoke(c, _) => c == client
    case Delete(c) => c == client
    case Approve(c) => c == client
  }

  /** An operation leaves the mon-clients it is not about as they were: their target
      rows in order, their events, their state and ack, and their batches. */
  lemma OthersAreLeftAlone(db: Db, op: Op, client: ClientId)
    requires Enabled(db, op) && client in db.clients && !About(op, client)
    ensures var after := Next(db, op);
            && RowsOf(after.targets, client) == RowsOf(db.targets, client)
            && Mine(after.log, client) == Mine(db.log, client)
            && BatchesOf(after.recorded, client) == BatchesOf(db.recorded, client)
            && client in after.clients
            && after.clients[client] == db.clients[client]
  {
    NextTells(db, op, client);
    match op
    case Beat(_, _, _, _, _, _) => BeatTells(db, op, client);
    case SeeInbounds(_) =>
    case GoSilent(silent, missed, now) => LossesTell(db, silent, missed, now, client);
    case Disable(c, now) => SweepIsSilent(db, Silence(c, MonClientDisabled), now, client);
    case Revoke(_, _) => CutTells(db, op, client);
    case Delete(_) => DeleteTells(db, op, client);
    case Approve(_) =>
  }

  // ---- whole runs ----

  /** A mon-client exists only between an approval and a deletion. */
  lemma UnknownStaysUnknown(db: Db, op: Op, client: ClientId)
    requires Enabled(db, op) && client !in db.clients && op != Approve(client)
    ensures client !in Next(db, op).clients
  {
    match op
    case Beat(c, req, keys, excl, th, now) => Protocol.BeatKeepsOthers(db, c, req, keys, excl, th, now);
    case Inbounds(gone, order, live, now) =>
      VanishIsSilent(db, gone, now, client);
      RefreshIsSilent(Vanished(db, gone, now), order, live, now, client);
    case Revoke(c, now) => SweepIsSilent(db, Silence(c, MonClientRevoked), now, client);
    case _ =>
  }

  /** The tables at a mon-client's last approval, EMPTY when there was none. */
  ghost function Approved(ops: seq<Op>, client: ClientId): Db {
    if ops == [] then EMPTY
    else
      var init, last := ops[..|ops| - 1], ops[|ops| - 1];
      if last == Approve(client) && Run(init).Some? then Run(init).value else Approved(init, client)
  }

  function Since<T>(before: seq<T>, now: seq<T>): seq<T> {
    if |before| <= |now| then now[|before|..] else []
  }

  /** A mon-client's own events filed since its last approval. */
  ghost function Events(ops: seq<Op>, client: ClientId): seq<Entry>
    requires Run(ops).Some?
  {
    Since(Mine(Approved(ops, client).log, client), Mine(Run(ops).value.log, client))
  }

  /** The batches recorded for a mon-client since its last approval. */
  ghost function Batches(ops: seq<Op>, client: ClientId): seq<Batch>
    requires Run(ops).Some?
  {
    Since(BatchesOf(Approved(ops, client).recorded, client), BatchesOf(Run(ops).value.recorded, client))
  }

  /** The state a mon-client's events lead to from NEVER, or None when one of them does
      not start where the one before it ended, or leads nowhere. */
  function Told(events: seq<Entry>): Option<ClientState> {
    if events == [] then Some(Never)
    else
      var e := events[|events| - 1];
      match Told(events[..|events| - 1])
      case None => None
      case Some(s) => if e.ClientEntry? && e.from == WireFrom(s) && e.to != s && e.to != Never then Some(e.to) else None
  }

  function CyclesOf(batches: seq<Batch>): seq<Cycle> {
    if batches == [] then [] else CyclesOf(batches[..|batches| - 1]) + batches[|batches| - 1].cycles
  }

  lemma SinceAppend<T>(before: seq<T>, now: seq<T>, more: seq<T>)
    requires |before| <= |now|
    ensures Since(before, now + more) == Since(before, now) + more
  {
  }

  lemma ToldAppend(events: seq<Entry>, e: Entry)
    ensures Told(events + [e]) == match Told(events)
                                  case None => None
                                  case Some(s) => if e.ClientEntry? && e.from == WireFrom(s) && e.to != s && e.to != Never then Some(e.to) else None
  {
    assert (events + [e])[..|events|] == events;
  }

  /** What the last operation of a run added for a mon-client. */
  lemma LastStep(ops: seq<Op>, client: ClientId)
    requires ops != [] && Run(ops).Some? && client in Run(ops).value.clients && ops[|ops| - 1] != Approve(client)
    ensures var init, last := ops[..|ops| - 1], ops[|ops| - 1];
            && Run(init).Some? && Enabled(Run(init).value, last) && client in Run(init).value.clients
            && Tells(Run(init).value, last, Run(ops).value, client)
            && Approved(ops, client) == Approved(init, client)
  {
    var init, last := ops[..|ops| - 1], ops[|ops| - 1];
    hide Next, Enabled, Tells;
    if client !in Run(init).value.clients {
      UnknownStaysUnknown(Run(init).value, last, client);
    }
    DeletedIsUnknown(Run(init).value, last, client);
    NextTells(Run(init).value, last, client);
  }

  lemma DeletedIsUnknown(db: Db, op: Op, client: ClientId)
    requires Enabled(db, op) && client in Next(db, op).clients
    ensures op != Delete(client)
  {
  }

  lemma ApprovalStartsOver(ops: seq<Op>, client: ClientId)
    requires ops != [] && Run(ops).Some? && ops[|ops| - 1] == Approve(client)
    ensures Events(ops, client) == [] && Batches(ops, client) == []
    ensures Run(ops).value.clients[client].state == Never && Run(ops).value.clients[client].lastAckSeq == 0
    ensures Grown(ops, client)
  {
    LastRun(ops);
    ApprovedHere(ops, client);
    var db := Run(ops[..|ops| - 1]).value;
    hide Run, Approved, Mine, BatchesOf, Since;
    SinceItself(Mine(db.log, client));
    SinceItself(BatchesOf(db.recorded, client));
  }

  lemma SinceItself<T>(s: seq<T>)
    ensures Since(s, s) == []
  {
  }

  lemma LastRun(ops: seq<Op>)
    requires ops != [] && Run(ops).Some?
    ensures var init, last := ops[..|ops| - 1], ops[|ops| - 1];
            Run(init).Some? && Enabled(Run(init).value, last) && Run(ops).value == Next(Run(init).value, last)
  {
    hide Next, Enabled;
  }

  lemma ApprovedHere(ops: seq<Op>, client: ClientId)
    requires ops != [] && ops[|ops| - 1] == Approve(client) && Run(ops[..|ops| - 1]).Some?
    ensures Approved(ops, client) == Run(ops[..|ops| - 1]).value
  {
    hide Run;
  }

  /** Events and batches of the time before the last approval are still on record. */
  ghost predicate Grown(ops: seq<Op>, client: ClientId)
    requires Run(ops).Some?
  {
    && |Mine(Approved(ops, client).log, client)| <= |Mine(Run(ops).value.log, client)|
    && |BatchesOf(Approved(ops, client).recorded, client)| <= |BatchesOf(Run(ops).value.recorded, client)|
  }

  lemma {:induction false} RecordsGrow(ops: seq<Op>, client: ClientId)
    requires Run(ops).Some? && client in Run(ops).value.clients
    ensures Grown(ops, client)
  {
    if ops != [] {
      if ops[|ops| - 1] == Approve(client) {
        ApprovalStartsOver(ops, client);
      } else {
        LastStep(ops, client);
        RecordsGrow(ops[..|ops| - 1], client);
      }
    }
  }

  /** The last operation's event and batch join those since the approval. */
  lemma LastAdds(ops: seq<Op>, client: ClientId)
    requires ops != [] && Run(ops).Some? && client in Run(ops).value.clients && ops[|ops| - 1] != Approve(client)
    ensures var init, last := ops[..|ops| - 1], ops[|ops| - 1];
            && Run(init).Some? && Enabled(Run(init).value, last) && client in Run(init).value.clients
            && Run(ops).value.clients[client].state == StateAfter(Run(init).value, last, client)
            && Run(ops).value.clients[client].lastAckSeq == AckAfter(Run(init).value, last, client)
            && Events(ops, client) == Events(init, client) + Said(Run(init).value, last, client)
            && Batches(ops, client) == Batches(init, client) + Handed(Run(init).value, last, client)
  {
    var init, last := ops[..|ops| - 1], ops[|ops| - 1];
    LastStep(ops, client);
    var db, start := Run(init).value, Approved(init, client);
    RecordsGrow(init, client);
    hide Run, Enabled, Said, Handed, Mine, BatchesOf, Since, StateAfter, AckAfter;
    SinceAppend(Mine(start.log, client), Mine(db.log, client), Said(db, last, client));
    SinceAppend(BatchesOf(start.recorded, client), BatchesOf(db.recorded, client), Handed(db, last, client));
  }

  /** Whether every sweep since the mon-client's last approval found it still ONLINE when
      it marked it OFFLINE. */
  ghost predicate Prompt(ops: seq<Op>, client: ClientId) {
    if ops == [] then true
    else
      var init, last := ops[..|ops| - 1], ops[|ops| - 1];
      last == Approve(client) || (Prompt(init, client) && (Run(init).Some? ==> LeadsOn(Run(init).value, last, client)))
  }

  ghost predicate LeadsOn(db: Db, op: Op, client: ClientId) {
    op.GoSilent? && client in op.silent && client in db.clients ==> db.clients[client].state == Online
  }

  /** In every reachable state a mon-client's own events since its last approval lead
      from NEVER, each from the state the one before it led to and to another one, to
      the state its row shows, if and only if every sweep found it still ONLINE. */
  lemma {:induction false} EventsTellStateIff(ops: seq<Op>, client: ClientId)
    requires Run(ops).Some? && client in Run(ops).value.clients
    ensures Told(Events(ops, client)) == if Prompt(ops, client) then Some(Run(ops).value.clients[client].state) else None
  {
    if ops != [] {
      if ops[|ops| - 1] == Approve(client) {
        ApprovalStartsOver(ops, client);
      } else {
        var init, last := ops[..|ops| - 1], ops[|ops| - 1];
        LastAdds(ops, client);
        EventsTellStateIff(init, client);
        SaidMovesState(Run(init).value, last, client, Events(init, client));
      }
    }
  }

  lemma SaidMovesState(db: Db, op: Op, client: ClientId, events: seq<Entry>)
    requires Enabled(db, op) && client in db.clients && op != Approve(client)
    requires Told(events).Some? ==> Told(events) == Some(db.clients[client].state)
    ensures Told(events + Said(db, op, client)) ==
            if Told(events).Some? && LeadsOn(db, op, client) then Some(StateAfter(db, op, client)) else None
  {
    var said := Said(db, op, client);
    if said == [] {
      assert events + said == events;
    } else {
      ToldAppend(events, said[0]);
      assert said == [said[0]];
    }
  }

  lemma AckMoves(db: Db, op: Op, client: ClientId)
    requires client in db.clients && op != Approve(client)
    ensures db.clients[client].lastAckSeq <= AckAfter(db, op, client)
    ensures (op.Beat? ==> op.client != client) ==> db.clients[client].lastAckSeq == AckAfter(db, op, client)
  {
  }

  /** Between two approvals a mon-client's ack never falls, and only its own heartbeats
      move it. */
  lemma {:induction false} AckNeverFalls(ops: seq<Op>, n: nat, client: ClientId)
    requires n <= |ops| && Run(ops).Some? && client in Run(ops).value.clients && Approve(client) !in ops[n..]
    ensures Run(ops[..n]).Some? && client in Run(ops[..n]).value.clients
    ensures Run(ops[..n]).value.clients[client].lastAckSeq <= Run(ops).value.clients[client].lastAckSeq
    ensures (forall op <- ops[n..] :: op.Beat? ==> op.client != client) ==>
              Run(ops[..n]).value.clients[client].lastAckSeq == Run(ops).value.clients[client].lastAckSeq
  {
    hide *;
    if n == |ops| {
      assert ops[..n] == ops;
    } else {
      var init, last := ops[..|ops| - 1], ops[|ops| - 1];
      assert ops[n..] == init[n..] + [last] && init[..n] == ops[..n];
      assert last in ops[n..];
      LastAdds(ops, client);
      AckNeverFalls(init, n, client);
      AckMoves(Run(init).value, last, client);
    }
  }

  // ---- a sweep that comes late ----

  const BOX := "box"

  function Hello(now: int): Op {
    Beat(BOX, Request([], []), {}, Config.NOTHING_KNOWN, Knobs(2, 2, 3, MINUTE, MINUTE), now)
  }

  /** Approved and heard once. */
  const QUIET := [Approve(BOX)] + [Hello(0)]

  /** What MarkOffline does ten minutes later to the mon-client it found silent. */
  const SWEEP := GoSilent([BOX], 3, 10 * MINUTE)

  lemma RunExtends(ops: seq<Op>, op: Op, db: Db)
    requires Run(ops) == Some(db) && Enabled(db, op)
    ensures Run(ops + [op]) == Some(Next(db, op))
  {
    hide Next, Enabled;
    assert (ops + [op])[..|ops|] == ops;
  }

  lemma HelloGreets(db: Db, now: int)
    requires BOX in db.clients && db.clients[BOX].lastAckSeq == 0
    ensures Enabled(db, Hello(now)) && Next(db, Hello(now)).clients == db.clients[BOX := MonClient(Online, Some(now), 0, 0)]
  {
    var h := Hello(now);
    hide Beaten;
    Protocol.BeatKeepsOthers(db, BOX, h.req, h.keys, h.excl, h.th, now);
  }

  lemma QuietRuns()
    ensures Run(QUIET).Some? && Run(QUIET).value.clients == map[BOX := MonClient(Online, Some(0), 0, 0)]
    ensures IsSilent(MonClient(Online, Some(0), 0, 0), 4 * MINUTE, 10 * MINUTE)
  {
    assert Run([]) == Some(EMPTY);
    RunExtends([], Approve(BOX), EMPTY);
    assert [] + [Approve(BOX)] == [Approve(BOX)];
    var approved := Next(EMPTY, Approve(BOX));
    HelloGreets(approved, 0);
    RunExtends([Approve(BOX)], Hello(0), approved);
  }

  /** The false law "the events chain": silent for ten minutes and found so, then revoked
      before the sweep marks it.  The sweep files a second event into OFFLINE. */
  lemma SweepAfterRevoke()
    ensures Run(QUIET).Some? && BOX in Run(QUIET).value.clients && IsSilent(Run(QUIET).value.clients[BOX], 4 * MINUTE, 10 * MINUTE)
    ensures var ops := QUIET + [Revoke(BOX, 10 * MINUTE)] + [SWEEP];
            Run(ops).Some? && BOX in Run(ops).value.clients && Told(Events(ops, BOX)) == None
  {
    QuietRuns();
    hide Run, Next, Prompt;
    var quiet, revoke := Run(QUIET).value, Revoke(BOX, 10 * MINUTE);
    RevokeCuts(quiet);
    RunExtends(QUIET, revoke, quiet);
    var revoked := Next(quiet, revoke);
    SweepMarks(revoked);
    RunExtends(QUIET + [revoke], SWEEP, revoked);
    NotPrompt(QUIET + [revoke], revoked);
    EventsTellStateIff(QUIET + [revoke] + [SWEEP], BOX);
  }

  lemma RevokeCuts(db: Db)
    requires BOX in db.clients
    ensures var revoke := Revoke(BOX, 10 * MINUTE);
            Enabled(db, revoke) && Next(db, revoke).clients == db.clients[BOX := db.clients[BOX].(state := Offline)]
  {
  }

  lemma SweepMarks(db: Db)
    requires BOX in db.clients
    ensures Enabled(db, SWEEP) && Next(db, SWEEP).clients == db.clients[BOX := db.clients[BOX].(state := Offline, missed := 3)]
  {
    OneLost(db, BOX, 3, 10 * MINUTE);
    LossTells(db, BOX, 3, 10 * MINUTE, BOX);
  }

  lemma NotPrompt(ops: seq<Op>, db: Db)
    requires Run(ops) == Some(db) && BOX in db.clients && db.clients[BOX].state == Offline
    ensures !Prompt(ops + [SWEEP], BOX)
  {
    hide Run;
    assert (ops + [SWEEP])[..|ops|] == ops;
    assert BOX in SWEEP.silent && !LeadsOn(db, SWEEP, BOX);
  }

  /** The false law "only a silent mon-client goes OFFLINE": its heartbeat came in before
      the sweep marked it. */
  lemma SweepAfterHeartbeat()
    ensures Run(QUIET).Some? && BOX in Run(QUIET).value.clients && IsSilent(Run(QUIET).value.clients[BOX], 4 * MINUTE, 10 * MINUTE)
    ensures var ops := QUIET + [Hello(10 * MINUTE)] + [SWEEP];
            Run(ops).Some? && Run(ops).value.clients == map[BOX := MonClient(Offline, Some(10 * MINUTE), 3, 0)]
  {
    QuietRuns();
    hide Run, Next;
    var quiet := Run(QUIET).value;
    HelloGreets(quiet, 10 * MINUTE);
    RunExtends(QUIET, Hello(10 * MINUTE), quiet);
    var heard := Next(quiet, Hello(10 * MINUTE));
    SweepMarks(heard);
    RunExtends(QUIET + [Hello(10 * MINUTE)], SWEEP, heard);
  }

  lemma OneLost(db: Db, client: ClientId, missed: nat, now: int)
    requires client in db.clients
    ensures LostAll(db, [client], missed, now) == Lost(db, client, missed, now)
  {
    assert [client][..0] == [];
  }

  // ---- the batches of one mon-client ----

  /** Every cycle of a later batch has a higher seq than any of an earlier one. */
  ghost predicate InTurn(batches: seq<Batch>) {
    forall i, j, x, y :: 0 <= i < j < |batches| && x in batches[i].cycles && y in batches[j].cycles ==> x.seqNo < y.seqNo
  }

  ghost predicate Within(cycles: seq<Cycle>, low: int, high: int) {
    forall c <- cycles :: low < c.seqNo <= high
  }

  lemma HandedIsNew(db: Db, op: Op, client: ClientId)
    requires client in db.clients && op != Approve(client)
    ensures db.clients[client].lastAckSeq <= AckAfter(db, op, client)
    ensures forall b <- Handed(db, op, client) :: b.client == client && Within(b.cycles, db.clients[client].lastAckSeq, AckAfter(db, op, client))
  {
    if op.Beat? && op.client == client {
      var lastAck := db.clients[client].lastAckSeq;
      var kept := Accepted(lastAck, op.req.cycles);
      forall c | c in CleanedAll(kept, op.now, op.keys) ensures lastAck < c.seqNo <= AckOf(lastAck, op.req.cycles) {
        var i :| 0 <= i < |kept| && c == Cleaned(kept[i], op.now, op.keys);
        assert kept[i] in kept;
      }
    }
  }

  /** In every reachable state the batches recorded for a mon-client since its last
      approval came in the order of their seqs, all of them behind its ack. */
  lemma {:induction false} BatchesCameInTurn(ops: seq<Op>, client: ClientId)
    requires Run(ops).Some? && client in Run(ops).value.clients
    ensures InTurn(Batches(ops, client)) && Run(ops).value.clients[client].lastAckSeq >= 0
    ensures forall b <- Batches(ops, client) :: b.client == client && Within(b.cycles, 0, Run(ops).value.clients[client].lastAckSeq)
  {
    if ops != [] {
      if ops[|ops| - 1] == Approve(client) {
        ApprovalStartsOver(ops, client);
      } else {
        var init, last := ops[..|ops| - 1], ops[|ops| - 1];
        LastAdds(ops, client);
        BatchesCameInTurn(init, client);
        HandedIsNew(Run(init).value, last, client);
        TurnsAdd(Batches(init, client), Handed(Run(init).value, last, client), Run(init).value.clients[client].lastAckSeq,
                 Run(ops).value.clients[client].lastAckSeq);
      }
    }
  }

  lemma TurnsAdd(before: seq<Batch>, more: seq<Batch>, low: int, high: int)
    requires InTurn(before) && |more| <= 1 && 0 <= low <= high
    requires (forall b <- before :: Within(b.cycles, 0, low)) && forall b <- more :: Within(b.cycles, low, high)
    ensures InTurn(before + more) && forall b <- before + more :: Within(b.cycles, 0, high)
  {
    var all := before + more;
    forall i, j, x, y | 0 <= i < j < |all| && x in all[i].cycles && y in all[j].cycles ensures x.seqNo < y.seqNo {
      assert all[i] in before;
      assert j < |before| || all[j] in more;
    }
  }

  /** When a mon-client's requests hold rising seqs, as its buffer's do, the cycles
      recorded for it since its last approval rise too: none is recorded twice. */
  lemma {:induction false} RisingRequestsRecordOnce(ops: seq<Op>, client: ClientId)
    requires Run(ops).Some? && client in Run(ops).value.clients
    requires forall op <- ops :: op.Beat? && op.client == client ==> Protocol.Rising(op.req.cycles)
    ensures Protocol.Rising(CyclesOf(Batches(ops, client)))
    ensures forall c <- CyclesOf(Batches(ops, client)) :: c.seqNo <= Run(ops).value.clients[client].lastAckSeq
  {
    if ops != [] {
      if ops[|ops| - 1] == Approve(client) {
        ApprovalStartsOver(ops, client);
      } else {
        var init, last := ops[..|ops| - 1], ops[|ops| - 1];
        assert last in ops && forall op <- init :: op in ops;
        LastAdds(ops, client);
        RisingRequestsRecordOnce(init, client);
        HandedRises(Run(init).value, last, client, CyclesOf(Batches(init, client)));
        CyclesAppend(Batches(init, client), Handed(Run(init).value, last, client));
      }
    }
  }

  lemma CyclesAppend(before: seq<Batch>, more: seq<Batch>)
    requires |more| <= 1
    ensures CyclesOf(before + more) == CyclesOf(before) + CyclesOf(more)
  {
    if more == [] {
      assert before + more == before;
    } else {
      assert (before + more)[..|before|] == before && more[..0] == [];
    }
  }

  lemma HandedRises(db: Db, op: Op, client: ClientId, before: seq<Cycle>)
    requires client in db.clients && op != Approve(client)
    requires op.Beat? && op.client == client ==> Protocol.Rising(op.req.cycles)
    requires Protocol.Rising(before) && forall c <- before :: c.seqNo <= db.clients[client].lastAckSeq
    ensures var all := before + CyclesOf(Handed(db, op, client));
            Protocol.Rising(all) && forall c <- all :: c.seqNo <= AckAfter(db, op, client)
  {
    HandedIsNew(db, op, client);
    var handed, lastAck := Handed(db, op, client), db.clients[client].lastAckSeq;
    if handed == [] {
      assert before + CyclesOf(handed) == before;
    } else {
      OneBatch(handed[0]);
      assert handed == [handed[0]] && handed[0] in handed;
      Protocol.AcceptedRises(lastAck, op.req.cycles);
      CleanedRises(Accepted(lastAck, op.req.cycles), op.now, op.keys);
      RisingOn(before, handed[0].cycles, lastAck, AckAfter(db, op, client));
    }
  }

  lemma OneBatch(b: Batch)
    ensures CyclesOf([b]) == b.cycles
  {
    assert [b][..0] == [];
  }

  lemma CleanedRises(cycles: seq<Cycle>, now: int, keys: set<TargetKey>)
    requires Protocol.Rising(cycles)
    ensures Protocol.Rising(CleanedAll(cycles, now, keys))
  {
  }

  lemma RisingOn(before: seq<Cycle>, more: seq<Cycle>, low: int, high: int)
    requires Protocol.Rising(before) && Protocol.Rising(more) && low <= high
    requires (forall c <- before :: c.seqNo <= low) && Within(more, low, high)
    ensures Protocol.Rising(before + more) && forall c <- before + more :: c.seqNo <= high
  {
    Protocol.RisingConcat(before, more, low);
  }
}
