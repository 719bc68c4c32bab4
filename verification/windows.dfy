/** Flap windows and holds in whole runs of the engine with fixed thresholds and a
    clock that never steps back. */
module Windows {
  import opened Wrappers
  import opened Store
  import opened Machine
  import opened History
  import opened Wire
  import opened Tables
  import opened Runs
  import Config
  import Paths

  /** A past whose results all used th, in time order, up to now. */
  ghost predicate Paced(acts: seq<Act>, th: Thresholds, now: int) {
    Uniform(acts, th) && Ordered(acts) && (acts != [] ==> acts[|acts| - 1].at <= now)
  }

  ghost predicate AllPaced(pasts: map<nat, Past>, th: Thresholds, now: int) {
    forall id <- pasts :: Paced(pasts[id].acts, th, now)
  }

  lemma ActStaysPaced(acts: seq<Act>, act: Act, th: Thresholds)
    requires Paced(acts, th, act.at) && (act.Result? ==> act.th == th)
    ensures Paced(acts + [act], th, act.at)
  {
    var all := acts + [act];
    forall i, j | 0 <= i < j < |all| ensures all[i].at <= all[j].at {
      if j == |acts| {
        assert i == |acts| - 1 || acts[i].at <= acts[|acts| - 1].at;
      }
    }
  }

  lemma LaterStaysPaced(db: Db, th: Thresholds, now: int, later: int)
    requires AllPaced(db.pasts, th, now) && now <= later
    ensures AllPaced(db.pasts, th, later)
  {
  }

  lemma ActPaces(db: Db, i: nat, act: Act, th: Thresholds)
    requires AllPaced(db.pasts, th, act.at) && i < |db.targets| && (act.Result? ==> act.th == th)
    ensures AllPaced(ActOn(db, i, act).pasts, th, act.at)
  {
    var id := db.targets[i].id;
    if id in db.pasts {
      ActStaysPaced(db.pasts[id].acts, act, th);
    }
  }

  ghost predicate DecidesMoves(decide: Target -> Option<Act>, now: int) {
    forall t :: decide(t).Some? ==> decide(t).value.Move? && decide(t).value.at == now
  }

  lemma {:induction false} MovesPace(db: Db, decide: Target -> Option<Act>, th: Thresholds, now: int, n: nat)
    requires AllPaced(db.pasts, th, now) && n <= |db.targets| && DecidesMoves(decide, now)
    ensures AllPaced(SweptTo(db, decide, n).pasts, th, now)
  {
    if n > 0 {
      MovesPace(db, decide, th, now, n - 1);
      var before := SweptTo(db, decide, n - 1);
      var decision := decide(before.targets[n - 1]);
      if decision.Some? {
        ActPaces(before, n - 1, decision.value, th);
      }
    }
  }

  lemma SweepPaces(db: Db, s: Sweep, th: Thresholds, now: int)
    requires AllPaced(db.pasts, th, now)
    ensures AllPaced(Swept(db, s, now).pasts, th, now)
  {
    forall t: Target ensures DecisionOf(s, now)(t).Some? ==> DecisionOf(s, now)(t).value.Move? && DecisionOf(s, now)(t).value.at == now {
      DecisionIsAMove(s, t, now);
    }
    MovesPace(db, DecisionOf(s, now), th, now, |db.targets|);
  }

  lemma DecisionIsAMove(s: Sweep, t: Target, now: int)
    ensures Decision(s, t, now).Some? ==> Decision(s, t, now).value.Move? && Decision(s, t, now).value.at == now
  {
  }

  lemma {:induction false} EnsurePaces(db: Db, client: ClientId, keys: seq<TargetKey>, th: Thresholds, now: int)
    requires AllPaced(db.pasts, th, now)
    ensures AllPaced(EnsureRows(db, client, keys, now).pasts, th, now)
  {
    if keys != [] {
      EnsurePaces(db, client, keys[..|keys| - 1], th, now);
    }
  }

  lemma {:induction false} ResultsPace(db: Db, client: ClientId, results: seq<Result>, th: Thresholds, now: int)
    requires AllPaced(db.pasts, th, now)
    ensures AllPaced(ResultsApplied(db, client, results, th, now).pasts, th, now)
  {
    if results != [] {
      var init, res := results[..|results| - 1], results[|results| - 1];
      ResultsPace(db, client, init, th, now);
      var found := EnsureRow(ResultsApplied(db, client, init, th, now), client, res.key, now);
      var i := IndexOf(found.targets, client, res.key);
      if i < |found.targets| && found.targets[i].state != Paused {
        ActPaces(found, i, Act.Result(th, OutcomeOf(res.ok, res.reason), now), th);
      }
    }
  }

  lemma BeatPaces(db: Db, op: Op, th: Thresholds)
    requires op.Beat? && Enabled(db, op) && op.th == th && AllPaced(db.pasts, th, op.now)
    ensures AllPaced(Next(db, op).pasts, th, op.now)
  {
    var Beat(client, req, keys, excl, _, now) := op;
    var lastAck := db.clients[client].lastAckSeq;
    var cycles := CleanedAll(Accepted(lastAck, req.cycles), now, keys);
    var rejected := Paths.RejectedOf(keys, req.rejected);
    var retired := Purged(Greeted(db, client, AckOf(lastAck, req.cycles), now), Retired(client, keys, db.known));
    var purged := Purged(retired, OutOfConfig(client, keys, excl));
    EnsurePaces(purged, client, Missing(keys, rejected, excl), th, now);
    var ensured := EnsureRows(purged, client, Missing(keys, rejected, excl), now);
    SweepPaces(ensured, Reconcile(client, keys, rejected, excl), th, now);
    match LiveCycle(cycles) {
      case None =>
      case Some(live) => ResultsPace(Reconciled(retired, client, keys, rejected, excl, now), client, live.results, th, now);
    }
  }

  lemma {:induction false} SyncPaces(db: Db, gone: seq<InboundKey>, order: seq<InboundKey>, live: map<InboundKey, bool>, th: Thresholds, now: int)
    requires AllPaced(db.pasts, th, now)
    ensures AllPaced(Synced(db, gone, order, live, now).pasts, th, now)
    decreases |gone| + |order|
  {
    if order != [] {
      var init, k := order[..|order| - 1], order[|order| - 1];
      SyncPaces(db, gone, init, live, th, now);
      var before := Synced(db, gone, init, live, now);
      SweepPaces(before, if k in live && live[k] then ResumeInbound(k) else PauseInbound(k), th, now);
    } else if gone != [] {
      var init, k := gone[..|gone| - 1], gone[|gone| - 1];
      SyncPaces(db, init, [], live, th, now);
      var before := Vanished(db, init, now);
      SweepPaces(before, PauseInbound(k), th, now);
    }
  }

  lemma {:induction false} LossesPace(db: Db, silent: seq<ClientId>, missed: nat, th: Thresholds, now: int)
    requires AllPaced(db.pasts, th, now) && forall c <- silent :: c in db.clients
    ensures AllPaced(LostAll(db, silent, missed, now).pasts, th, now)
  {
    if silent != [] {
      var init, last := silent[..|silent| - 1], silent[|silent| - 1];
      LossesPace(db, init, missed, th, now);
      var before := LostAll(db, init, missed, now);
      var offline := before.(clients := before.clients[last := before.clients[last].(state := Offline, missed := missed)],
                             log := before.log + [ClientEntry(last, now, Some(Online), Offline, HeartbeatMissed)]);
      SweepPaces(offline, Silence(last, MonClientOffline), th, now);
    }
  }

  /** When an operation reads the clock. */
  function TimeOf(op: Op): Option<int> {
    match op
    case Beat(_, _, _, _, _, now) => Some(now)
    case Inbounds(_, _, _, now) => Some(now)
    case GoSilent(_, _, now) => Some(now)
    case Disable(_, now) => Some(now)
    case Revoke(_, now) => Some(now)
    case _ => None
  }

  lemma NextPaces(db: Db, op: Op, th: Thresholds, now: int)
    requires Enabled(db, op) && (op.Beat? ==> op.th == th) && (TimeOf(op).Some? ==> TimeOf(op) == Some(now))
    requires AllPaced(db.pasts, th, now)
    ensures AllPaced(Next(db, op).pasts, th, now)
  {
    match op
    case Beat(_, _, _, _, _, _) => BeatPaces(db, op, th);
    case Inbounds(gone, order, live, _) => SyncPaces(db, gone, order, live, th, now);
    case GoSilent(silent, missed, _) => LossesPace(db, silent, missed, th, now);
    case Disable(client, _) => SweepPaces(db, Silence(client, MonClientDisabled), th, now);
    case Revoke(client, _) =>
      var mc := db.clients[client];
      var told := if mc.state == Offline then db
                  else db.(log := db.log + [ClientEntry(client, now, WireFrom(mc.state), Offline, TokenRevoked)]);
      SweepPaces(told, Silence(client, MonClientRevoked), th, now);
    case SeeInbounds(_) =>
    case ServePaths(_) =>
    case Delete(_) =>
    case Approve(_) =>
  }

  /** Fixed thresholds, and clock readings that never go back or past now. */
  ghost predicate Steady(ops: seq<Op>, th: Thresholds, now: int) {
    ops == [] ||
    var init, op := ops[..|ops| - 1], ops[|ops| - 1];
    && (op.Beat? ==> op.th == th)
    && match TimeOf(op)
       case None => Steady(init, th, now)
       case Some(at) => at <= now && Steady(init, th, at)
  }

  lemma {:induction false} SteadyRunsPace(ops: seq<Op>, th: Thresholds, now: int)
    requires Run(ops).Some? && Steady(ops, th, now)
    ensures AllPaced(Run(ops).value.pasts, th, now)
  {
    if ops != [] {
      var init, op := ops[..|ops| - 1], ops[|ops| - 1];
      var before := Run(init).value;
      match TimeOf(op) {
        case None =>
          SteadyRunsPace(init, th, now);
          NextPaces(before, op, th, now);
        case Some(at) =>
          SteadyRunsPace(init, th, at);
          NextPaces(before, op, th, at);
          LaterStaysPaced(Next(before, op), th, at, now);
      }
    }
  }

  /** In a steady run every row's flip window is its outbox history seen through
      the window, a FLAPPING row's hold ends one hold after its last flip, and the
      silent flips in the outbox chain to the state it is underneath. */
  lemma RowsShowTheirFlips(ops: seq<Op>, th: Thresholds, now: int, t: Target)
    requires Run(ops).Some? && Steady(ops, th, now) && t in Run(ops).value.targets
    ensures var trail := TrailOf(Run(ops).value.log, t.id);
            && Windowed(Life(t, trail), th, now)
            && Underneath(trail) == Some(Under(t, th))
  {
    ReachableIsExplained(ops);
    SteadyRunsPace(ops, th, now);
    var db := Run(ops).value;
    assert RowExplained(db, t);
    var past := db.pasts[t.id];
    var birth := Fresh(t.id, t.client, t.key, past.bornAt);
    WindowIsHistory(birth, past.acts, th, now);
    SilentFlipsChain(birth, past.acts, th);
  }
}
