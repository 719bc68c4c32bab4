/** Who may end a pause, what one heartbeat leaves behind, and when doing it again
    changes nothing. */
module Pauses {
  import opened Wrappers
  import opened Store
  import opened Machine
  import opened History
  import opened Sorting
  import opened Flatten
  import opened Wire
  import opened Tables
  import opened Runs
  import Config
  import Paths

  // ---- bulk operations, row by row ----

  function MovedBy(decide: Target -> Option<Act>, t: Target): Target {
    match decide(t)
    case None => t
    case Some(act) => Acted(t, act).row
  }

  lemma MovesOne(db: Db, decide: Target -> Option<Act>, n: nat)
    requires n < |db.targets|
    ensures SweptTo(db, decide, n + 1).targets == SweptTo(db, decide, n).targets[n := MovedBy(decide, db.targets[n])]
  {
    var before := SweptTo(db, decide, n);
    assert before.targets[n] == db.targets[n];
    if decide(db.targets[n]) == None {
      assert before.targets[n := db.targets[n]] == before.targets;
    }
  }

  function FirstMoved(ts: seq<Target>, decide: Target -> Option<Act>, n: nat): seq<Target>
    requires n <= |ts|
  {
    seq(|ts|, i requires 0 <= i < |ts| => if i < n then MovedBy(decide, ts[i]) else ts[i])
  }

  lemma FirstMovedStep(ts: seq<Target>, decide: Target -> Option<Act>, n: nat)
    requires n < |ts|
    ensures FirstMoved(ts, decide, n + 1) == FirstMoved(ts, decide, n)[n := MovedBy(decide, ts[n])]
  {
  }

  lemma {:induction false} MovedByRow(db: Db, decide: Target -> Option<Act>, n: nat)
    requires n <= |db.targets|
    ensures SweptTo(db, decide, n).targets == FirstMoved(db.targets, decide, n)
  {
    hide Acted;
    if n > 0 {
      MovedByRow(db, decide, n - 1);
      MovesOne(db, decide, n - 1);
      FirstMovedStep(db.targets, decide, n - 1);
    } else {
      assert FirstMoved(db.targets, decide, 0) == db.targets;
    }
  }

  function MoveOf(s: Sweep, t: Target, now: int): Target {
    match Decision(s, t, now)
    case None => t
    case Some(act) => Acted(t, act).row
  }

  /** A sweep leaves each row exactly as its own decision says. */
  lemma SweptRow(db: Db, s: Sweep, now: int, i: nat)
    requires i < |db.targets|
    ensures |Swept(db, s, now).targets| == |db.targets|
    ensures Swept(db, s, now).targets[i] == MoveOf(s, db.targets[i], now)
  {
    MovedByRow(db, DecisionOf(s, now), |db.targets|);
  }

  lemma {:induction false} SweepOfNothing(db: Db, decide: Target -> Option<Act>, n: nat)
    requires n <= |db.targets| && forall t <- db.targets :: decide(t) == None
    ensures SweptTo(db, decide, n) == db
  {
    if n > 0 {
      SweepOfNothing(db, decide, n - 1);
      assert db.targets[n - 1] in db.targets;
    }
  }

  ghost predicate HasRow(db: Db, client: ClientId, key: TargetKey) {
    exists t <- db.targets :: IsRowOf(t, client, key)
  }

  lemma HasRowIndex(db: Db, client: ClientId, key: TargetKey)
    ensures HasRow(db, client, key) <==> IndexOf(db.targets, client, key) < |db.targets|
  {
    var i := IndexOf(db.targets, client, key);
    if i < |db.targets| {
      assert db.targets[i] in db.targets;
    }
  }

  /** EnsureRows only adds fresh rows, for keys asked for, and none twice. */
  lemma {:induction false} EnsuredRows(db: Db, client: ClientId, keys: seq<TargetKey>, now: int)
    ensures var r := EnsureRows(db, client, keys, now);
            && db.nextId <= r.nextId
            && (forall t <- db.targets :: t in r.targets)
            && (forall t <- r.targets :: t in db.targets || (t.id >= db.nextId && t.client == client && t.key in keys && t.state == Unknown))
            && (forall k <- keys :: HasRow(r, client, k))
  {
    if keys != [] {
      var init, last := keys[..|keys| - 1], keys[|keys| - 1];
      EnsuredRows(db, client, init, now);
      var before := EnsureRows(db, client, init, now);
      var r := EnsureRow(before, client, last, now);
      HasRowIndex(before, client, last);
      assert keys == init + [last];
      forall k | k in keys ensures HasRow(r, client, k) {
        if k == last && !HasRow(before, client, last) {
          assert r.targets[|before.targets|] in r.targets;
        } else {
          var t :| t in before.targets && IsRowOf(t, client, k);
          assert t in r.targets;
        }
      }
    }
  }

  lemma {:induction false} EnsureOfNothing(db: Db, client: ClientId, keys: seq<TargetKey>, now: int)
    requires forall k <- keys :: HasRow(db, client, k)
    ensures EnsureRows(db, client, keys, now) == db
  {
    if keys != [] {
      var init := keys[..|keys| - 1];
      assert forall k <- init :: k in keys;
      EnsureOfNothing(db, client, init, now);
      HasRowIndex(db, client, keys[|keys| - 1]);
    }
  }

  lemma {:induction false} PurgeOfNothing(ts: seq<Target>, p: Purge, n: nat)
    requires n <= |ts| && forall i :: 0 <= i < |ts| ==> !Goes(p, ts[i])
    ensures Left(ts[..n], p) == ts[..n]
  {
    if n > 0 {
      PurgeOfNothing(ts, p, n - 1);
      assert ts[..n][..n - 1] == ts[..n - 1];
      assert !Goes(p, ts[n - 1]);
    }
  }

  // ---- who may end a pause ----

  /** The one operation allowed to end this row's pause. */
  ghost predicate Frees(op: Op, t: Target) {
    match op
    case Inbounds(_, _, live, _) => t.reason == ConfigDisabled && t.key.Inbound() in live && live[t.key.Inbound()]
    case Beat(client, req, keys, _, _, _) =>
      IsConfigPause(t.reason) && t.client == client && t.key in keys && t.key !in Paths.RejectedOf(keys, req.rejected)
    case _ => false
  }

  /** b comes after a: no old id reappears, and a PAUSED row is untouched unless
      op may free it. */
  ghost predicate Follows(a: Db, b: Db, op: Op) {
    && a.nextId <= b.nextId
    && (forall u <- b.targets :: u.id < a.nextId ==> exists t <- a.targets :: t.id == u.id)
    && (forall t <- a.targets, u <- b.targets :: t.id == u.id && t.state == Paused ==> u == t || Frees(op, t))
  }

  lemma FollowsChain(a: Db, b: Db, c: Db, op: Op)
    requires Follows(a, b, op) && Follows(b, c, op) && Ids(a)
    ensures Follows(a, c, op)
  {
    forall u | u in c.targets && u.id < a.nextId ensures exists t <- a.targets :: t.id == u.id {
      var w :| w in b.targets && w.id == u.id;
    }
    forall t, u | t in a.targets && u in c.targets && t.id == u.id && t.state == Paused ensures u == t || Frees(op, t) {
      var w :| w in b.targets && w.id == u.id;
    }
  }

  lemma SameIdSameRow(db: Db, t: Target, u: Target)
    requires Ids(db) && t in db.targets && u in db.targets && t.id == u.id
    ensures t == u
  {
    var i :| 0 <= i < |db.targets| && db.targets[i] == t;
    var j :| 0 <= j < |db.targets| && db.targets[j] == u;
    IdsTellApart(db, i, j);
    IdsTellApart(db, j, i);
  }

  lemma IdsTellApart(db: Db, i: nat, j: nat)
    requires Ids(db) && i < |db.targets| && j < |db.targets|
    ensures db.targets[i].id == db.targets[j].id ==> i >= j
  {
    assert i < j ==> Apart(db.targets[i], db.targets[j]);
  }

  lemma SubsetFollows(a: Db, b: Db, op: Op)
    requires Ids(a) && a.nextId <= b.nextId
    requires forall u <- b.targets :: u in a.targets || u.id >= a.nextId
    ensures Follows(a, b, op)
  {
    forall t, u | t in a.targets && u in b.targets && t.id == u.id ensures u == t {
      if u in a.targets {
        SameIdSameRow(a, t, u);
      }
    }
  }

  lemma SweepFollows(db: Db, s: Sweep, now: int, op: Op)
    requires Ids(db)
    requires forall t <- db.targets :: t.state == Paused && Decision(s, t, now).Some? ==> Frees(op, t)
    ensures Follows(db, Swept(db, s, now), op)
  {
    var r := Swept(db, s, now);
    forall i | 0 <= i < |db.targets| ensures r.targets[i].id == db.targets[i].id && (db.targets[i].state == Paused ==> r.targets[i] == db.targets[i] || Frees(op, db.targets[i])) {
      SweptRow(db, s, now, i);
      assert db.targets[i] in db.targets;
      if Decision(s, db.targets[i], now).Some? {
        ActKeepsIdentity(db.targets[i], Decision(s, db.targets[i], now).value);
      }
    }
    forall u | u in r.targets ensures exists t <- db.targets :: t.id == u.id {
      var i :| 0 <= i < |r.targets| && r.targets[i] == u;
      assert db.targets[i] in db.targets;
    }
    forall t, u | t in db.targets && u in r.targets && t.id == u.id && t.state == Paused ensures u == t || Frees(op, t) {
      var i :| 0 <= i < |r.targets| && r.targets[i] == u;
      SameIdSameRow(db, t, db.targets[i]);
    }
  }

  lemma EnsureFollows(db: Db, client: ClientId, keys: seq<TargetKey>, now: int, op: Op)
    requires Ids(db)
    ensures Follows(db, EnsureRows(db, client, keys, now), op)
  {
    EnsuredRows(db, client, keys, now);
    SubsetFollows(db, EnsureRows(db, client, keys, now), op);
  }

  lemma ActFollows(db: Db, i: nat, act: Act, op: Op)
    requires Ids(db) && i < |db.targets| && db.targets[i].state != Paused
    ensures Follows(db, ActOn(db, i, act), op)
  {
    var after := ActOn(db, i, act);
    ActKeepsIdentity(db.targets[i], act);
    assert db.targets[i] in db.targets;
    assert forall u <- after.targets :: u in db.targets || u == after.targets[i];
    forall t, u | t in db.targets && u in after.targets && t.id == u.id && t.state == Paused ensures u == t {
      if u in db.targets {
        SameIdSameRow(db, t, u);
      } else {
        SameIdSameRow(db, t, db.targets[i]);
      }
    }
  }

  lemma ResultFollows(db: Db, client: ClientId, res: Result, th: Thresholds, now: int, op: Op)
    requires Explained(db)
    ensures Follows(db, ResultApplied(db, client, res, th, now), op)
  {
    var found := EnsureRow(db, client, res.key, now);
    EnsureRowKeeps(db, client, res.key, now);
    SubsetFollows(db, found, op);
    var i := IndexOf(found.targets, client, res.key);
    if i < |found.targets| && found.targets[i].state != Paused {
      var act := Act.Result(th, OutcomeOf(res.ok, res.reason), now);
      ActFollows(found, i, act, op);
      FollowsChain(db, found, ActOn(found, i, act), op);
    }
  }

  lemma {:induction false} ResultsFollow(db: Db, client: ClientId, results: seq<Result>, th: Thresholds, now: int, op: Op)
    requires Explained(db)
    ensures Follows(db, ResultsApplied(db, client, results, th, now), op)
  {
    if results == [] {
      SubsetFollows(db, db, op);
    } else {
      var init := results[..|results| - 1];
      ResultsFollow(db, client, init, th, now, op);
      ResultsKeep(db, client, init, th, now);
      ResultFollows(ResultsApplied(db, client, init, th, now), client, results[|results| - 1], th, now, op);
      FollowsChain(db, ResultsApplied(db, client, init, th, now), ResultsApplied(db, client, results, th, now), op);
    }
  }

  lemma ReleaseFrees(op: Op, t: Target, now: int)
    requires op.Beat? && t.state == Paused
    requires Decision(Reconcile(op.client, op.keys, Paths.RejectedOf(op.keys, op.req.rejected), op.excl), t, now).Some?
    ensures Frees(op, t)
  {
  }

  lemma ReconcileFollows(db: Db, op: Op, now: int)
    requires Explained(db) && op.Beat?
    ensures Follows(db, Reconciled(db, op.client, op.keys, Paths.RejectedOf(op.keys, op.req.rejected), op.excl, now), op)
  {
    var rejected := Paths.RejectedOf(op.keys, op.req.rejected);
    var p := OutOfConfig(op.client, op.keys, op.excl);
    var s := Reconcile(op.client, op.keys, rejected, op.excl);
    var purged := Purged(db, p);
    PurgeKeeps(db, p);
    SubsetFollows(db, purged, op);
    var missing := Missing(op.keys, rejected, op.excl);
    var ensured := EnsureRows(purged, op.client, missing, now);
    EnsureRowsKeep(purged, op.client, missing, now);
    EnsureFollows(purged, op.client, missing, now, op);
    FollowsChain(db, purged, ensured, op);
    forall t | t in ensured.targets && t.state == Paused && Decision(s, t, now).Some? ensures Frees(op, t) {
      ReleaseFrees(op, t, now);
    }
    SweepFollows(ensured, s, now, op);
    FollowsChain(db, ensured, Swept(ensured, s, now), op);
  }

  lemma BeatFollows(db: Db, op: Op)
    requires Explained(db) && op.Beat? && Enabled(db, op)
    ensures Follows(db, Next(db, op), op)
  {
    var Beat(client, req, keys, excl, th, now) := op;
    var lastAck := db.clients[client].lastAckSeq;
    var cycles := CleanedAll(Accepted(lastAck, req.cycles), now, keys);
    var rejected := Paths.RejectedOf(keys, req.rejected);
    var greeted := Greeted(db, client, AckOf(lastAck, req.cycles), now);
    GreetKeeps(db, client, AckOf(lastAck, req.cycles), now);
    SubsetFollows(db, greeted, op);
    var retired := Purged(greeted, Retired(client, keys, db.known));
    PurgeKeeps(greeted, Retired(client, keys, db.known));
    SubsetFollows(db, retired, op);
    var reconciled := Reconciled(retired, client, keys, rejected, excl, now);
    ReconcileFollows(retired, op, now);
    ReconcileKeeps(retired, client, keys, rejected, excl, now);
    FollowsChain(db, retired, reconciled, op);
    var applied := LiveApplied(reconciled, client, cycles, th, now);
    match LiveCycle(cycles) {
      case None =>
      case Some(live) =>
        ResultsFollow(reconciled, client, live.results, th, now, op);
        FollowsChain(db, reconciled, applied, op);
    }
    assert Next(db, op).targets == applied.targets && Next(db, op).nextId == applied.nextId;
  }

  lemma {:induction false} VanishFollows(db: Db, gone: seq<InboundKey>, now: int, op: Op)
    requires Explained(db)
    ensures Follows(db, Vanished(db, gone, now), op)
  {
    if gone == [] {
      SubsetFollows(db, db, op);
    } else {
      var init, k := gone[..|gone| - 1], gone[|gone| - 1];
      var before := Vanished(db, init, now);
      VanishFollows(db, init, now, op);
      VanishKeeps(db, init, now);
      SweepFollows(before, PauseInbound(k), now, op);
      FollowsChain(db, before, Swept(before, PauseInbound(k), now), op);
      assert Vanished(db, gone, now).targets == Swept(before, PauseInbound(k), now).targets;
    }
  }

  lemma {:induction false} RefreshFollows(db: Db, order: seq<InboundKey>, live: map<InboundKey, bool>, now: int, op: Op)
    requires Explained(db) && op.Inbounds? && op.live == live
    ensures Follows(db, Refreshed(db, order, live, now), op)
  {
    if order == [] {
      SubsetFollows(db, db, op);
    } else {
      var init, k := order[..|order| - 1], order[|order| - 1];
      var before := Refreshed(db, init, live, now);
      RefreshFollows(db, init, live, now, op);
      RefreshKeeps(db, init, live, now);
      SweepFollows(before, if k in live && live[k] then ResumeInbound(k) else PauseInbound(k), now, op);
      FollowsChain(db, before, Refreshed(db, order, live, now), op);
    }
  }

  lemma {:induction false} LossesFollow(db: Db, silent: seq<ClientId>, missed: nat, now: int, op: Op)
    requires Explained(db) && forall c <- silent :: c in db.clients
    ensures Follows(db, LostAll(db, silent, missed, now), op)
  {
    if silent == [] {
      SubsetFollows(db, db, op);
    } else {
      var init, last := silent[..|silent| - 1], silent[|silent| - 1];
      var before := LostAll(db, init, missed, now);
      LossesFollow(db, init, missed, now, op);
      LossesKeep(db, init, missed, now);
      var offline := before.(clients := before.clients[last := before.clients[last].(state := Offline, missed := missed)],
                             log := before.log + [ClientEntry(last, now, Some(Online), Offline, HeartbeatMissed)]);
      SweepFollows(offline, Silence(last, MonClientOffline), now, op);
      FollowsChain(db, before, LostAll(db, silent, missed, now), op);
    }
  }

  /** A PAUSED row is only ever changed by its owner: config_disabled by a sync
      that sees its inbound enabled, any other pause by a heartbeat of its own
      mon-client that has the target in the config and does not reject it.  Every
      other operation leaves the row as it is or deletes it. */
  lemma PauseOwnership(db: Db, op: Op)
    requires Explained(db) && Enabled(db, op)
    ensures forall t <- db.targets, u <- Next(db, op).targets :: t.id == u.id && t.state == Paused ==> u == t || Frees(op, t)
  {
    match op
    case Beat(_, _, _, _, _, _) => BeatFollows(db, op);
    case Inbounds(gone, order, live, now) =>
      VanishFollows(db, gone, now, op);
      VanishKeeps(db, gone, now);
      RefreshFollows(Vanished(db, gone, now), order, live, now, op);
      FollowsChain(db, Vanished(db, gone, now), Next(db, op), op);
    case SeeInbounds(_) => SubsetFollows(db, Next(db, op), op);
    case ServePaths(_) => SubsetFollows(db, Next(db, op), op);
    case GoSilent(silent, missed, now) => LossesFollow(db, silent, missed, now, op);
    case Disable(client, now) => SweepFollows(db, Silence(client, MonClientDisabled), now, op);
    case Revoke(client, now) =>
      var mc := db.clients[client];
      var told := if mc.state == Offline then db
                  else db.(log := db.log + [ClientEntry(client, now, WireFrom(mc.state), Offline, TokenRevoked)]);
      SweepFollows(told, Silence(client, MonClientRevoked), now, op);
      assert Next(db, op).targets == Swept(told, Silence(client, MonClientRevoked), now).targets;
    case Delete(_) => SubsetFollows(db, Next(db, op), op);
    case Approve(_) => SubsetFollows(db, Next(db, op), op);
  }

  // ---- what a heartbeat leaves behind ----

  /** A row fits its mon-client's config: paused when the config wants it paused,
      not held by a config pause when the config wants it probed, and never on a
      path the panel has dropped. */
  ghost predicate Fits(t: Target, keys: set<TargetKey>, rejected: set<TargetKey>, excl: Config.Exclusions) {
    var reason := ConfigPause(t.key, keys, rejected, excl);
    && (reason != NoReason ==> t.state == Paused)
    && (reason == NoReason && t.key in keys && t.state == Paused ==> !IsConfigPause(t.reason))
    && (t.key in keys || !Config.Retired(excl, t.key))
  }

  ghost predicate Classified(db: Db, client: ClientId, keys: set<TargetKey>, rejected: set<TargetKey>, excl: Config.Exclusions) {
    && (forall t <- db.targets :: t.client == client ==> Fits(t, keys, rejected, excl))
    && (forall k <- Missing(keys, rejected, excl) :: HasRow(db, client, k))
  }

  lemma MissingMembers(keys: set<TargetKey>, rejected: set<TargetKey>, excl: Config.Exclusions)
    ensures forall k :: k in Missing(keys, rejected, excl) <==> k in rejected || k in MissingAwg(keys, rejected, excl)
  {
    SortedMembers(rejected);
    SortedMembers(MissingAwg(keys, rejected, excl));
  }

  lemma SortedMembers(s: set<TargetKey>)
    ensures forall k :: k in SortedKeys(s) <==> k in s
  {
    Config.KeyLeIsOrder();
    SortSorts(Listed(s), KeyLe);
    assert forall k :: k in SortedKeys(s) <==> k in multiset(SortedKeys(s));
    assert forall k :: k in multiset(s) <==> k in s;
  }

  lemma HasRowSurvives(a: Db, b: Db, client: ClientId, key: TargetKey)
    requires |a.targets| <= |b.targets| && HasRow(a, client, key)
    requires forall i :: 0 <= i < |a.targets| ==> a.targets[i].client == b.targets[i].client && a.targets[i].key == b.targets[i].key
    ensures HasRow(b, client, key)
  {
    var i := IndexOf(a.targets, client, key);
    HasRowIndex(a, client, key);
    assert b.targets[i] in b.targets;
  }

  lemma DecisionFits(t: Target, client: ClientId, keys: set<TargetKey>, rejected: set<TargetKey>, excl: Config.Exclusions, now: int)
    requires t.client == client && (t.key in keys || !Config.Retired(excl, t.key))
    ensures match Decision(Reconcile(client, keys, rejected, excl), t, now)
            case None => Fits(t, keys, rejected, excl)
            case Some(act) => Fits(Acted(t, act).row, keys, rejected, excl)
  {
    ReasonPauses(t.key, keys, rejected, excl);
  }

  lemma ReconcileClassifies(db: Db, client: ClientId, keys: set<TargetKey>, rejected: set<TargetKey>, excl: Config.Exclusions, now: int)
    requires rejected <= keys
    ensures Classified(Reconciled(db, client, keys, rejected, excl, now), client, keys, rejected, excl)
  {
    var missing := Missing(keys, rejected, excl);
    var purged := Purged(db, OutOfConfig(client, keys, excl));
    var ensured := EnsureRows(purged, client, missing, now);
    EnsuredRows(purged, client, missing, now);
    MissingMembers(keys, rejected, excl);
    var s := Reconcile(client, keys, rejected, excl);
    var r := Swept(ensured, s, now);
    SweptIdentity(ensured, s, now);
    forall t | t in ensured.targets && t.client == client ensures t.key in keys || !Config.Retired(excl, t.key) {
      if t !in purged.targets {
        RetiredIsNotMissing(keys, rejected, excl, t.key);
      }
    }
    forall i | 0 <= i < |r.targets| && r.targets[i].client == client
      ensures Fits(r.targets[i], keys, rejected, excl)
    {
      SweptRow(ensured, s, now, i);
      assert ensured.targets[i] in ensured.targets;
      DecisionFits(ensured.targets[i], client, keys, rejected, excl, now);
    }
    forall k | k in missing ensures HasRow(r, client, k) {
      HasRowSurvives(ensured, r, client, k);
    }
  }

  lemma SweptIdentity(db: Db, s: Sweep, now: int)
    ensures |Swept(db, s, now).targets| == |db.targets|
    ensures forall i :: 0 <= i < |db.targets| ==>
              Swept(db, s, now).targets[i].client == db.targets[i].client && Swept(db, s, now).targets[i].key == db.targets[i].key
  {
    forall i | 0 <= i < |db.targets|
      ensures Swept(db, s, now).targets[i].client == db.targets[i].client && Swept(db, s, now).targets[i].key == db.targets[i].key
    {
      SweptRow(db, s, now, i);
      if Decision(s, db.targets[i], now).Some? {
        ActKeepsIdentity(db.targets[i], Decision(s, db.targets[i], now).value);
      }
    }
  }

  /** A target that gets a row only to be paused is not one the panel dropped. */
  lemma RetiredIsNotMissing(keys: set<TargetKey>, rejected: set<TargetKey>, excl: Config.Exclusions, key: TargetKey)
    requires rejected <= keys && key in Missing(keys, rejected, excl)
    ensures key in keys || !Config.Retired(excl, key)
  {
    MissingMembers(keys, rejected, excl);
  }

  lemma StepStaysUnpaused(t: Target, th: Thresholds, res: Outcome, now: int)
    requires t.state != Paused
    ensures Step(t, th, res, now).row.state != Paused
  {
  }

  lemma EnsureKeepsClassified(db: Db, client: ClientId, keys: set<TargetKey>, rejected: set<TargetKey>, excl: Config.Exclusions, key: TargetKey, now: int)
    requires rejected <= keys && key in keys && Classified(db, client, keys, rejected, excl)
    ensures Classified(EnsureRow(db, client, key, now), client, keys, rejected, excl)
  {
    MissingMembers(keys, rejected, excl);
    HasRowIndex(db, client, key);
    var found := EnsureRow(db, client, key, now);
    forall t | t in found.targets && t.client == client ensures Fits(t, keys, rejected, excl) {
      if t !in db.targets {
        assert t.key == key && !HasRow(db, client, key);
      }
    }
    forall k | k in Missing(keys, rejected, excl) ensures HasRow(found, client, k) {
      HasRowSurvives(db, found, client, k);
    }
  }

  lemma ActKeepsClassified(db: Db, client: ClientId, keys: set<TargetKey>, rejected: set<TargetKey>, excl: Config.Exclusions, i: nat, act: Act)
    requires i < |db.targets| && db.targets[i].state != Paused && act.Result?
    requires Classified(db, client, keys, rejected, excl)
    ensures Classified(ActOn(db, i, act), client, keys, rejected, excl)
  {
    var after := ActOn(db, i, act);
    ActKeepsIdentity(db.targets[i], act);
    StepStaysUnpaused(db.targets[i], act.th, act.res, act.at);
    assert db.targets[i] in db.targets;
    forall t | t in after.targets && t.client == client ensures Fits(t, keys, rejected, excl) {
      assert t in db.targets || t == after.targets[i];
    }
    forall k | k in Missing(keys, rejected, excl) ensures HasRow(after, client, k) {
      HasRowSurvives(db, after, client, k);
    }
  }

  lemma ResultKeepsClassified(db: Db, client: ClientId, keys: set<TargetKey>, rejected: set<TargetKey>, excl: Config.Exclusions, res: Result, th: Thresholds, now: int)
    requires rejected <= keys && res.key in keys && Classified(db, client, keys, rejected, excl)
    ensures Classified(ResultApplied(db, client, res, th, now), client, keys, rejected, excl)
  {
    EnsureKeepsClassified(db, client, keys, rejected, excl, res.key, now);
    var found := EnsureRow(db, client, res.key, now);
    var i := IndexOf(found.targets, client, res.key);
    if i < |found.targets| && found.targets[i].state != Paused {
      ActKeepsClassified(found, client, keys, rejected, excl, i, Act.Result(th, OutcomeOf(res.ok, res.reason), now));
    }
  }

  lemma {:induction false} ResultsKeepClassified(db: Db, client: ClientId, keys: set<TargetKey>, rejected: set<TargetKey>, excl: Config.Exclusions, results: seq<Result>, th: Thresholds, now: int)
    requires rejected <= keys && (forall r <- results :: r.key in keys) && Classified(db, client, keys, rejected, excl)
    ensures Classified(ResultsApplied(db, client, results, th, now), client, keys, rejected, excl)
  {
    if results != [] {
      var init := results[..|results| - 1];
      assert forall r <- init :: r in results;
      assert results[|results| - 1] in results;
      ResultsKeepClassified(db, client, keys, rejected, excl, init, th, now);
      ResultKeepsClassified(ResultsApplied(db, client, init, th, now), client, keys, rejected, excl, results[|results| - 1], th, now);
    }
  }

  /** After a heartbeat every row of its mon-client fits its config, and every
      target that must be paused without ever having been probed has its row. */
  lemma BeatClassifies(db: Db, op: Op)
    requires op.Beat? && Enabled(db, op)
    ensures Classified(Next(db, op), op.client, op.keys, Paths.RejectedOf(op.keys, op.req.rejected), op.excl)
  {
    var Beat(client, req, keys, excl, th, now) := op;
    var lastAck := db.clients[client].lastAckSeq;
    var cycles := CleanedAll(Accepted(lastAck, req.cycles), now, keys);
    var rejected := Paths.RejectedOf(keys, req.rejected);
    var retired := Purged(Greeted(db, client, AckOf(lastAck, req.cycles), now), Retired(client, keys, db.known));
    var reconciled := Reconciled(retired, client, keys, rejected, excl, now);
    ReconcileClassifies(retired, client, keys, rejected, excl, now);
    match LiveCycle(cycles) {
      case None =>
      case Some(live) =>
        var i :| 0 <= i < |cycles| && cycles[i] == live;
        assert live == Cleaned(Accepted(lastAck, req.cycles)[i], now, keys);
        ResultsKeepClassified(reconciled, client, keys, rejected, excl, live.results, th, now);
    }
    assert Next(db, op).targets == LiveApplied(reconciled, client, cycles, th, now).targets;
    ClassifiedByRows(LiveApplied(reconciled, client, cycles, th, now), Next(db, op), client, keys, rejected, excl);
  }

  lemma ClassifiedByRows(a: Db, b: Db, client: ClientId, keys: set<TargetKey>, rejected: set<TargetKey>, excl: Config.Exclusions)
    requires a.targets == b.targets && Classified(a, client, keys, rejected, excl)
    ensures Classified(b, client, keys, rejected, excl)
  {
    forall k | k in Missing(keys, rejected, excl) ensures HasRow(b, client, k) {
      HasRowSurvives(a, b, client, k);
    }
  }

  /** The same in the operator's words, once the panel's material is known. */
  lemma BeatLeavesNoStray(db: Db, op: Op, t: Target)
    requires op.Beat? && Enabled(db, op) && op.excl.known
    requires t in Next(db, op).targets && t.client == op.client
    ensures (t.key in op.keys && t.key !in Paths.RejectedOf(op.keys, op.req.rejected))
            || t.state == Paused
            || !Config.Enabled(op.excl, t.key.Inbound())
    ensures t.key in op.keys || t.key.path in op.excl.served
  {
    BeatClassifies(db, op);
    assert Fits(t, op.keys, Paths.RejectedOf(op.keys, op.req.rejected), op.excl);
  }

  /** Reconciling again on the same inputs, at any time, changes no row and files
      no event. */
  lemma ReconcileIsIdempotent(db: Db, client: ClientId, keys: set<TargetKey>, rejected: set<TargetKey>, excl: Config.Exclusions, now: int, later: int)
    requires rejected <= keys
    ensures var once := Reconciled(db, client, keys, rejected, excl, now);
            Reconciled(once, client, keys, rejected, excl, later) == once
  {
    var once := Reconciled(db, client, keys, rejected, excl, now);
    ReconcileClassifies(db, client, keys, rejected, excl, now);
    ClassifiedNeedsNothing(once, client, keys, rejected, excl, later);
    EnsureOfNothing(once, client, Missing(keys, rejected, excl), later);
    SweepOfNothing(once, DecisionOf(Reconcile(client, keys, rejected, excl), later), |once.targets|);
  }

  lemma ClassifiedNeedsNothing(db: Db, client: ClientId, keys: set<TargetKey>, rejected: set<TargetKey>, excl: Config.Exclusions, later: int)
    requires Classified(db, client, keys, rejected, excl)
    ensures Purged(db, OutOfConfig(client, keys, excl)) == db
    ensures forall t <- db.targets :: Decision(Reconcile(client, keys, rejected, excl), t, later) == None
  {
    forall t | t in db.targets
      ensures !Goes(OutOfConfig(client, keys, excl), t) && Decision(Reconcile(client, keys, rejected, excl), t, later) == None
    {
      assert t.client == client ==> Fits(t, keys, rejected, excl);
    }
    assert forall i :: 0 <= i < |db.targets| ==> db.targets[i] in db.targets;
    PurgeOfNothing(db.targets, OutOfConfig(client, keys, excl), |db.targets|);
    assert db.targets[..|db.targets|] == db.targets;
  }

  // ---- release ----

  lemma {:induction false} RefreshResumes(db: Db, order: seq<InboundKey>, live: map<InboundKey, bool>, now: int, k: InboundKey)
    requires k in live && live[k]
    ensures var r := Refreshed(db, order, live, now);
            && |r.targets| == |db.targets|
            && forall i :: 0 <= i < |r.targets| && r.targets[i].key.Inbound() == k ==>
                 (k in order || (db.targets[i].state == Paused ==> db.targets[i].reason != ConfigDisabled)) ==>
                   (r.targets[i].state == Paused ==> r.targets[i].reason != ConfigDisabled)
  {
    if order != [] {
      var init, last := order[..|order| - 1], order[|order| - 1];
      assert order == init + [last];
      RefreshResumes(db, init, live, now, k);
      var before := Refreshed(db, init, live, now);
      var s := if last in live && live[last] then ResumeInbound(last) else PauseInbound(last);
      forall i | 0 <= i < |before.targets|
        ensures |Swept(before, s, now).targets| == |before.targets|
        ensures Swept(before, s, now).targets[i].key == before.targets[i].key
        ensures before.targets[i].key.Inbound() == k && last != k ==> Swept(before, s, now).targets[i] == before.targets[i]
        ensures before.targets[i].key.Inbound() == k && last == k ==>
                  (Swept(before, s, now).targets[i].state == Paused ==> Swept(before, s, now).targets[i].reason != ConfigDisabled)
      {
        SweptRow(before, s, now, i);
        if Decision(s, before.targets[i], now).Some? {
          ActKeepsIdentity(before.targets[i], Decision(s, before.targets[i], now).value);
        }
      }
    }
  }

  /** The sync saw the row's inbound enabled, and the heartbeat is its mon-client's,
      has it in the config and does not reject it. */
  ghost predicate Released(t: Target, sync: Op, beat: Op)
    requires sync.Inbounds? && beat.Beat?
  {
    && t.key.Inbound() in sync.live && sync.live[t.key.Inbound()]
    && t.client == beat.client && t.key in beat.keys && t.key !in Paths.RejectedOf(beat.keys, beat.req.rejected)
  }

  /** Pauses always end: a sync that sees the inbound enabled, then a heartbeat
      with the target in the config and not rejected, leaves its row not PAUSED. */
  lemma PausesAreReleased(db: Db, sync: Op, beat: Op)
    requires Explained(db) && sync.Inbounds? && Enabled(db, sync)
    requires beat.Beat? && Enabled(Next(db, sync), beat)
    ensures forall t <- Next(Next(db, sync), beat).targets :: Released(t, sync, beat) ==> t.state != Paused
  {
    var mid, end := Next(db, sync), Next(Next(db, sync), beat);
    NextKeeps(db, sync);
    NextKeeps(mid, beat);
    ExplainedIsShaped(end);
    BeatClassifies(mid, beat);
    forall t | t in end.targets && Released(t, sync, beat) ensures t.state != Paused {
      assert Fits(t, beat.keys, Paths.RejectedOf(beat.keys, beat.req.rejected), beat.excl);
      if t.state == Paused {
        assert t.reason == ConfigDisabled;
        BeatMakesNoConfigDisabled(mid, beat, t);
        SyncResumes(db, sync, t);
      }
    }
  }

  /** A sync that sees an inbound enabled leaves none of its rows config_disabled. */
  lemma SyncResumes(db: Db, sync: Op, t: Target)
    requires sync.Inbounds? && Enabled(db, sync) && t.key.Inbound() in sync.live && sync.live[t.key.Inbound()]
    ensures t in Next(db, sync).targets && t.state == Paused ==> t.reason != ConfigDisabled
  {
    if t in Next(db, sync).targets {
      var i :| 0 <= i < |Next(db, sync).targets| && Next(db, sync).targets[i] == t;
      RefreshResumes(Vanished(db, sync.gone, sync.now), sync.order, sync.live, sync.now, t.key.Inbound());
    }
  }

  lemma ExplainedIsShaped(db: Db)
    requires Explained(db)
    ensures forall t <- db.targets :: Shaped(t)
  {
    forall t | t in db.targets ensures Shaped(t) {
      assert RowExplained(db, t);
      LifeIsShaped(Fresh(t.id, t.client, t.key, db.pasts[t.id].bornAt), db.pasts[t.id].acts);
    }
  }

  lemma ReconcileMakesNoConfigDisabled(db: Db, client: ClientId, keys: set<TargetKey>, rejected: set<TargetKey>, excl: Config.Exclusions, now: int, t: Target)
    requires t in Reconciled(db, client, keys, rejected, excl, now).targets && t.state == Paused && t.reason == ConfigDisabled
    ensures t in db.targets
  {
    var purged := Purged(db, OutOfConfig(client, keys, excl));
    var missing := Missing(keys, rejected, excl);
    var ensured := EnsureRows(purged, client, missing, now);
    EnsuredRows(purged, client, missing, now);
    var s := Reconcile(client, keys, rejected, excl);
    var reconciled := Swept(ensured, s, now);
    var i :| 0 <= i < |reconciled.targets| && reconciled.targets[i] == t;
    SweptRow(ensured, s, now, i);
    MovesPauseForTheConfig(ensured.targets[i], client, keys, rejected, excl, now);
    assert ensured.targets[i] in ensured.targets;
  }

  lemma MovesPauseForTheConfig(t: Target, client: ClientId, keys: set<TargetKey>, rejected: set<TargetKey>, excl: Config.Exclusions, now: int)
    ensures var moved := MoveOf(Reconcile(client, keys, rejected, excl), t, now);
            moved.state == Paused && moved.reason == ConfigDisabled ==> moved == t
  {
    ReasonPauses(t.key, keys, rejected, excl);
  }

  /** A heartbeat never pauses with config_disabled. */
  lemma BeatMakesNoConfigDisabled(db: Db, op: Op, t: Target)
    requires op.Beat? && Enabled(db, op)
    requires t in Next(db, op).targets && t.state == Paused && t.reason == ConfigDisabled
    ensures t in db.targets
  {
    var Beat(client, req, keys, excl, th, now) := op;
    var lastAck := db.clients[client].lastAckSeq;
    var cycles := CleanedAll(Accepted(lastAck, req.cycles), now, keys);
    var rejected := Paths.RejectedOf(keys, req.rejected);
    var retired := Purged(Greeted(db, client, AckOf(lastAck, req.cycles), now), Retired(client, keys, db.known));
    var reconciled := Reconciled(retired, client, keys, rejected, excl, now);
    assert t in LiveApplied(reconciled, client, cycles, th, now).targets;
    match LiveCycle(cycles) {
      case None =>
      case Some(live) => ResultsPauseNothing(reconciled, client, live.results, th, now, t);
    }
    ReconcileMakesNoConfigDisabled(retired, client, keys, rejected, excl, now, t);
  }

  lemma {:induction false} ResultsPauseNothing(db: Db, client: ClientId, results: seq<Result>, th: Thresholds, now: int, t: Target)
    requires t in ResultsApplied(db, client, results, th, now).targets && t.state == Paused
    ensures t in db.targets
  {
    if results != [] {
      var init, res := results[..|results| - 1], results[|results| - 1];
      var before := ResultsApplied(db, client, init, th, now);
      var found := EnsureRow(before, client, res.key, now);
      var i := IndexOf(found.targets, client, res.key);
      if i < |found.targets| && found.targets[i].state != Paused {
        StepStaysUnpaused(found.targets[i], th, OutcomeOf(res.ok, res.reason), now);
      }
      assert t in before.targets;
      ResultsPauseNothing(db, client, init, th, now, t);
    }
  }

  // ---- a sync does not depend on the order it visits inbounds in ----

  lemma OtherInboundStays(t: Target, k: InboundKey, now: int)
    ensures MoveOf(PauseInbound(k), t, now).key == t.key && MoveOf(ResumeInbound(k), t, now).key == t.key
    ensures t.key.Inbound() != k ==> MoveOf(PauseInbound(k), t, now) == t && MoveOf(ResumeInbound(k), t, now) == t
  {
  }

  lemma {:induction false} VanishedRow(db: Db, gone: seq<InboundKey>, now: int, i: nat)
    requires i < |db.targets| && Distinct(gone)
    ensures |Vanished(db, gone, now).targets| == |db.targets|
    ensures var t := db.targets[i];
            Vanished(db, gone, now).targets[i] == if t.key.Inbound() in gone then MoveOf(PauseInbound(t.key.Inbound()), t, now) else t
  {
    if gone != [] {
      var init, k := gone[..|gone| - 1], gone[|gone| - 1];
      assert gone == init + [k];
      VanishedRow(db, init, now, i);
      SweptRow(Vanished(db, init, now), PauseInbound(k), now, i);
      OtherInboundStays(db.targets[i], db.targets[i].key.Inbound(), now);
      OtherInboundStays(db.targets[i], k, now);
      OtherInboundStays(MoveOf(PauseInbound(db.targets[i].key.Inbound()), db.targets[i], now), k, now);
    }
  }

  function RefreshOf(k: InboundKey, live: map<InboundKey, bool>): Sweep {
    if k in live && live[k] then ResumeInbound(k) else PauseInbound(k)
  }

  lemma {:induction false} RefreshedRow(db: Db, order: seq<InboundKey>, live: map<InboundKey, bool>, now: int, i: nat)
    requires i < |db.targets| && Distinct(order)
    ensures |Refreshed(db, order, live, now).targets| == |db.targets|
    ensures var t := db.targets[i];
            Refreshed(db, order, live, now).targets[i] ==
            if t.key.Inbound() in order then MoveOf(RefreshOf(t.key.Inbound(), live), t, now) else t
  {
    if order != [] {
      var init, k := order[..|order| - 1], order[|order| - 1];
      assert order == init + [k];
      RefreshedRow(db, init, live, now, i);
      SweptRow(Refreshed(db, init, live, now), RefreshOf(k, live), now, i);
      OtherInboundStays(db.targets[i], db.targets[i].key.Inbound(), now);
      OtherInboundStays(db.targets[i], k, now);
      OtherInboundStays(MoveOf(RefreshOf(db.targets[i].key.Inbound(), live), db.targets[i], now), k, now);
    }
  }

  /** Whatever order a sync visits the inbounds in, it leaves the same rows. */
  lemma SyncIgnoresOrder(db: Db, one: Op, two: Op)
    requires one.Inbounds? && two.Inbounds? && Enabled(db, one) && Enabled(db, two)
    requires one.live == two.live && one.now == two.now
    ensures Next(db, one).targets == Next(db, two).targets
    ensures Next(db, one).known == Next(db, two).known
  {
    forall i | 0 <= i < |db.targets|
      ensures |Next(db, one).targets| == |Next(db, two).targets| == |db.targets|
      ensures Next(db, one).targets[i] == Next(db, two).targets[i]
    {
      VanishedRow(db, one.gone, one.now, i);
      VanishedRow(db, two.gone, two.now, i);
      RefreshedRow(Vanished(db, one.gone, one.now), one.order, one.live, one.now, i);
      RefreshedRow(Vanished(db, two.gone, two.now), two.order, two.live, two.now, i);
    }
    SyncedSizes(db, one.gone, one.order, one.live, one.now);
    SyncedSizes(db, two.gone, two.order, two.live, two.now);
  }

  /** A sync keeps the number of rows and forgets exactly the vanished inbounds. */
  lemma {:induction false} SyncedSizes(db: Db, gone: seq<InboundKey>, order: seq<InboundKey>, live: map<InboundKey, bool>, now: int)
    ensures |Synced(db, gone, order, live, now).targets| == |db.targets|
    ensures Synced(db, gone, order, live, now).known == db.known - set k | k in gone
    decreases |gone| + |order|
  {
    if order != [] {
      SyncedSizes(db, gone, order[..|order| - 1], live, now);
    } else if gone != [] {
      var init, k := gone[..|gone| - 1], gone[|gone| - 1];
      assert gone == init + [k];
      SyncedSizes(db, init, [], live, now);
    }
  }
}
