/** What every operation owes every row of the targets table, read off the operation
    and the row alone, and whole histories as what was owed. */
module Dues {
  import opened Wrappers
  import opened Store
  import opened Machine
  import opened History
  import opened Sorting
  import opened Flatten
  import opened Wire
  import opened Tables
  import opened Runs
  import opened Pauses
  import Config
  import MonClients
  import Paths

  // ---- what is owed ----

  /** A failure is blamed on the reason the mon-client gave, or on http_error. */
  function Blamed(r: Result): Reason {
    if r.ok then NoReason else if r.reason.Some? && r.reason.value != NoReason then r.reason.value else HttpError
  }

  /** The results of a list that are about one target, in order, as acts on its row. */
  function Given(results: seq<Result>, key: TargetKey, th: Thresholds, now: int): seq<Act> {
    if results == [] then []
    else
      var r := results[|results| - 1];
      Given(results[..|results| - 1], key, th, now) + (if r.key == key then [Act.Result(th, Outcome(r.ok, Blamed(r)), now)] else [])
  }

  function AcksOf(db: Db, client: ClientId): int {
    if client in db.clients then db.clients[client].lastAckSeq else 0
  }

  /** The results of a heartbeat's live cycle, none without one. */
  function LiveResults(db: Db, op: Op): seq<Result>
    requires op.Beat?
  {
    match LiveCycle(CleanedAll(Accepted(AcksOf(db, op.client), op.req.cycles), op.now, op.keys))
    case None => []
    case Some(live) => live.results
  }

  /** Why a heartbeat's config wants a target PAUSED, NoReason when it does not. */
  function Cause(op: Op, key: TargetKey): Reason
    requires op.Beat?
  {
    var inbound := InboundKey(key.kind, key.inbound);
    if key in Paths.RejectedOf(op.keys, op.req.rejected) then ConfigError
    else if key in op.keys || !op.excl.known || key.path !in op.excl.served then NoReason
    else if inbound !in op.excl.inbounds || !op.excl.inbounds[inbound] then NoReason
    else if key.path !in op.excl.paths then PathRemoved
    else if key.path == "proxy" && !op.excl.override then OverrideDisabled
    else NoProbeLink
  }

  /** The move a heartbeat owes a row of its mon-client before any result. */
  function ConfigMoves(op: Op, t: Target): seq<Act>
    requires op.Beat?
  {
    if Cause(op, t.key) != NoReason then (if t.state == Paused then [] else [Move(Paused, Cause(op, t.key), op.now)])
    else if t.state == Paused && t.key in op.keys && t.reason in {OverrideDisabled, PathRemoved, NoProbeLink, ConfigError} then [Move(Unknown, ConfigEnabled, op.now)]
    else []
  }

  /** The move a sync owes a row: paused when the panel lists its inbound as disabled or
      no longer lists an inbound it knew, resumed from that when it is enabled. */
  function SyncMoves(t: Target, live: map<InboundKey, bool>, known: set<InboundKey>, now: int): seq<Act> {
    var inbound := InboundKey(t.key.kind, t.key.inbound);
    if t.state != Paused && (if inbound in live then !live[inbound] else inbound in known) then [Move(Paused, ConfigDisabled, now)]
    else if t.state == Paused && t.reason == ConfigDisabled && inbound in live && live[inbound] then [Move(Unknown, ConfigEnabled, now)]
    else []
  }

  /** The move of a row whose mon-client has fallen silent: what it says is not known any
      more, unless nothing was, or it is PAUSED. */
  function SilenceMoves(t: Target, reason: Reason, now: int): seq<Act> {
    if t.state in {Up, Down, Flapping} then [Move(Unknown, reason, now)] else []
  }

  /** Everything an operation does to a row it leaves in the table. */
  function Due(db: Db, op: Op, t: Target): seq<Act> {
    match op
    case Beat(client, _, _, _, th, now) =>
      if t.client != client then []
      else
        var moves := ConfigMoves(op, t);
        var paused := if moves == [] then t.state == Paused else moves[0].to == Paused;
        moves + (if paused then [] else Given(LiveResults(db, op), t.key, th, now))
    case Inbounds(_, _, live, now) => SyncMoves(t, live, db.known, now)
    case GoSilent(silent, _, now) => if t.client in silent then SilenceMoves(t, MonClientOffline, now) else []
    case Disable(client, now) => if t.client == client then SilenceMoves(t, MonClientDisabled, now) else []
    case Revoke(client, now) => if t.client == client then SilenceMoves(t, MonClientRevoked, now) else []
    case _ => []
  }

  /** The rows an operation deletes. */
  predicate Leaves(db: Db, op: Op, t: Target) {
    match op
    case Beat(client, _, keys, excl, _, _) =>
      && t.client == client && t.key !in keys
      && ((t.state == Paused && InboundKey(t.key.kind, t.key.inbound) !in db.known) || (excl.known && t.key.path !in excl.served))
    case ServePaths(served) => t.key.path !in served
    case Delete(client) => t.client == client
    case _ => false
  }

  /** The targets a heartbeat gives a row when they have none: rejected ones, AWG ones
      the panel gave this mon-client no peer for, and those with a live result. */
  predicate Wants(db: Db, op: Op, key: TargetKey) {
    && op.Beat?
    && var inbound := InboundKey(key.kind, key.inbound);
       || key in Paths.RejectedOf(op.keys, op.req.rejected)
       || (&& key.kind == "awg" && key !in op.keys && op.excl.known && key.path in op.excl.served && key.path in op.excl.paths
           && inbound in op.excl.inbounds && op.excl.inbounds[inbound] && (key.path == "proxy" ==> op.excl.override))
       || exists r <- LiveResults(db, op) :: r.key == key
  }

  // ---- rows and the acts on them ----

  function PastOf(db: Db, id: nat): Past {
    if id in db.pasts then db.pasts[id] else Past(0, [])
  }

  function More(p: Past, acts: seq<Act>): Past {
    p.(acts := p.acts + acts)
  }

  const NO_ACTS: seq<Act> := []

  function ActsOf(decision: Option<Act>): seq<Act> {
    if decision.Some? then [decision.value] else []
  }

  /** The i-th row of b is the i-th row of a after these acts. */
  ghost predicate Becomes(a: Db, b: Db, i: nat, acts: seq<Act>) {
    && i < |a.targets| <= |b.targets|
    && b.targets[i] == Live(a.targets[i], acts).row
    && a.targets[i].id in b.pasts && b.pasts[a.targets[i].id] == More(PastOf(a, a.targets[i].id), acts)
  }

  /** The i-th row of b was created at now, and is what these acts made of it. */
  ghost predicate Born(b: Db, i: nat, now: int, acts: seq<Act>) {
    && i < |b.targets|
    && var u := b.targets[i];
       && u == Live(Fresh(u.id, u.client, u.key, now), acts).row
       && u.id in b.pasts && b.pasts[u.id] == Past(now, acts)
  }

  lemma {:induction false} LiveConcat(t: Target, xs: seq<Act>, ys: seq<Act>)
    ensures Live(t, xs + ys).row == Live(Live(t, xs).row, ys).row
    ensures Live(t, xs + ys).log == Live(t, xs).log + Live(Live(t, xs).row, ys).log
  {
    if ys == [] {
      assert xs + ys == xs;
    } else {
      var init, last := ys[..|ys| - 1], ys[|ys| - 1];
      hide Acted;
      LiveConcat(t, xs, init);
      assert (xs + ys)[..|xs + ys| - 1] == xs + init;
      Regroup(Live(t, xs).log, Live(Live(t, xs).row, init).log, Stamped(Acted(Live(t, xs + init).row, last).events, last.at));
    }
  }

  lemma OneAct(t: Target, act: Act)
    ensures Live(t, [act]).row == Acted(t, act).row && Live(t, []).row == t
    ensures Live(t, [act]).log == Stamped(Acted(t, act).events, act.at) && Live(t, []).log == []
  {
    hide Acted;
    assert [act][..0] == [];
    assert [] + Stamped(Acted(t, act).events, act.at) == Stamped(Acted(t, act).events, act.at);
  }

  lemma {:induction false} LiveKeepsIdentity(t: Target, acts: seq<Act>)
    ensures var u := Live(t, acts).row; u.id == t.id && u.client == t.client && u.key == t.key
  {
    if acts != [] {
      LiveKeepsIdentity(t, acts[..|acts| - 1]);
      ActKeepsIdentity(Live(t, acts[..|acts| - 1]).row, acts[|acts| - 1]);
    }
  }

  lemma BecomesChain(a: Db, b: Db, c: Db, i: nat, xs: seq<Act>, ys: seq<Act>)
    requires Becomes(a, b, i, xs) && Becomes(b, c, i, ys)
    ensures Becomes(a, c, i, xs + ys)
  {
    LiveConcat(a.targets[i], xs, ys);
    LiveKeepsIdentity(a.targets[i], xs);
    hide Live;
    Regroup(PastOf(a, a.targets[i].id).acts, xs, ys);
  }

  lemma BornBecomes(b: Db, c: Db, i: nat, now: int, xs: seq<Act>, ys: seq<Act>)
    requires Born(b, i, now, xs) && Becomes(b, c, i, ys)
    ensures Born(c, i, now, xs + ys) && c.targets[i].id == b.targets[i].id && c.targets[i].client == b.targets[i].client && c.targets[i].key == b.targets[i].key
  {
    var u := b.targets[i];
    LiveConcat(Fresh(u.id, u.client, u.key, now), xs, ys);
    LiveKeepsIdentity(u, ys);
    hide Live;
  }

  lemma StaysBecomes(a: Db, b: Db, i: nat)
    requires i < |a.targets| <= |b.targets| && b.targets[i] == a.targets[i]
    requires a.targets[i].id in a.pasts && a.targets[i].id in b.pasts && b.pasts[a.targets[i].id] == a.pasts[a.targets[i].id]
    ensures Becomes(a, b, i, [])
  {
    OneAct(a.targets[i], Move(Unknown, NoReason, 0));
    assert a.pasts[a.targets[i].id].acts + [] == a.pasts[a.targets[i].id].acts;
  }

  lemma RowsHavePasts(db: Db, i: nat)
    requires Explained(db) && i < |db.targets|
    ensures db.targets[i].id in db.pasts && db.targets[i].id < db.nextId
  {
    assert db.targets[i] in db.targets;
    assert RowExplained(db, db.targets[i]);
  }

  // ---- one row at a time ----

  lemma ActBecomes(db: Db, j: nat, act: Act, i: nat)
    requires Explained(db) && i < |db.targets| && j < |db.targets|
    ensures Becomes(db, ActOn(db, j, act), i, if i == j then [act] else [])
  {
    RowsHavePasts(db, i);
    ActKeepsIdentity(db.targets[j], act);
    OneAct(db.targets[i], act);
    hide Acted, Live;
    if i != j {
      assert Apart(db.targets[if i < j then i else j], db.targets[if i < j then j else i]);
      StaysBecomes(db, ActOn(db, j, act), i);
    }
  }

  lemma EnsureBecomes(db: Db, client: ClientId, key: TargetKey, now: int, i: nat)
    requires Explained(db) && i < |db.targets|
    ensures Becomes(db, EnsureRow(db, client, key, now), i, [])
  {
    RowsHavePasts(db, i);
    StaysBecomes(db, EnsureRow(db, client, key, now), i);
  }

  // ---- sweeps ----

  ghost predicate Remembers(a: Db, b: Db, id: nat, acts: seq<Act>) {
    id in a.pasts && id in b.pasts && b.pasts[id] == More(a.pasts[id], acts)
  }

  lemma MoveRemembers(a: Db, b: Db, decide: Target -> Option<Act>, m: nat, id: nat, acts: seq<Act>)
    requires m < |b.targets| && Remembers(a, b, id, acts)
    ensures Remembers(a, MonClients.MoveOne(b, decide, m), id, acts + (if b.targets[m].id == id then ActsOf(decide(b.targets[m])) else []))
  {
    var more := if b.targets[m].id == id then ActsOf(decide(b.targets[m])) else [];
    Regroup(a.pasts[id].acts, acts, more);
    assert acts + [] == acts;
  }

  lemma {:induction false} MovesRemember(db: Db, decide: Target -> Option<Act>, n: nat, i: nat)
    requires Ids(db) && n <= |db.targets| && i < |db.targets| && db.targets[i].id in db.pasts
    ensures Remembers(db, SweptTo(db, decide, n), db.targets[i].id, if i < n then ActsOf(decide(db.targets[i])) else [])
  {
    hide *;
    if n == 0 {
      NothingRemembered(db, decide, db.targets[i].id);
    } else {
      MovesRemember(db, decide, n - 1, i);
      MonClients.MovesStep(db, decide, n);
      OneRemembered(db, SweptTo(db, decide, n - 1), decide, n - 1, i);
    }
  }

  lemma OneRemembered(db: Db, before: Db, decide: Target -> Option<Act>, m: nat, i: nat)
    requires Ids(db) && m < |db.targets| == |before.targets| && i < |db.targets| && before.targets[m] == db.targets[m]
    requires Remembers(db, before, db.targets[i].id, if i < m then ActsOf(decide(db.targets[i])) else [])
    ensures Remembers(db, MonClients.MoveOne(before, decide, m), db.targets[i].id, if i < m + 1 then ActsOf(decide(db.targets[i])) else [])
  {
    hide MonClients.MoveOne, Remembers;
    var acts := if i < m then ActsOf(decide(db.targets[i])) else [];
    MoveRemembers(db, before, decide, m, db.targets[i].id, acts);
    assert acts + [] == acts && [] + ActsOf(decide(db.targets[i])) == ActsOf(decide(db.targets[i]));
    if i != m {
      IdsDiffer(db, i, m);
    }
  }

  lemma NothingRemembered(db: Db, decide: Target -> Option<Act>, id: nat)
    requires id in db.pasts
    ensures Remembers(db, SweptTo(db, decide, 0), id, [])
  {
    assert db.pasts[id].acts + [] == db.pasts[id].acts;
  }

  lemma IdsDiffer(db: Db, i: nat, j: nat)
    requires Ids(db) && i < |db.targets| && j < |db.targets| && i != j
    ensures db.targets[i].id != db.targets[j].id
    ensures db.targets[i].client != db.targets[j].client || db.targets[i].key != db.targets[j].key
  {
    assert Apart(db.targets[if i < j then i else j], db.targets[if i < j then j else i]);
  }

  lemma SweptBecomes(db: Db, s: Sweep, now: int, i: nat)
    requires Explained(db) && i < |db.targets|
    ensures Becomes(db, Swept(db, s, now), i, ActsOf(Decision(s, db.targets[i], now)))
  {
    RowsHavePasts(db, i);
    MovesRemember(db, DecisionOf(s, now), |db.targets|, i);
    SweptRow(db, s, now, i);
    var d := Decision(s, db.targets[i], now);
    OneAct(db.targets[i], if d.Some? then d.value else Move(Unknown, NoReason, 0));
  }

  // ---- a sync ----

  lemma {:induction false} VanishedBecomes(db: Db, gone: seq<InboundKey>, now: int, i: nat)
    requires Explained(db) && i < |db.targets| && Distinct(gone)
    ensures var t := db.targets[i];
            Becomes(db, Vanished(db, gone, now), i, if t.key.Inbound() in gone && t.state != Paused then [Move(Paused, ConfigDisabled, now)] else [])
  {
    if gone == [] {
      RowsHavePasts(db, i);
      StaysBecomes(db, db, i);
    } else {
      var t, init, k := db.targets[i], gone[..|gone| - 1], gone[|gone| - 1];
      var before := Vanished(db, init, now);
      assert gone == init + [k];
      VanishedBecomes(db, init, now, i);
      VanishKeeps(db, init, now);
      SweptBecomes(before, PauseInbound(k), now, i);
      var xs := if t.key.Inbound() in init && t.state != Paused then [Move(Paused, ConfigDisabled, now)] else [];
      MovesPause(t, xs, k, now, init);
      var ys := ActsOf(Decision(PauseInbound(k), before.targets[i], now));
      hide Live, Decision;
      BecomesChain(db, before, Swept(before, PauseInbound(k), now), i, xs, ys);
    }
  }

  lemma MovesPause(t: Target, xs: seq<Act>, k: InboundKey, now: int, init: seq<InboundKey>)
    requires k !in init && xs == if t.key.Inbound() in init && t.state != Paused then [Move(Paused, ConfigDisabled, now)] else []
    ensures var all := init + [k];
            xs + ActsOf(Decision(PauseInbound(k), Live(t, xs).row, now)) ==
            if t.key.Inbound() in all && t.state != Paused then [Move(Paused, ConfigDisabled, now)] else []
  {
    OneAct(t, Move(Paused, ConfigDisabled, now));
  }

  /** What visiting the listed inbounds does to a row. */
  function RefreshMoves(t: Target, order: seq<InboundKey>, live: map<InboundKey, bool>, now: int): seq<Act> {
    var inbound := t.key.Inbound();
    if inbound !in order then []
    else if inbound in live && live[inbound] then
      if t.state == Paused && t.reason == ConfigDisabled then [Move(Unknown, ConfigEnabled, now)] else []
    else if t.state != Paused then [Move(Paused, ConfigDisabled, now)]
    else []
  }

  lemma MovesRefresh(t: Target, xs: seq<Act>, k: InboundKey, live: map<InboundKey, bool>, now: int, init: seq<InboundKey>)
    requires k !in init && xs == RefreshMoves(t, init, live, now)
    ensures xs + ActsOf(Decision(RefreshOf(k, live), Live(t, xs).row, now)) == RefreshMoves(t, init + [k], live, now)
  {
    OneAct(t, if xs == [] then Move(Unknown, NoReason, 0) else xs[0]);
    if xs != [] {
      assert xs == [xs[0]];
      ActKeepsIdentity(t, xs[0]);
    }
  }

  lemma {:induction false} RefreshedBecomes(db: Db, order: seq<InboundKey>, live: map<InboundKey, bool>, now: int, i: nat)
    requires Explained(db) && i < |db.targets| && Distinct(order)
    ensures Becomes(db, Refreshed(db, order, live, now), i, RefreshMoves(db.targets[i], order, live, now))
  {
    if order == [] {
      RowsHavePasts(db, i);
      StaysBecomes(db, db, i);
    } else {
      var t, init, k := db.targets[i], order[..|order| - 1], order[|order| - 1];
      var before := Refreshed(db, init, live, now);
      assert order == init + [k];
      RefreshedBecomes(db, init, live, now, i);
      RefreshKeeps(db, init, live, now);
      var s := RefreshOf(k, live);
      SweptBecomes(before, s, now, i);
      var xs := RefreshMoves(t, init, live, now);
      MovesRefresh(t, xs, k, live, now, init);
      var ys := ActsOf(Decision(s, before.targets[i], now));
      hide Live, Decision, RefreshMoves;
      BecomesChain(db, before, Swept(before, s, now), i, xs, ys);
    }
  }

  /** A sync gives every row exactly the move it is owed. */
  lemma SyncGivesDue(db: Db, op: Op, i: nat)
    requires Explained(db) && op.Inbounds? && Enabled(db, op) && i < |db.targets|
    ensures Becomes(db, Next(db, op), i, SyncMoves(db.targets[i], op.live, db.known, op.now))
  {
    var t, now := db.targets[i], op.now;
    var mid := Vanished(db, op.gone, now);
    VanishedBecomes(db, op.gone, now, i);
    VanishKeeps(db, op.gone, now);
    var xs := if t.key.Inbound() in op.gone && t.state != Paused then [Move(Paused, ConfigDisabled, now)] else [];
    RefreshedBecomes(mid, op.order, op.live, now, i);
    var ys := RefreshMoves(mid.targets[i], op.order, op.live, now);
    MovesSync(t, op.gone, op.order, op.live, db.known, now, xs, mid.targets[i]);
    BecomesChain(db, mid, Next(db, op), i, xs, ys);
  }

  lemma MovesSync(t: Target, gone: seq<InboundKey>, order: seq<InboundKey>, live: map<InboundKey, bool>, known: set<InboundKey>, now: int, xs: seq<Act>, u: Target)
    requires Enumerates(gone, known - live.Keys) && Enumerates(order, live.Keys)
    requires xs == if t.key.Inbound() in gone && t.state != Paused then [Move(Paused, ConfigDisabled, now)] else []
    requires u == Live(t, xs).row
    ensures xs + RefreshMoves(u, order, live, now) == SyncMoves(t, live, known, now)
  {
    OneAct(t, Move(Paused, ConfigDisabled, now));
    LiveKeepsIdentity(t, xs);
  }

  // ---- silence ----

  lemma SilenceBecomes(db: Db, client: ClientId, reason: Reason, now: int, i: nat)
    requires Explained(db) && i < |db.targets|
    ensures Becomes(db, Swept(db, Silence(client, reason), now), i, if db.targets[i].client == client then SilenceMoves(db.targets[i], reason, now) else [])
  {
    SweptBecomes(db, Silence(client, reason), now, i);
  }

  lemma OtherTablesBecome(a: Db, b: Db, c: Db, i: nat, acts: seq<Act>)
    requires Becomes(b, c, i, acts) && a.targets == b.targets && a.pasts == b.pasts
    ensures Becomes(a, c, i, acts)
  {
  }

  lemma {:induction false} LostBecomes(db: Db, silent: seq<ClientId>, missed: nat, now: int, i: nat)
    requires Explained(db) && (forall c <- silent :: c in db.clients) && Distinct(silent) && i < |db.targets|
    ensures Becomes(db, LostAll(db, silent, missed, now), i, if db.targets[i].client in silent then SilenceMoves(db.targets[i], MonClientOffline, now) else [])
  {
    if silent == [] {
      RowsHavePasts(db, i);
      StaysBecomes(db, db, i);
    } else {
      var t, init, last := db.targets[i], silent[..|silent| - 1], silent[|silent| - 1];
      assert silent == init + [last];
      LostBecomes(db, init, missed, now, i);
      LossesKeep(db, init, missed, now);
      var before := LostAll(db, init, missed, now);
      LossBecomes(before, last, missed, now, i);
      var xs := if t.client in init then SilenceMoves(t, MonClientOffline, now) else [];
      var u := before.targets[i];
      var ys := if u.client == last then SilenceMoves(u, MonClientOffline, now) else [];
      MovesSilence(t, init, last, now, xs, u);
      hide Live, SilenceMoves;
      BecomesChain(db, before, Lost(before, last, missed, now), i, xs, ys);
    }
  }

  lemma MovesSilence(t: Target, init: seq<ClientId>, last: ClientId, now: int, xs: seq<Act>, u: Target)
    requires last !in init && xs == (if t.client in init then SilenceMoves(t, MonClientOffline, now) else []) && u == Live(t, xs).row
    ensures xs + (if u.client == last then SilenceMoves(u, MonClientOffline, now) else []) ==
            if t.client in init + [last] then SilenceMoves(t, MonClientOffline, now) else []
  {
    LiveKeepsIdentity(t, xs);
    OneAct(t, Move(Unknown, MonClientOffline, now));
  }

  lemma LossBecomes(db: Db, client: ClientId, missed: nat, now: int, i: nat)
    requires Explained(db) && client in db.clients && i < |db.targets|
    ensures Becomes(db, Lost(db, client, missed, now), i, if db.targets[i].client == client then SilenceMoves(db.targets[i], MonClientOffline, now) else [])
  {
    var e := ClientEntry(client, now, Some(Online), Offline, HeartbeatMissed);
    var offline := db.(clients := db.clients[client := db.clients[client].(state := Offline, missed := missed)], log := db.log + [e]);
    OtherTablesKeep(db, offline);
    SilenceBecomes(offline, client, MonClientOffline, now, i);
    OtherTablesBecome(db, offline, Lost(db, client, missed, now), i, if db.targets[i].client == client then SilenceMoves(db.targets[i], MonClientOffline, now) else []);
  }

  lemma CutBecomes(db: Db, client: ClientId, now: int, i: nat)
    requires Explained(db) && client in db.clients && i < |db.targets|
    ensures Becomes(db, Cut(db, client, now), i, if db.targets[i].client == client then SilenceMoves(db.targets[i], MonClientRevoked, now) else [])
  {
    var mc := db.clients[client];
    var e := ClientEntry(client, now, WireFrom(mc.state), Offline, TokenRevoked);
    var told := if mc.state == Offline then db else db.(log := db.log + [e]);
    OtherTablesKeep(db, told);
    SilenceBecomes(told, client, MonClientRevoked, now, i);
    OtherTablesBecome(db, told, Swept(told, Silence(client, MonClientRevoked), now), i, if db.targets[i].client == client then SilenceMoves(db.targets[i], MonClientRevoked, now) else []);
  }

  // ---- a heartbeat ----

  lemma CauseIsConfigPause(op: Op, key: TargetKey)
    requires op.Beat?
    ensures Cause(op, key) == ConfigPause(key, op.keys, Paths.RejectedOf(op.keys, op.req.rejected), op.excl)
  {
    Config.ReasonsAre(op.excl, key);
  }

  lemma ConfigBecomes(db: Db, op: Op, i: nat)
    requires Explained(db) && op.Beat? && i < |db.targets|
    ensures Becomes(db, Swept(db, Reconcile(op.client, op.keys, Paths.RejectedOf(op.keys, op.req.rejected), op.excl), op.now), i,
                    if db.targets[i].client == op.client then ConfigMoves(op, db.targets[i]) else [])
  {
    var s := Reconcile(op.client, op.keys, Paths.RejectedOf(op.keys, op.req.rejected), op.excl);
    SweptBecomes(db, s, op.now, i);
    CauseIsConfigPause(op, db.targets[i].key);
  }

  function OneGiven(res: Result, th: Thresholds, now: int): Act {
    Act.Result(th, Outcome(res.ok, Blamed(res)), now)
  }

  lemma ResultBecomes(db: Db, client: ClientId, res: Result, th: Thresholds, now: int, i: nat)
    requires Explained(db) && i < |db.targets|
    ensures var t := db.targets[i];
            Becomes(db, ResultApplied(db, client, res, th, now), i,
                    if t.client == client && t.key == res.key && t.state != Paused then [OneGiven(res, th, now)] else [])
  {
    var found := EnsureRow(db, client, res.key, now);
    var j := IndexOf(found.targets, client, res.key);
    EnsureBecomes(db, client, res.key, now, i);
    EnsureRowKeeps(db, client, res.key, now);
    if j < |found.targets| && j != i {
      IdsDiffer(found, i, j);
    }
    if j < |found.targets| && found.targets[j].state != Paused {
      ActBecomes(found, j, OneGiven(res, th, now), i);
      BecomesChain(db, found, ActOn(found, j, OneGiven(res, th, now)), i, [], if i == j then [OneGiven(res, th, now)] else []);
      assert [] + [OneGiven(res, th, now)] == [OneGiven(res, th, now)];
    }
  }

  lemma {:induction false} LiveStaysOpen(t: Target, results: seq<Result>, key: TargetKey, th: Thresholds, now: int)
    requires t.state != Paused
    ensures Live(t, Given(results, key, th, now)).row.state != Paused
  {
    if results != [] {
      var init, r := results[..|results| - 1], results[|results| - 1];
      LiveStaysOpen(t, init, key, th, now);
      LiveConcat(t, Given(init, key, th, now), [OneGiven(r, th, now)]);
      var u := Live(t, Given(init, key, th, now)).row;
      OneAct(u, OneGiven(r, th, now));
      StepStaysUnpaused(u, th, Outcome(r.ok, Blamed(r)), now);
      assert Given(init, key, th, now) + [] == Given(init, key, th, now);
    } else {
      OneAct(t, Move(Unknown, NoReason, 0));
    }
  }

  /** What a list of results gives a row. */
  function Owed(t: Target, client: ClientId, results: seq<Result>, th: Thresholds, now: int): seq<Act> {
    if t.client == client && t.state != Paused then Given(results, t.key, th, now) else []
  }

  lemma OwedStep(t: Target, client: ClientId, init: seq<Result>, res: Result, th: Thresholds, now: int)
    ensures var u := Live(t, Owed(t, client, init, th, now)).row;
            Owed(t, client, init + [res], th, now) ==
            Owed(t, client, init, th, now) + (if u.client == client && u.key == res.key && u.state != Paused then [OneGiven(res, th, now)] else [])
  {
    assert (init + [res])[..|init|] == init;
    LiveKeepsIdentity(t, Owed(t, client, init, th, now));
    if t.state != Paused {
      LiveStaysOpen(t, init, t.key, th, now);
    }
    OneAct(t, OneGiven(res, th, now));
  }

  lemma {:induction false} ResultsBecome(db: Db, client: ClientId, results: seq<Result>, th: Thresholds, now: int, i: nat)
    requires Explained(db) && i < |db.targets|
    ensures Becomes(db, ResultsApplied(db, client, results, th, now), i, Owed(db.targets[i], client, results, th, now))
  {
    if results == [] {
      RowsHavePasts(db, i);
      StaysBecomes(db, db, i);
    } else {
      var t, init, res := db.targets[i], results[..|results| - 1], results[|results| - 1];
      var before := ResultsApplied(db, client, init, th, now);
      assert results == init + [res];
      ResultsBecome(db, client, init, th, now, i);
      ResultsKeep(db, client, init, th, now);
      ResultBecomes(before, client, res, th, now, i);
      OwedStep(t, client, init, res, th, now);
      hide Live, Owed;
      var u := before.targets[i];
      BecomesChain(db, before, ResultApplied(before, client, res, th, now), i, Owed(t, client, init, th, now),
                   if u.client == client && u.key == res.key && u.state != Paused then [OneGiven(res, th, now)] else []);
    }
  }

  // ---- new rows ----

  /** The i-th row of b is new since a, for a target that had no row there. */
  ghost predicate Appears(a: Db, b: Db, i: nat, client: ClientId, now: int, acts: seq<Act>) {
    && |a.targets| <= i < |b.targets| && Born(b, i, now, acts)
    && b.targets[i].client == client && b.targets[i].id >= a.nextId && !HasRow(a, client, b.targets[i].key)
  }

  lemma AppearsBecomes(a: Db, b: Db, c: Db, i: nat, client: ClientId, now: int, xs: seq<Act>, ys: seq<Act>)
    requires Appears(a, b, i, client, now, xs) && Becomes(b, c, i, ys)
    ensures Appears(a, c, i, client, now, xs + ys) && c.targets[i].key == b.targets[i].key
  {
    BornBecomes(b, c, i, now, xs, ys);
  }

  lemma EnsureAppears(a: Db, before: Db, client: ClientId, key: TargetKey, now: int)
    requires Explained(before) && a.nextId <= before.nextId && |a.targets| <= |before.targets|
    requires !HasRow(before, client, key) && (HasRow(a, client, key) ==> HasRow(before, client, key))
    ensures var found := EnsureRow(before, client, key, now);
            var i := |before.targets|;
            i < |found.targets| && Appears(a, found, i, client, now, []) && found.targets[i].key == key && found.targets[i].state != Paused
  {
    HasRowIndex(before, client, key);
    OneAct(Fresh(before.nextId, client, key, now), Move(Unknown, NoReason, 0));
  }

  lemma {:induction false} EnsuredAppear(db: Db, client: ClientId, keys: seq<TargetKey>, now: int, i: nat)
    requires Explained(db) && |db.targets| <= i < |EnsureRows(db, client, keys, now).targets|
    ensures var after := EnsureRows(db, client, keys, now);
            Appears(db, after, i, client, now, []) && after.targets[i].key in keys
  {
    if keys != [] {
      var init, last := keys[..|keys| - 1], keys[|keys| - 1];
      var before := EnsureRows(db, client, init, now);
      assert keys == init + [last];
      EnsureRowsKeep(db, client, init, now);
      if i < |before.targets| {
        EnsuredAppear(db, client, init, now, i);
        EnsureBecomes(before, client, last, now, i);
        AppearsBecomes(db, before, EnsureRow(before, client, last, now), i, client, now, [], []);
        assert NO_ACTS + NO_ACTS == NO_ACTS;
      } else {
        EnsuredRows(db, client, init, now);
        HasRowIndex(before, client, last);
        EnsureAppears(db, before, client, last, now);
      }
    }
  }

  lemma {:induction false} EnsuredBecome(db: Db, client: ClientId, keys: seq<TargetKey>, now: int, i: nat)
    requires Explained(db) && i < |db.targets|
    ensures Becomes(db, EnsureRows(db, client, keys, now), i, [])
  {
    if keys == [] {
      RowsHavePasts(db, i);
      StaysBecomes(db, db, i);
    } else {
      var init, last := keys[..|keys| - 1], keys[|keys| - 1];
      EnsuredBecome(db, client, init, now, i);
      EnsureRowsKeep(db, client, init, now);
      EnsureBecomes(EnsureRows(db, client, init, now), client, last, now, i);
      BecomesChain(db, EnsureRows(db, client, init, now), EnsureRows(db, client, keys, now), i, [], []);
      assert NO_ACTS + NO_ACTS == NO_ACTS;
    }
  }

  lemma {:induction false} GivenNothing(results: seq<Result>, key: TargetKey, th: Thresholds, now: int)
    requires forall r <- results :: r.key != key
    ensures Given(results, key, th, now) == []
  {
    if results != [] {
      var init := results[..|results| - 1];
      assert results[|results| - 1] in results && forall r <- init :: r in results;
      GivenNothing(init, key, th, now);
    }
  }

  lemma EnsureKeepsRows(db: Db, client: ClientId, key: TargetKey, now: int, k: TargetKey)
    ensures var found := EnsureRow(db, client, key, now);
            && db.nextId <= found.nextId && |db.targets| <= |found.targets|
            && (HasRow(db, client, k) ==> HasRow(found, client, k)) && HasRow(found, client, key)
  {
    var found := EnsureRow(db, client, key, now);
    HasRowIndex(db, client, key);
    if IndexOf(db.targets, client, key) == |db.targets| {
      assert found.targets[|db.targets|] in found.targets;
    }
    if HasRow(db, client, k) {
      HasRowSurvives(db, found, client, k);
    }
  }

  lemma ActKeepsRows(db: Db, j: nat, act: Act, client: ClientId, k: TargetKey)
    requires j < |db.targets| && HasRow(db, client, k)
    ensures HasRow(ActOn(db, j, act), client, k)
  {
    ActKeepsIdentity(db.targets[j], act);
    hide Acted;
    HasRowSurvives(db, ActOn(db, j, act), client, k);
  }

  lemma ResultKeepsRows(db: Db, client: ClientId, res: Result, th: Thresholds, now: int, key: TargetKey)
    ensures var after := ResultApplied(db, client, res, th, now);
            && db.nextId <= after.nextId && |db.targets| <= |after.targets|
            && (HasRow(db, client, key) ==> HasRow(after, client, key))
            && HasRow(after, client, res.key)
  {
    EnsureKeepsRows(db, client, res.key, now, key);
    var found := EnsureRow(db, client, res.key, now);
    var j := IndexOf(found.targets, client, res.key);
    if j < |found.targets| && found.targets[j].state != Paused {
      var act := Act.Result(th, OutcomeOf(res.ok, res.reason), now);
      ActKeepsRows(found, j, act, client, res.key);
      if HasRow(db, client, key) {
        ActKeepsRows(found, j, act, client, key);
      }
    }
  }

  lemma {:induction false} ResultsHaveRows(db: Db, client: ClientId, results: seq<Result>, th: Thresholds, now: int, key: TargetKey)
    requires Explained(db)
    ensures var after := ResultsApplied(db, client, results, th, now);
            && db.nextId <= after.nextId && |db.targets| <= |after.targets|
            && (HasRow(db, client, key) ==> HasRow(after, client, key))
            && (forall r <- results :: r.key == key ==> HasRow(after, client, key))
  {
    if results != [] {
      var init, res := results[..|results| - 1], results[|results| - 1];
      assert results == init + [res];
      ResultsHaveRows(db, client, init, th, now, key);
      ResultsKeep(db, client, init, th, now);
      ResultKeepsRows(ResultsApplied(db, client, init, th, now), client, res, th, now, key);
    }
  }

  lemma {:induction false} ResultsAppear(db: Db, client: ClientId, results: seq<Result>, th: Thresholds, now: int, i: nat)
    requires Explained(db) && |db.targets| <= i < |ResultsApplied(db, client, results, th, now).targets|
    ensures var after := ResultsApplied(db, client, results, th, now);
            && Appears(db, after, i, client, now, Given(results, after.targets[i].key, th, now))
            && after.targets[i].state != Paused && exists r <- results :: r.key == after.targets[i].key
  {
    if results != [] {
      var init, res := results[..|results| - 1], results[|results| - 1];
      var before, after := ResultsApplied(db, client, init, th, now), ResultsApplied(db, client, results, th, now);
      assert results == init + [res];
      ResultsKeep(db, client, init, th, now);
      if i < |before.targets| {
        ResultsAppear(db, client, init, th, now, i);
        var k := before.targets[i].key;
        ResultBecomes(before, client, res, th, now, i);
        var more := if k == res.key then [OneGiven(res, th, now)] else [];
        AppearsBecomes(db, before, after, i, client, now, Given(init, k, th, now), more);
        OneStaysOpen(before.targets[i], res, th, now);
        OneAct(before.targets[i], OneGiven(res, th, now));
        var r :| r in init && r.key == k;
        assert r in results;
      } else {
        NewIsGiven(db, before, client, init, res, th, now, i);
      }
    }
  }

  lemma OneStaysOpen(t: Target, res: Result, th: Thresholds, now: int)
    requires t.state != Paused
    ensures Live(t, [OneGiven(res, th, now)]).row.state != Paused
  {
    OneAct(t, OneGiven(res, th, now));
    StepStaysUnpaused(t, th, Outcome(res.ok, Blamed(res)), now);
  }

  /** The row the last result of a list is the first to need. */
  lemma NewIsGiven(db: Db, before: Db, client: ClientId, init: seq<Result>, res: Result, th: Thresholds, now: int, i: nat)
    requires Explained(db) && before == ResultsApplied(db, client, init, th, now) && Explained(before)
    requires |before.targets| <= i < |ResultApplied(before, client, res, th, now).targets|
    ensures var after := ResultApplied(before, client, res, th, now);
            && Appears(db, after, i, client, now, Given(init + [res], after.targets[i].key, th, now))
            && after.targets[i].state != Paused && exists r <- init + [res] :: r.key == after.targets[i].key
  {
    var found, act := EnsureRow(before, client, res.key, now), OneGiven(res, th, now);
    NewIsFirst(db, before, client, init, res, th, now, i);
    assert (init + [res])[..|init|] == init && res in init + [res];
    GivenNothing(init, res.key, th, now);
    EnsureRowKeeps(before, client, res.key, now);
    hide ResultsApplied, EnsureRow, Appears, Live, Explained, ActOn;
    ActBecomes(found, i, act, i);
    AppearsBecomes(db, found, ActOn(found, i, act), i, client, now, [], [act]);
    assert NO_ACTS + [act] == [act];
    OneStaysOpen(found.targets[i], res, th, now);
  }

  lemma NewIsFirst(db: Db, before: Db, client: ClientId, init: seq<Result>, res: Result, th: Thresholds, now: int, i: nat)
    requires Explained(db) && before == ResultsApplied(db, client, init, th, now) && Explained(before)
    requires |before.targets| <= i < |ResultApplied(before, client, res, th, now).targets|
    ensures forall r <- init :: r.key != res.key
    ensures var found := EnsureRow(before, client, res.key, now);
            && i < |found.targets| && Appears(db, found, i, client, now, []) && found.targets[i].key == res.key && found.targets[i].state != Paused
            && ResultApplied(before, client, res, th, now) == ActOn(found, i, OneGiven(res, th, now))
  {
    var found := EnsureRow(before, client, res.key, now);
    HasRowIndex(before, client, res.key);
    ResultsHaveRows(db, client, init, th, now, res.key);
    hide ResultsApplied, ActOn, Explained;
    EnsureAppears(db, before, client, res.key, now);
    assert IsRowOf(found.targets[i], client, res.key) && IndexOf(found.targets, client, res.key) == i;
  }

  // ---- the whole heartbeat ----

  /** The tables of a heartbeat once the rows that leave are gone. */
  ghost function Cleared(db: Db, op: Op): Db
    requires op.Beat? && Enabled(db, op)
  {
    var greeted := Greeted(db, op.client, AckOf(db.clients[op.client].lastAckSeq, op.req.cycles), op.now);
    Purged(Purged(greeted, Retired(op.client, op.keys, db.known)), OutOfConfig(op.client, op.keys, op.excl))
  }

  lemma ClearedKeeps(db: Db, op: Op)
    requires Explained(db) && op.Beat? && Enabled(db, op)
    ensures var c := Cleared(db, op);
            && Explained(c) && c.nextId == db.nextId && c.pasts == db.pasts && c.known == db.known
            && forall t :: t in c.targets <==> t in db.targets && !Leaves(db, op, t)
  {
    var ack := AckOf(db.clients[op.client].lastAckSeq, op.req.cycles);
    var greeted := Greeted(db, op.client, ack, op.now);
    GreetKeeps(db, op.client, ack, op.now);
    var retired := Purged(greeted, Retired(op.client, op.keys, db.known));
    PurgeKeeps(greeted, Retired(op.client, op.keys, db.known));
    PurgeKeeps(retired, OutOfConfig(op.client, op.keys, op.excl));
  }

  ghost function Ensured(db: Db, op: Op): Db
    requires op.Beat? && Enabled(db, op)
  {
    EnsureRows(Cleared(db, op), op.client, Missing(op.keys, Paths.RejectedOf(op.keys, op.req.rejected), op.excl), op.now)
  }

  ghost function Configured(db: Db, op: Op): Db
    requires op.Beat? && Enabled(db, op)
  {
    Swept(Ensured(db, op), Reconcile(op.client, op.keys, Paths.RejectedOf(op.keys, op.req.rejected), op.excl), op.now)
  }

  ghost function Applied(db: Db, op: Op): Db
    requires op.Beat? && Enabled(db, op)
  {
    ResultsApplied(Configured(db, op), op.client, LiveResults(db, op), op.th, op.now)
  }

  lemma BeatIsItsStages(db: Db, op: Op)
    requires op.Beat? && Enabled(db, op)
    ensures var a := Applied(db, op); Next(db, op).targets == a.targets && Next(db, op).pasts == a.pasts && Next(db, op).nextId == a.nextId
  {
    hide SweptTo, EnsureRows, Left, Accepted, CleanedAll, LiveCycle, AckOf, Missing, Paths.RejectedOf;
  }

  lemma StagesKeep(db: Db, op: Op)
    requires Explained(db) && op.Beat? && Enabled(db, op)
    ensures Explained(Cleared(db, op)) && Explained(Ensured(db, op)) && Explained(Configured(db, op))
  {
    ClearedKeeps(db, op);
    hide Cleared;
    var rejected := Paths.RejectedOf(op.keys, op.req.rejected);
    EnsureRowsKeep(Cleared(db, op), op.client, Missing(op.keys, rejected, op.excl), op.now);
    SweepKeeps(Ensured(db, op), Reconcile(op.client, op.keys, rejected, op.excl), op.now);
  }

  /** A row that stays is given its config's move, and then its results unless PAUSED. */
  lemma StayingGetsDue(db: Db, op: Op, i: nat)
    requires Explained(db) && op.Beat? && Enabled(db, op) && i < |Cleared(db, op).targets|
    ensures Becomes(Cleared(db, op), Applied(db, op), i, Due(db, op, Cleared(db, op).targets[i]))
  {
    var c, t := Cleared(db, op), Cleared(db, op).targets[i];
    var rejected := Paths.RejectedOf(op.keys, op.req.rejected);
    StagesKeep(db, op);
    EnsuredBecome(c, op.client, Missing(op.keys, rejected, op.excl), op.now, i);
    OneAct(t, Move(Unknown, NoReason, 0));
    hide Cleared, Applied, Due;
    ConfigBecomes(Ensured(db, op), op, i);
    var moves := if t.client == op.client then ConfigMoves(op, t) else [];
    assert NO_ACTS + moves == moves;
    BecomesChain(c, Ensured(db, op), Configured(db, op), i, [], moves);
    ResultsGiveDue(db, op, c, t, moves, i);
  }

  lemma ResultsGiveDue(db: Db, op: Op, c: Db, t: Target, moves: seq<Act>, i: nat)
    requires op.Beat? && Enabled(db, op) && Explained(Configured(db, op)) && i < |c.targets| && t == c.targets[i]
    requires moves == if t.client == op.client then ConfigMoves(op, t) else []
    requires Becomes(c, Configured(db, op), i, moves)
    ensures Becomes(c, Applied(db, op), i, Due(db, op, t))
  {
    var live := LiveResults(db, op);
    ResultsBecome(Configured(db, op), op.client, live, op.th, op.now, i);
    MovedState(t, moves);
    LiveKeepsIdentity(t, moves);
    var u := Configured(db, op).targets[i];
    DueIs(db, op, t, moves, u);
    hide Configured, Applied, Owed, Due, Live, LiveResults;
    BecomesChain(c, Configured(db, op), Applied(db, op), i, moves, Owed(u, op.client, live, op.th, op.now));
  }

  lemma DueIs(db: Db, op: Op, t: Target, moves: seq<Act>, u: Target)
    requires op.Beat? && moves == if t.client == op.client then ConfigMoves(op, t) else []
    requires u.client == t.client && u.key == t.key && u.state == if moves == [] then t.state else moves[0].to
    ensures moves + Owed(u, op.client, LiveResults(db, op), op.th, op.now) == Due(db, op, t)
  {
  }

  lemma MovedState(t: Target, moves: seq<Act>)
    requires |moves| <= 1 && forall m <- moves :: m.Move?
    ensures Live(t, moves).row.state == if moves == [] then t.state else moves[0].to
  {
    if moves != [] {
      assert moves == [moves[0]] && moves[0] in moves;
      OneAct(t, moves[0]);
    }
  }

  lemma LiveKeysAreKnown(db: Db, op: Op)
    requires op.Beat?
    ensures forall r <- LiveResults(db, op) :: r.key in op.keys
  {
    var cycles := Accepted(AcksOf(db, op.client), op.req.cycles);
    var cleaned := CleanedAll(cycles, op.now, op.keys);
    if LiveCycle(cleaned).Some? {
      var i :| 0 <= i < |cleaned| && cleaned[i] == LiveCycle(cleaned).value;
      assert cleaned[i] == Cleaned(cycles[i], op.now, op.keys);
    }
  }

  lemma MissingAreWanted(db: Db, op: Op, key: TargetKey)
    requires op.Beat?
    ensures key in Missing(op.keys, Paths.RejectedOf(op.keys, op.req.rejected), op.excl) ==> Wants(db, op, key) && Cause(op, key) != NoReason
    ensures Wants(db, op, key) ==>
              || key in Missing(op.keys, Paths.RejectedOf(op.keys, op.req.rejected), op.excl)
              || exists r <- LiveResults(db, op) :: r.key == key
  {
    MissingMembers(op.keys, Paths.RejectedOf(op.keys, op.req.rejected), op.excl);
    Config.ExpectedAre(op.excl, "awg", key);
    Config.ReasonsAre(op.excl, key);
    hide Missing, Config.ExpectedOf, Config.Reason, LiveResults;
  }

  lemma ConfiguredHasMissing(db: Db, op: Op, key: TargetKey)
    requires op.Beat? && Enabled(db, op)
    ensures key in Missing(op.keys, Paths.RejectedOf(op.keys, op.req.rejected), op.excl) ==> HasRow(Configured(db, op), op.client, key)
    ensures HasRow(Cleared(db, op), op.client, key) ==> HasRow(Configured(db, op), op.client, key)
    ensures Cleared(db, op).nextId <= Configured(db, op).nextId && |Cleared(db, op).targets| <= |Configured(db, op).targets| == |Ensured(db, op).targets|
  {
    var rejected := Paths.RejectedOf(op.keys, op.req.rejected);
    var missing, c, e := Missing(op.keys, rejected, op.excl), Cleared(db, op), Ensured(db, op);
    EnsuredRows(c, op.client, missing, op.now);
    EnsuredGrow(c, op.client, missing, op.now);
    SweptIdentity(e, Reconcile(op.client, op.keys, rejected, op.excl), op.now);
    hide Cleared, EnsureRows, SweptTo, Missing;
    if HasRow(c, op.client, key) {
      var t :| t in c.targets && IsRowOf(t, op.client, key);
      assert t in e.targets;
    }
    if HasRow(e, op.client, key) {
      HasRowSurvives(e, Configured(db, op), op.client, key);
    }
  }

  lemma {:induction false} EnsuredGrow(db: Db, client: ClientId, keys: seq<TargetKey>, now: int)
    ensures |db.targets| <= |EnsureRows(db, client, keys, now).targets|
  {
    if keys != [] {
      EnsuredGrow(db, client, keys[..|keys| - 1], now);
    }
  }

  /** A row made to be paused is paused at once. */
  lemma MissingIsPaused(db: Db, op: Op, i: nat)
    requires Explained(db) && op.Beat? && Enabled(db, op) && |Cleared(db, op).targets| <= i < |Ensured(db, op).targets|
    ensures var v := Ensured(db, op).targets[i];
            && v == Fresh(v.id, v.client, v.key, op.now) && v.client == op.client
            && Appears(Cleared(db, op), Configured(db, op), i, op.client, op.now, ConfigMoves(op, v)) && Wants(db, op, v.key)
            && SameRow(Configured(db, op).targets[i], v)
  {
    var c, e := Cleared(db, op), Ensured(db, op);
    var missing := Missing(op.keys, Paths.RejectedOf(op.keys, op.req.rejected), op.excl);
    StagesKeep(db, op);
    EnsuredAppear(c, op.client, missing, op.now, i);
    hide Cleared, Missing, EnsureRows, Explained;
    var v := e.targets[i];
    OneAct(Fresh(v.id, v.client, v.key, op.now), Move(Unknown, NoReason, 0));
    MissingAreWanted(db, op, v.key);
    ConfigBecomes(e, op, i);
    hide Ensured, Wants, ConfigMoves, Becomes, Appears;
    var moves := ConfigMoves(op, v);
    AppearsBecomes(c, e, Configured(db, op), i, op.client, op.now, [], moves);
    assert NO_ACTS + moves == moves;
  }

  lemma MissingGetsDue(db: Db, op: Op, i: nat)
    requires Explained(db) && op.Beat? && Enabled(db, op) && |Cleared(db, op).targets| <= i < |Ensured(db, op).targets|
    ensures i < |Applied(db, op).targets|
    ensures var u := Applied(db, op).targets[i];
            Appears(Cleared(db, op), Applied(db, op), i, op.client, op.now, Due(db, op, Fresh(u.id, u.client, u.key, op.now))) && Wants(db, op, u.key)
  {
    MissingIsPaused(db, op, i);
    StagesKeep(db, op);
    var v := Ensured(db, op).targets[i];
    hide Cleared, Ensured, Applied, Due, Wants, ConfigMoves, Configured;
    NewGetsDue(db, op, Cleared(db, op), i, v);
  }

  lemma NewGetsDue(db: Db, op: Op, c: Db, i: nat, v: Target)
    requires op.Beat? && Enabled(db, op) && Explained(Configured(db, op)) && v == Fresh(v.id, v.client, v.key, op.now) && v.client == op.client
    requires i < |Configured(db, op).targets| && SameRow(Configured(db, op).targets[i], v)
    requires Appears(c, Configured(db, op), i, op.client, op.now, ConfigMoves(op, v))
    ensures i < |Applied(db, op).targets| && SameRow(Applied(db, op).targets[i], v)
    ensures Appears(c, Applied(db, op), i, op.client, op.now, Due(db, op, v))
  {
    var u, live, moves := Configured(db, op).targets[i], LiveResults(db, op), ConfigMoves(op, v);
    MovedState(v, moves);
    DueIs(db, op, v, moves, u);
    ResultsBecome(Configured(db, op), op.client, live, op.th, op.now, i);
    var owed := Owed(u, op.client, live, op.th, op.now);
    LiveKeepsIdentity(u, owed);
    hide Configured, Applied, Due, ConfigMoves, Owed, LiveResults, Live;
    AppearsBecomes(c, Configured(db, op), Applied(db, op), i, op.client, op.now, moves, owed);
  }

  predicate SameRow(t: Target, u: Target) {
    t.id == u.id && t.client == u.client && t.key == u.key
  }

  /** A target reported without a row is one its config neither rejects nor pauses. */
  lemma ReportedIsOpen(db: Db, op: Op, key: TargetKey)
    requires op.Beat? && Enabled(db, op) && !HasRow(Configured(db, op), op.client, key)
    requires exists r <- LiveResults(db, op) :: r.key == key
    ensures Cause(op, key) == NoReason && !HasRow(Cleared(db, op), op.client, key) && Wants(db, op, key)
  {
    ConfiguredHasMissing(db, op, key);
    LiveKeysAreKnown(db, op);
    RejectedAreMissing(op, key);
    hide Configured, Cleared, LiveResults, Missing;
  }

  /** A row made for a result is given its results. */
  lemma ReportedGetsDue(db: Db, op: Op, i: nat)
    requires Explained(db) && op.Beat? && Enabled(db, op) && |Ensured(db, op).targets| <= i < |Applied(db, op).targets|
    ensures var u := Applied(db, op).targets[i];
            Appears(Cleared(db, op), Applied(db, op), i, op.client, op.now, Due(db, op, Fresh(u.id, u.client, u.key, op.now))) && Wants(db, op, u.key)
  {
    StagesKeep(db, op);
    var u := Applied(db, op).targets[i];
    ConfiguredHasMissing(db, op, u.key);
    hide Cleared, Ensured, Configured, Wants, Due, Explained, Born, Missing, LiveResults, Given, ConfigMoves;
    var live := LiveResults(db, op);
    ResultsAppear(Configured(db, op), op.client, live, op.th, op.now, i);
    ReportedIsOpen(db, op, u.key);
    hide Applied, ResultsApplied;
    ReportedDue(db, op, Fresh(u.id, u.client, u.key, op.now));
    AppearsEarlier(Cleared(db, op), Configured(db, op), Applied(db, op), i, op.client, op.now, Given(live, u.key, op.th, op.now));
  }

  lemma ReportedDue(db: Db, op: Op, born: Target)
    requires op.Beat? && born.client == op.client && born.state == Unknown && Cause(op, born.key) == NoReason
    ensures Due(db, op, born) == Given(LiveResults(db, op), born.key, op.th, op.now)
  {
    assert NO_ACTS + Given(LiveResults(db, op), born.key, op.th, op.now) == Given(LiveResults(db, op), born.key, op.th, op.now);
  }

  lemma AppearsEarlier(a: Db, b: Db, c: Db, i: nat, client: ClientId, now: int, acts: seq<Act>)
    requires Appears(b, c, i, client, now, acts) && a.nextId <= b.nextId && |a.targets| <= |b.targets|
    requires !HasRow(a, client, c.targets[i].key)
    ensures Appears(a, c, i, client, now, acts)
  {
  }

  lemma RejectedAreMissing(op: Op, key: TargetKey)
    requires op.Beat?
    ensures key in Paths.RejectedOf(op.keys, op.req.rejected) ==> key in Missing(op.keys, Paths.RejectedOf(op.keys, op.req.rejected), op.excl)
  {
    MissingMembers(op.keys, Paths.RejectedOf(op.keys, op.req.rejected), op.excl);
  }

  lemma WantedHaveRows(db: Db, op: Op, key: TargetKey)
    requires Explained(db) && op.Beat? && Enabled(db, op) && Wants(db, op, key)
    ensures HasRow(Next(db, op), op.client, key)
  {
    StagesKeep(db, op);
    BeatIsItsStages(db, op);
    ConfiguredHasMissing(db, op, key);
    MissingAreWanted(db, op, key);
    hide Cleared, Ensured, Configured, Next, LiveResults, Missing, Wants;
    ResultsHaveRows(Configured(db, op), op.client, LiveResults(db, op), op.th, op.now, key);
  }

  // ---- every operation ----

  /** Row u of the tables after an operation is an old row, of a target that stays, with
      the acts due to it; or a heartbeat's new row of a wanted target without one. */
  ghost predicate Accounted(db: Db, op: Op, after: Db, u: Target) {
    && u.id in after.pasts
    && if u.id < db.nextId then exists t :: Continues(db, op, after, t, u)
       else
         && op.Beat? && u.client == op.client && Wants(db, op, u.key)
         && (forall t <- db.targets :: IsRowOf(t, u.client, u.key) ==> Leaves(db, op, t))
         && var born := Fresh(u.id, u.client, u.key, op.now);
            u == Live(born, Due(db, op, born)).row && after.pasts[u.id] == Past(op.now, Due(db, op, born))
  }

  ghost predicate Continues(db: Db, op: Op, after: Db, t: Target, u: Target) {
    && t in db.targets && SameRow(t, u) && !Leaves(db, op, t)
    && t.id in db.pasts && u.id in after.pasts
    && u == Live(t, Due(db, op, t)).row && after.pasts[u.id] == More(db.pasts[t.id], Due(db, op, t))
  }

  lemma BecomingContinues(db: Db, op: Op, c: Db, after: Db, i: nat)
    requires i < |c.targets| && Becomes(c, after, i, Due(db, op, c.targets[i]))
    requires c.targets[i] in db.targets && !Leaves(db, op, c.targets[i]) && c.pasts == db.pasts && c.targets[i].id in db.pasts
    ensures Continues(db, op, after, c.targets[i], after.targets[i])
  {
    LiveKeepsIdentity(c.targets[i], Due(db, op, c.targets[i]));
  }

  /** Where no row is deleted or made, the due of each index is the due of the row. */
  lemma SteadyIsAccounted(db: Db, op: Op, after: Db)
    requires Explained(db) && |after.targets| == |db.targets|
    requires forall t <- db.targets :: !Leaves(db, op, t)
    requires forall i :: 0 <= i < |db.targets| ==> Becomes(db, after, i, Due(db, op, db.targets[i]))
    ensures forall u <- after.targets :: Accounted(db, op, after, u)
    ensures forall t <- db.targets :: exists u <- after.targets :: u.id == t.id
  {
    forall i | 0 <= i < |db.targets| ensures Accounted(db, op, after, after.targets[i]) && after.targets[i].id == db.targets[i].id && after.targets[i] in after.targets {
      RowsHavePasts(db, i);
      assert db.targets[i] in db.targets;
      BecomingContinues(db, op, db, after, i);
    }
    forall t | t in db.targets ensures exists u <- after.targets :: u.id == t.id {
      var i :| 0 <= i < |db.targets| && db.targets[i] == t;
      assert after.targets[i] in after.targets;
    }
  }

  /** Where rows are only deleted, what stays is as it was. */
  lemma PurgedIsAccounted(db: Db, op: Op, after: Db)
    requires Explained(db) && after.pasts == db.pasts && (forall t :: Due(db, op, t) == [])
    requires forall t :: t in after.targets <==> t in db.targets && !Leaves(db, op, t)
    ensures forall u <- after.targets :: Accounted(db, op, after, u)
  {
    forall u | u in after.targets ensures Accounted(db, op, after, u) {
      var i :| 0 <= i < |db.targets| && db.targets[i] == u;
      RowsHavePasts(db, i);
      OneAct(u, Move(Unknown, NoReason, 0));
      assert db.pasts[u.id].acts + [] == db.pasts[u.id].acts;
      assert Continues(db, op, after, u, u);
    }
  }

  lemma BeatIsAccounted(db: Db, op: Op)
    requires Explained(db) && op.Beat? && Enabled(db, op)
    ensures forall u <- Next(db, op).targets :: Accounted(db, op, Next(db, op), u)
    ensures forall t <- db.targets :: !Leaves(db, op, t) ==> exists u <- Next(db, op).targets :: u.id == t.id
  {
    var c, a := Cleared(db, op), Applied(db, op);
    ClearedKeeps(db, op);
    BeatIsItsStages(db, op);
    SizesGrow(db, op);
    hide Cleared, Applied, Next, Accounted, Due, Leaves, Wants, Explained;
    forall i | 0 <= i < |a.targets| ensures Accounted(db, op, Next(db, op), a.targets[i]) {
      RowIsAccounted(db, op, i);
    }
    forall t | t in db.targets && !Leaves(db, op, t) ensures exists u <- a.targets :: u.id == t.id {
      var i :| 0 <= i < |c.targets| && c.targets[i] == t;
      StayingGetsDue(db, op, i);
      LiveKeepsIdentity(t, Due(db, op, t));
      assert a.targets[i] in a.targets;
    }
  }

  lemma SizesGrow(db: Db, op: Op)
    requires Explained(db) && op.Beat? && Enabled(db, op)
    ensures |Cleared(db, op).targets| <= |Ensured(db, op).targets| <= |Applied(db, op).targets|
  {
    var key := TargetKey("", 0, "");
    ConfiguredHasMissing(db, op, key);
    StagesKeep(db, op);
    hide Cleared, Ensured, Configured, LiveResults;
    ResultsHaveRows(Configured(db, op), op.client, LiveResults(db, op), op.th, op.now, key);
  }

  lemma RowIsAccounted(db: Db, op: Op, i: nat)
    requires Explained(db) && op.Beat? && Enabled(db, op) && i < |Applied(db, op).targets|
    ensures Accounted(db, op, Next(db, op), Applied(db, op).targets[i])
  {
    var c, a, u := Cleared(db, op), Applied(db, op), Applied(db, op).targets[i];
    ClearedKeeps(db, op);
    BeatIsItsStages(db, op);
    SizesGrow(db, op);
    if i < |c.targets| {
      StayingGetsDue(db, op, i);
      RowsHavePasts(c, i);
      hide Cleared, Applied, Next, Due, Leaves, Explained;
      assert c.targets[i] in c.targets;
      BecomingContinues(db, op, c, a, i);
      LiveKeepsIdentity(c.targets[i], Due(db, op, c.targets[i]));
      assert Continues(db, op, Next(db, op), c.targets[i], u);
    } else {
      if i < |Ensured(db, op).targets| {
        MissingGetsDue(db, op, i);
      } else {
        ReportedGetsDue(db, op, i);
      }
      hide Cleared, Applied, Next, Due, Leaves, Explained, Wants;
      forall t | t in db.targets && IsRowOf(t, u.client, u.key) ensures Leaves(db, op, t) {
        assert t !in c.targets;
      }
    }
  }

  /** Every operation does to every row of the table exactly what it owes it: each row
      after it is an old one with the acts due to it, or a wanted new one with its own;
      and the rows that do not leave all stay. */
  lemma NextGivesDue(db: Db, op: Op)
    requires Explained(db) && Enabled(db, op)
    ensures forall u <- Next(db, op).targets :: Accounted(db, op, Next(db, op), u)
    ensures forall t <- db.targets :: !Leaves(db, op, t) ==> exists u <- Next(db, op).targets :: u.id == t.id
  {
    match op
    case Beat(_, _, _, _, _, _) => BeatIsAccounted(db, op);
    case Inbounds(gone, order, live, now) => SyncIsAccounted(db, op);
    case SeeInbounds(_) => UntouchedIsAccounted(db, op);
    case ServePaths(_) => PurgedIsAccounted(db, op, Next(db, op));
    case GoSilent(_, _, _) => LossIsAccounted(db, op);
    case Disable(_, _) => DisableIsAccounted(db, op);
    case Revoke(_, _) => RevokeIsAccounted(db, op);
    case Delete(_) => PurgedIsAccounted(db, op, Next(db, op));
    case Approve(_) => UntouchedIsAccounted(db, op);
  }

  lemma UntouchedIsAccounted(db: Db, op: Op)
    requires Explained(db) && Enabled(db, op) && (op.SeeInbounds? || op.Approve?)
    ensures forall u <- Next(db, op).targets :: Accounted(db, op, Next(db, op), u)
    ensures Next(db, op).targets == db.targets
  {
    PurgedIsAccounted(db, op, Next(db, op));
  }

  lemma SyncIsAccounted(db: Db, op: Op)
    requires Explained(db) && Enabled(db, op) && op.Inbounds?
    ensures forall u <- Next(db, op).targets :: Accounted(db, op, Next(db, op), u)
    ensures forall t <- db.targets :: exists u <- Next(db, op).targets :: u.id == t.id
  {
    SyncedSizes(db, op.gone, op.order, op.live, op.now);
    hide Synced;
    forall i | 0 <= i < |db.targets| ensures Becomes(db, Next(db, op), i, Due(db, op, db.targets[i])) {
      SyncGivesDue(db, op, i);
    }
    SteadyIsAccounted(db, op, Next(db, op));
  }

  lemma LossIsAccounted(db: Db, op: Op)
    requires Explained(db) && Enabled(db, op) && op.GoSilent?
    ensures forall u <- Next(db, op).targets :: Accounted(db, op, Next(db, op), u)
    ensures forall t <- db.targets :: exists u <- Next(db, op).targets :: u.id == t.id
  {
    LostSizes(db, op.silent, op.missed, op.now);
    forall i | 0 <= i < |db.targets| ensures Becomes(db, Next(db, op), i, Due(db, op, db.targets[i])) {
      LostBecomes(db, op.silent, op.missed, op.now, i);
    }
    SteadyIsAccounted(db, op, Next(db, op));
  }

  lemma {:induction false} LostSizes(db: Db, silent: seq<ClientId>, missed: nat, now: int)
    requires forall c <- silent :: c in db.clients
    ensures |LostAll(db, silent, missed, now).targets| == |db.targets|
  {
    if silent != [] {
      LostSizes(db, silent[..|silent| - 1], missed, now);
    }
  }

  lemma DisableIsAccounted(db: Db, op: Op)
    requires Explained(db) && Enabled(db, op) && op.Disable?
    ensures forall u <- Next(db, op).targets :: Accounted(db, op, Next(db, op), u)
    ensures forall t <- db.targets :: exists u <- Next(db, op).targets :: u.id == t.id
  {
    forall i | 0 <= i < |db.targets| ensures Becomes(db, Next(db, op), i, Due(db, op, db.targets[i])) {
      SilenceBecomes(db, op.client, MonClientDisabled, op.now, i);
    }
    SteadyIsAccounted(db, op, Next(db, op));
  }

  lemma RevokeIsAccounted(db: Db, op: Op)
    requires Explained(db) && Enabled(db, op) && op.Revoke?
    ensures forall u <- Next(db, op).targets :: Accounted(db, op, Next(db, op), u)
    ensures forall t <- db.targets :: exists u <- Next(db, op).targets :: u.id == t.id
  {
    forall i | 0 <= i < |db.targets| ensures Becomes(db, Next(db, op), i, Due(db, op, db.targets[i])) {
      CutBecomes(db, op.client, op.now, i);
    }
    SteadyIsAccounted(db, op, Next(db, op));
  }

  /** The same for two states of the tables, whatever made the second of the first. */
  ghost predicate GivesDue(db: Db, op: Op, after: Db) {
    && Explained(db) && Explained(after)
    && (forall u <- after.targets :: Accounted(db, op, after, u))
    && forall t <- db.targets :: !Leaves(db, op, t) ==> exists u <- after.targets :: u.id == t.id
  }

  lemma NextGives(db: Db, op: Op)
    requires Explained(db) && Enabled(db, op)
    ensures GivesDue(db, op, Next(db, op))
  {
    NextGivesDue(db, op);
    NextKeeps(db, op);
    hide Next, Explained, Enabled, Accounted, Leaves;
  }
}
