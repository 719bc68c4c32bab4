/** The engine as the program runs it: tables updated in place, one method per
    operation, each proved to commit exactly what Tables says
    (internal/state/engine.go). */
module Engine {
  import opened Wrappers
  import opened Store
  import opened Machine
  import opened History
  import opened Sorting
  import opened Flatten
  import opened Wire
  import opened Tables
  import Config
  import Paths

  datatype Inbound = Inbound(key: InboundKey, enable: bool)

  /** The panel's list as a map; a repeated inbound counts as last listed. */
  function LiveOf(inbounds: seq<Inbound>): map<InboundKey, bool> {
    if inbounds == [] then map[]
    else
      var last := inbounds[|inbounds| - 1];
      LiveOf(inbounds[..|inbounds| - 1])[last.key := last.enable]
  }

  lemma {:induction false} DistinctIsSet(ks: seq<TargetKey>, s: set<TargetKey>)
    requires Distinct(ks) && forall k :: k in ks <==> k in s
    ensures multiset(ks) == multiset(s)
  {
    if ks == [] {
      assert s == {};
    } else {
      var init, last := ks[..|ks| - 1], ks[|ks| - 1];
      assert ks == init + [last];
      DistinctIsSet(init, s - {last});
      assert multiset(s) == multiset(s - {last}) + multiset{last};
    }
  }

  lemma KeysAreUntied(ks: seq<TargetKey>)
    ensures Untied(ks, KeyLe)
  {
    forall i, j | 0 <= i < j < |ks| && KeyLe(ks[i], ks[j]) && KeyLe(ks[j], ks[i]) ensures ks[i] == ks[j] {
      KeyOrder(ks[i], ks[j]);
    }
  }

  /** The sorted duplicate-free list of a set is the only one. */
  lemma SortedListIs(ks: seq<TargetKey>, s: set<TargetKey>)
    requires Sorted(ks, KeyLe) && Distinct(ks) && forall k :: k in ks <==> k in s
    ensures ks == SortedKeys(s)
  {
    DistinctIsSet(ks, s);
    KeysAreUntied(ks);
    Config.KeyLeIsOrder();
    SortSorts(Listed(s), KeyLe);
    SortedIsUnique(ks, SortedKeys(s), KeyLe);
  }

  lemma SetListIsDistinct(ks: seq<TargetKey>, s: set<TargetKey>)
    requires multiset(ks) == multiset(s)
    ensures Distinct(ks) && forall k :: k in ks <==> k in s
  {
    assert forall k :: k in ks <==> k in multiset(ks);
    forall i, j | 0 <= i < j < |ks| ensures ks[i] != ks[j] {
      if ks[i] == ks[j] {
        TwiceIsTwo(ks, i, j);
      }
    }
  }

  /** sortedKeys. */
  method SortKeys(keys: set<TargetKey>) returns (out: seq<TargetKey>)
    ensures out == SortedKeys(keys)
  {
    out := [];
    var rest := keys;
    while rest != {}
      invariant rest <= keys && multiset(out) == multiset(keys - rest)
      decreases rest
    {
      var k :| k in rest;
      assert multiset(keys - (rest - {k})) == multiset(keys - rest) + multiset{k};
      out := out + [k];
      rest := rest - {k};
    }
    assert keys - rest == keys;
    Config.KeyLeIsOrder();
    SortSorts(out, KeyLe);
    out := Sort(out, KeyLe);
    SetListIsDistinct(out, keys);
    SortedListIs(out, keys);
  }

  /** The AWG targets this mon-client should probe but was given no peer for. */
  method ListMissingAwg(keys: set<TargetKey>, rejected: set<TargetKey>, excl: Config.Exclusions) returns (out: seq<TargetKey>)
    ensures out == SortedKeys(MissingAwg(keys, rejected, excl))
  {
    var expected := Config.Expected(excl, KIND_AWG);
    SetListIsDistinct(expected, Config.ExpectedOf(excl, KIND_AWG));
    out := [];
    for i := 0 to |expected|
      invariant Sorted(out, KeyLe) && Distinct(out)
      invariant forall k :: k in out <==> k in expected[..i] && k in MissingAwg(keys, rejected, excl)
    {
      var key := expected[i];
      assert expected[..i + 1] == expected[..i] + [key];
      assert key !in expected[..i];
      if key !in keys && key !in rejected && Config.Reason(excl, key) == NoProbeLink {
        forall j | 0 <= j < |out| ensures KeyLe(out[j], key) {
          assert out[j] in out;
          var m :| 0 <= m < i && expected[m] == out[j];
        }
        out := out + [key];
      }
    }
    assert expected[..|expected|] == expected;
    SortedListIs(out, MissingAwg(keys, rejected, excl));
  }

  lemma StepNeverPauses(t: Target, th: Thresholds, outcome: Outcome, now: int)
    ensures Step(t, th, outcome, now).row.state == Paused <==> t.state == Paused
  {
  }

  class Engine {
    var targets: seq<Target>
    var nextId: nat
    var known: set<InboundKey>
    var clients: map<ClientId, MonClient>
    var log: seq<Entry>
    var recorded: seq<Batch>
    ghost var pasts: map<nat, Past>

    ghost function Tables(): Db
      reads this
    {
      Db(targets, nextId, known, clients, log, recorded, pasts)
    }

    constructor ()
      ensures Tables() == EMPTY
    {
      targets, nextId, known, clients, log, recorded, pasts := [], 0, {}, map[], [], [], map[];
    }

    /** moveRows for one row: the new state, counters and hold cleared, one event. */
    method MoveRow(i: nat, to: TargetState, reason: Reason, now: int)
      requires i < |targets|
      modifies this
      ensures Tables() == ActOn(old(Tables()), i, Move(to, reason, now))
    {
      var t := targets[i];
      var from, since := t.state, t.since;
      t := t.(state := to);
      t := t.(since := now);
      t := t.(reason := reason);
      t := t.(oks := 0, fails := 0);
      t := t.(flappingUntil := None);
      targets := targets[i := t];
      var e := TargetEntry(t.id, t.client, t.key, Filed(now, Transition(from, to, reason, false, since)));
      log := log + [e];
      pasts := Remembered(pasts, t.id, Move(to, reason, now));
      assert Entries(old(targets[i]), [e.filed.tr], now) == [e];
    }

    /** moveTargets: every row the query matches, in row order. */
    method MoveTargets(s: Sweep, now: int)
      modifies this
      ensures Tables() == Swept(old(Tables()), s, now)
    {
      for i := 0 to |targets|
        invariant |targets| == |old(targets)|
        invariant Tables() == SweptTo(old(Tables()), DecisionOf(s, now), i)
      {
        match Decision(s, targets[i], now)
        case None =>
        case Some(act) => MoveRow(i, act.to, act.reason, now);
      }
    }

    method DeleteRows(p: Purge)
      modifies this`targets
      ensures Tables() == Purged(old(Tables()), p)
    {
      var rows := targets;
      targets := [];
      for i := 0 to |rows|
        invariant targets == Left(rows[..i], p)
      {
        assert rows[..i + 1][..i] == rows[..i];
        if !Goes(p, rows[i]) {
          targets := targets + [rows[i]];
        }
      }
      assert rows[..|rows|] == rows;
    }

    /** targetRow: finds the row, or creates it UNKNOWN. */
    method TargetRow(client: ClientId, key: TargetKey, now: int) returns (i: nat)
      modifies this
      ensures Tables() == EnsureRow(old(Tables()), client, key, now)
      ensures i < |targets| && i == IndexOf(targets, client, key)
    {
      i := 0;
      while i < |targets| && !IsRowOf(targets[i], client, key)
        invariant i <= |targets| && forall j :: 0 <= j < i ==> !IsRowOf(targets[j], client, key)
      {
        i := i + 1;
      }
      if i == |targets| {
        targets := targets + [Fresh(nextId, client, key, now)];
        pasts := pasts[nextId := Past(now, [])];
        nextId := nextId + 1;
      }
    }

    method TargetRows(client: ClientId, keys: seq<TargetKey>, now: int)
      modifies this
      ensures Tables() == EnsureRows(old(Tables()), client, keys, now)
    {
      for i := 0 to |keys|
        invariant Tables() == EnsureRows(old(Tables()), client, keys[..i], now)
      {
        assert keys[..i + 1][..i] == keys[..i];
        var _ := TargetRow(client, keys[i], now);
      }
      assert keys[..|keys|] == keys;
    }

    /** reconcilePauses. */
    method ReconcilePauses(client: ClientId, keys: set<TargetKey>, rejected: set<TargetKey>, excl: Config.Exclusions, now: int)
      modifies this
      ensures Tables() == Reconciled(old(Tables()), client, keys, rejected, excl, now)
    {
      DeleteRows(OutOfConfig(client, keys, excl));
      var missing := SortKeys(rejected);
      var awg := ListMissingAwg(keys, rejected, excl);
      TargetRows(client, missing + awg, now);
      MoveTargets(Reconcile(client, keys, rejected, excl), now);
    }

    method FileAll(t: Target, evs: seq<Transition>, now: int)
      modifies this`log
      ensures log == old(log) + Entries(t, evs, now)
    {
      for j := 0 to |evs|
        invariant log == old(log) + Entries(t, evs[..j], now)
      {
        var e := TargetEntry(t.id, t.client, t.key, Filed(now, evs[j]));
        assert Entries(t, evs[..j + 1], now) == Entries(t, evs[..j], now) + [e];
        log := log + [e];
      }
      assert evs[..|evs|] == evs;
    }

    /** Steps one row that is not PAUSED, saves it and files its transitions. */
    method StepTarget(i: nat, th: Thresholds, outcome: Outcome, now: int)
      requires i < |targets|
      modifies this
      ensures Tables() == if old(targets[i].state) == Paused then old(Tables())
                          else ActOn(old(Tables()), i, Act.Result(th, outcome, now))
    {
      var t := targets[i];
      var next, evs := StepRow(t, th, outcome, now);
      if next.state == Paused {
        StepNeverPauses(t, th, outcome, now);
        return;
      }
      targets := targets[i := next];
      FileAll(t, evs, now);
      pasts := Remembered(pasts, t.id, Act.Result(th, outcome, now));
    }

    /** One result of the live cycle. */
    method ApplyResult(client: ClientId, res: Result, th: Thresholds, now: int)
      modifies this
      ensures Tables() == ResultApplied(old(Tables()), client, res, th, now)
    {
      var i := TargetRow(client, res.key, now);
      StepTarget(i, th, OutcomeOf(res.ok, res.reason), now);
    }

    method ApplyLive(client: ClientId, results: seq<Result>, th: Thresholds, now: int)
      modifies this
      ensures Tables() == ResultsApplied(old(Tables()), client, results, th, now)
    {
      for i := 0 to |results|
        invariant Tables() == ResultsApplied(old(Tables()), client, results[..i], th, now)
      {
        assert results[..i + 1][..i] == results[..i];
        ApplyResult(client, results[i], th, now);
      }
      assert results[..|results|] == results;
    }

    method ApplyClientInfo(client: ClientId, ack: int, now: int)
      requires client in clients
      modifies this
      ensures Tables() == Greeted(old(Tables()), client, ack, now)
    {
      var from := clients[client].state;
      clients := clients[client := MonClient(Online, Some(now), 0, ack)];
      if from != Online {
        log := log + [ClientEntry(client, now, WireFrom(from), Online, NoReason)];
      }
    }

    /** Heartbeat: commits everything and answers the ack, or — when the mon-client
        is gone, or a write or the statistics sink fails (`fault`) — rolls every table
        back and answers nothing. */
    method Heartbeat(client: ClientId, req: Request, keys: set<TargetKey>, excl: Config.Exclusions, th: Thresholds, now: int, fault: bool)
      returns (answer: Option<int>)
      modifies this
      ensures answer.Some? <==> client in old(clients) && !fault
      ensures answer.Some? ==> answer.value == AckOf(old(clients)[client].lastAckSeq, req.cycles)
      ensures Tables() == if answer.Some? then Beaten(old(Tables()), client, req, keys, excl, th, now) else old(Tables())
    {
      if client !in clients {
        return None;
      }
      var t, n, k, c, l, r := targets, nextId, known, clients, log, recorded;
      ghost var p := pasts;
      answer := BeatAll(client, req, keys, excl, th, now);
      if fault {
        RollBack(t, n, k, c, l, r, p);
        answer := None;
      }
    }

    method RollBack(t: seq<Target>, n: nat, k: set<InboundKey>, c: map<ClientId, MonClient>, l: seq<Entry>, r: seq<Batch>, ghost p: map<nat, Past>)
      modifies this
      ensures Tables() == Db(t, n, k, c, l, r, p)
    {
      targets, nextId, known, clients, log, recorded := t, n, k, c, l, r;
      pasts := p;
    }

    /** The body of the heartbeat's transaction. */
    method BeatAll(client: ClientId, req: Request, keys: set<TargetKey>, excl: Config.Exclusions, th: Thresholds, now: int)
      returns (answer: Option<int>)
      requires client in clients
      modifies this
      ensures answer == Some(AckOf(old(clients)[client].lastAckSeq, req.cycles))
      ensures Tables() == Beaten(old(Tables()), client, req, keys, excl, th, now)
    {
      var lastAck := clients[client].lastAckSeq;
      var ack, cycles := Sift(lastAck, req.cycles, now, keys);
      ApplyClientInfo(client, ack, now);
      DeleteRows(Retired(client, keys, known));
      var rejected := Paths.RejectedKeys(keys, req.rejected);
      ReconcilePauses(client, keys, rejected, excl, now);
      var live := FindLive(cycles);
      if live.Some? {
        ApplyLive(client, live.value.results, th, now);
      }
      if cycles != [] {
        recorded := recorded + [Batch(client, cycles)];
      }
      return Some(ack);
    }

    /** The targets of vanished inbounds are paused and the inbounds forgotten. */
    method ForgetVanished(live: map<InboundKey, bool>, now: int) returns (ghost gone: seq<InboundKey>)
      modifies this
      ensures Enumerates(gone, old(known) - live.Keys)
      ensures Tables() == Vanished(old(Tables()), gone, now)
    {
      gone := [];
      var rest := known - live.Keys;
      ghost var all := rest;
      while rest != {}
        invariant rest <= all && Enumerates(gone, all - rest)
        invariant Tables() == Vanished(old(Tables()), gone, now)
        decreases rest
      {
        var k :| k in rest;
        MoveTargets(PauseInbound(k), now);
        known := known - {k};
        assert (gone + [k])[..|gone|] == gone;
        gone := gone + [k];
        rest := rest - {k};
      }
    }

    method RefreshLive(live: map<InboundKey, bool>, now: int) returns (ghost order: seq<InboundKey>)
      modifies this
      ensures Enumerates(order, live.Keys)
      ensures Tables() == Refreshed(old(Tables()), order, live, now)
    {
      order := [];
      var rest := live.Keys;
      while rest != {}
        invariant rest <= live.Keys && Enumerates(order, live.Keys - rest)
        invariant Tables() == Refreshed(old(Tables()), order, live, now)
        decreases rest
      {
        var k :| k in rest;
        MoveTargets(if live[k] then ResumeInbound(k) else PauseInbound(k), now);
        assert (order + [k])[..|order|] == order;
        order := order + [k];
        rest := rest - {k};
      }
    }

    /** SyncInbounds.  The program visits its maps in no fixed order; the order a
        call happened to take is returned as a ghost. */
    method SyncInbounds(inbounds: seq<Inbound>, now: int) returns (ghost gone: seq<InboundKey>, ghost order: seq<InboundKey>)
      modifies this
      ensures inbounds == [] ==> Tables() == old(Tables())
      ensures inbounds != [] ==>
                var op := Inbounds(gone, order, LiveOf(inbounds), now);
                Enabled(old(Tables()), op) && Tables() == Next(old(Tables()), op)
    {
      gone, order := [], [];
      if inbounds == [] {
        return;
      }
      var live: map<InboundKey, bool> := map[];
      for i := 0 to |inbounds|
        invariant live == LiveOf(inbounds[..i])
      {
        assert inbounds[..i + 1][..i] == inbounds[..i];
        live := live[inbounds[i].key := inbounds[i].enable];
      }
      assert inbounds[..|inbounds|] == inbounds;
      assert inbounds[|inbounds| - 1].key in live;
      gone := ForgetVanished(live, now);
      order := RefreshLive(live, now);
    }

    /** SyncPaths: an empty set is not an answer. */
    method SyncPaths(served: seq<Path>)
      modifies this`targets
      ensures Tables() == if served == [] then old(Tables()) else Purged(old(Tables()), Unserved(served))
    {
      if served == [] {
        return;
      }
      DeleteRows(Unserved(served));
    }

    method LoseClient(client: ClientId, missed: nat, now: int)
      requires client in clients
      modifies this
      ensures Tables() == Lost(old(Tables()), client, missed, now)
    {
      clients := clients[client := clients[client].(state := Offline, missed := missed)];
      log := log + [ClientEntry(client, now, Some(Online), Offline, HeartbeatMissed)];
      MoveTargets(Silence(client, Store.MonClientOffline), now);
    }

    /** The sweep's query: who has been silent for too long, unless the server has not
        been up long enough to tell. */
    method FindSilent(readyAt: int, offlineAfter: int, intervalMs: int, timeoutMs: int, now: int) returns (found: set<ClientId>)
      ensures var silence := AtLeast(offlineAfter, 1) * intervalMs + timeoutMs;
              forall c :: c in found <==>
                c in clients && now - readyAt > silence && clients[c].state == Online
                && clients[c].lastHeartbeat.Some? && now - clients[c].lastHeartbeat.value > silence
    {
      var silence := AtLeast(offlineAfter, 1) * intervalMs + timeoutMs;
      if now - readyAt <= silence {
        return {};
      }
      found := set c | c in clients && IsSilent(clients[c], silence, now);
    }

    /** MarkOffline with nothing in between: everyone found silent, and nobody else, is
        lost, one transaction each. */
    method MarkOffline(readyAt: int, offlineAfter: int, intervalMs: int, timeoutMs: int, now: int) returns (ghost silent: seq<ClientId>)
      modifies this
      ensures var missed := AtLeast(offlineAfter, 1);
              var silence := missed * intervalMs + timeoutMs;
              var op := GoSilent(silent, missed, now);
              && (forall c :: c in silent <==>
                    c in old(clients) && now - readyAt > silence && old(clients)[c].state == Online
                    && old(clients)[c].lastHeartbeat.Some? && now - old(clients)[c].lastHeartbeat.value > silence)
              && Enabled(old(Tables()), op) && Tables() == Next(old(Tables()), op)
    {
      var found := FindSilent(readyAt, offlineAfter, intervalMs, timeoutMs, now);
      silent := LoseAll(found, AtLeast(offlineAfter, 1), now);
    }

    method LoseAll(lost: set<ClientId>, missed: nat, now: int) returns (ghost silent: seq<ClientId>)
      requires lost <= clients.Keys
      modifies this
      ensures Distinct(silent) && (forall c :: c in silent <==> c in lost)
      ensures forall c <- silent :: c in old(clients)
      ensures Tables() == LostAll(old(Tables()), silent, missed, now)
    {
      silent := [];
      var rest := lost;
      while rest != {}
        invariant rest <= lost && Distinct(silent)
        invariant forall c :: c in silent <==> c in lost - rest
        invariant clients.Keys == old(clients.Keys)
        invariant Tables() == LostAll(old(Tables()), silent, missed, now)
        decreases rest
      {
        var c :| c in rest;
        LoseClient(c, missed, now);
        assert c !in silent;
        assert (silent + [c])[..|silent|] == silent;
        silent := silent + [c];
        rest := rest - {c};
      }
    }

    method MonClientDisabled(client: ClientId, now: int)
      modifies this
      ensures Tables() == Next(old(Tables()), Disable(client, now))
    {
      MoveTargets(Silence(client, Store.MonClientDisabled), now);
    }

    /** Registry.Revoke with its hook; answers whether the mon-client existed. */
    method RevokeClient(client: ClientId, now: int) returns (found: bool)
      modifies this
      ensures found <==> client in old(clients)
      ensures Tables() == if found then Next(old(Tables()), Revoke(client, now)) else old(Tables())
    {
      if client !in clients {
        return false;
      }
      var mc := clients[client];
      if mc.state != Offline {
        log := log + [ClientEntry(client, now, WireFrom(mc.state), Offline, TokenRevoked)];
      }
      MoveTargets(Silence(client, MonClientRevoked), now);
      clients := clients[client := mc.(state := Offline)];
      return true;
    }

    method DeleteClient(client: ClientId) returns (found: bool)
      modifies this
      ensures found <==> client in old(clients)
      ensures Tables() == if found then Next(old(Tables()), Delete(client)) else old(Tables())
    {
      if client !in clients {
        return false;
      }
      clients := clients - {client};
      DeleteRows(Everything(client));
      return true;
    }
  }
}
