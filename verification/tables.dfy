/** The engine's tables as one value, and what each of its operations makes of
    them (internal/state/engine.go).  One transaction is one function here. */
module Tables {
  import opened Wrappers
  import opened Store
  import opened Machine
  import opened History
  import opened Sorting
  import opened Flatten
  import opened Wire
  import Config
  import Paths

  datatype ClientState = Never | Online | Offline

  datatype MonClient = MonClient(state: ClientState, lastHeartbeat: Option<int>, missed: nat, lastAckSeq: int)

  /** An outbox row: a target's transition (with the row it belongs to) or a
      mon-client's own.  NEVER reaches the panel as an empty from. */
  datatype Entry =
    | TargetEntry(rowId: nat, client: ClientId, key: TargetKey, filed: Filed)
    | ClientEntry(who: ClientId, at: int, from: Option<ClientState>, to: ClientState, reason: Reason)

  /** When a row was created and every act on it since: the history the
      invariants explain each row by; no operation reads it. */
  datatype Past = Past(bornAt: int, acts: seq<Act>)

  /** What one committed heartbeat handed to the statistics. */
  datatype Batch = Batch(client: ClientId, cycles: seq<Cycle>)

  datatype Db = Db(
    targets: seq<Target>,
    nextId: nat,
    known: set<InboundKey>,
    clients: map<ClientId, MonClient>,
    log: seq<Entry>,
    recorded: seq<Batch>,
    pasts: map<nat, Past>)

  const EMPTY := Db([], 0, {}, map[], [], [], map[])

  // ---- one row at a time ----

  function Entries(t: Target, evs: seq<Transition>, at: int): seq<Entry> {
    seq(|evs|, i requires 0 <= i < |evs| => TargetEntry(t.id, t.client, t.key, Filed(at, evs[i])))
  }

  function Remembered(pasts: map<nat, Past>, id: nat, act: Act): map<nat, Past> {
    if id in pasts then pasts[id := pasts[id].(acts := pasts[id].acts + [act])] else pasts
  }

  function ActOn(db: Db, i: nat, act: Act): Db
    requires i < |db.targets|
  {
    var t := db.targets[i];
    var step := Acted(t, act);
    db.(targets := db.targets[i := step.row], log := db.log + Entries(t, step.events, act.at), pasts := Remembered(db.pasts, t.id, act))
  }

  function Create(db: Db, client: ClientId, key: TargetKey, now: int): Db {
    db.(targets := db.targets + [Fresh(db.nextId, client, key, now)], nextId := db.nextId + 1, pasts := db.pasts[db.nextId := Past(now, [])])
  }

  predicate IsRowOf(t: Target, client: ClientId, key: TargetKey) {
    t.client == client && t.key == key
  }

  /** The index of a target's row, or the row count when it has none. */
  function IndexOf(ts: seq<Target>, client: ClientId, key: TargetKey): (i: nat)
    ensures i <= |ts|
    ensures i < |ts| ==> IsRowOf(ts[i], client, key)
    ensures forall j :: 0 <= j < i ==> !IsRowOf(ts[j], client, key)
  {
    if ts == [] then 0
    else
      var before := IndexOf(ts[..|ts| - 1], client, key);
      if before < |ts| - 1 then before
      else if IsRowOf(ts[|ts| - 1], client, key) then |ts| - 1 else |ts|
  }

  function EnsureRow(db: Db, client: ClientId, key: TargetKey, now: int): Db {
    if IndexOf(db.targets, client, key) < |db.targets| then db else Create(db, client, key, now)
  }

  function EnsureRows(db: Db, client: ClientId, keys: seq<TargetKey>, now: int): Db {
    if keys == [] then db
    else EnsureRow(EnsureRows(db, client, keys[..|keys| - 1], now), client, keys[|keys| - 1], now)
  }

  // ---- bulk moves ----

  /** The bulk moves: each decides, row by row, whether and how to move it. */
  datatype Sweep =
    | PauseInbound(inbound: InboundKey)
    | ResumeInbound(inbound: InboundKey)
    | Silence(client: ClientId, reason: Reason)
    | Reconcile(client: ClientId, keys: set<TargetKey>, rejected: set<TargetKey>, excl: Config.Exclusions)

  /** Why a target's config wants it PAUSED, or NoReason. */
  function ConfigPause(key: TargetKey, keys: set<TargetKey>, rejected: set<TargetKey>, excl: Config.Exclusions): Reason {
    if key in rejected then ConfigError
    else if key in keys then NoReason
    else Config.Reason(excl, key)
  }

  function Decision(s: Sweep, t: Target, now: int): Option<Act> {
    match s
    case PauseInbound(k) =>
      if t.key.Inbound() == k && t.state != Paused then Some(Move(Paused, ConfigDisabled, now)) else None
    case ResumeInbound(k) =>
      if t.key.Inbound() == k && t.state == Paused && t.reason == ConfigDisabled then Some(Move(Unknown, ConfigEnabled, now)) else None
    case Silence(client, reason) =>
      if t.client == client && t.state != Unknown && t.state != Paused then Some(Move(Unknown, reason, now)) else None
    case Reconcile(client, keys, rejected, excl) =>
      var reason := ConfigPause(t.key, keys, rejected, excl);
      if t.client != client then None
      else if reason != NoReason && t.state != Paused then Some(Move(Paused, reason, now))
      else if reason == NoReason && t.state == Paused && IsConfigPause(t.reason) && t.key in keys then Some(Move(Unknown, ConfigEnabled, now))
      else None
  }

  function DecisionOf(s: Sweep, now: int): Target -> Option<Act> {
    (t: Target) => Decision(s, t, now)
  }

  /** The first n rows moved, each as `decide` says. */
  function SweptTo(db: Db, decide: Target -> Option<Act>, n: nat): (r: Db)
    requires n <= |db.targets|
    ensures |r.targets| == |db.targets|
    ensures forall i :: n <= i < |db.targets| ==> r.targets[i] == db.targets[i]
    ensures r.nextId == db.nextId && r.known == db.known && r.clients == db.clients && r.recorded == db.recorded
  {
    if n == 0 then db
    else
      var before := SweptTo(db, decide, n - 1);
      match decide(before.targets[n - 1])
      case None => before
      case Some(act) => ActOn(before, n - 1, act)
  }

  function Swept(db: Db, s: Sweep, now: int): Db {
    SweptTo(db, DecisionOf(s, now), |db.targets|)
  }

  // ---- deletions ----

  datatype Purge =
    | Retired(client: ClientId, keys: set<TargetKey>, known: set<InboundKey>)
    | OutOfConfig(client: ClientId, keys: set<TargetKey>, excl: Config.Exclusions)
    | Unserved(served: seq<Path>)
    | Everything(client: ClientId)

  predicate Goes(p: Purge, t: Target) {
    match p
    case Retired(client, keys, known) => t.client == client && t.state == Paused && t.key !in keys && t.key.Inbound() !in known
    case OutOfConfig(client, keys, excl) => t.client == client && t.key !in keys && Config.Retired(excl, t.key)
    case Unserved(served) => t.key.path !in served
    case Everything(client) => t.client == client
  }

  function Left(ts: seq<Target>, p: Purge): (r: seq<Target>)
    ensures |r| <= |ts|
    ensures forall t {:trigger t in r} :: t in r <==> t in ts && !Goes(p, t)
  {
    if ts == [] then []
    else
      var last := ts[|ts| - 1];
      assert ts == ts[..|ts| - 1] + [last];
      Left(ts[..|ts| - 1], p) + (if Goes(p, last) then [] else [last])
  }

  function Purged(db: Db, p: Purge): Db {
    db.(targets := Left(db.targets, p))
  }

  // ---- heartbeat ----

  function WireFrom(s: ClientState): Option<ClientState> {
    if s == Never then None else Some(s)
  }

  /** applyClientInfo: the mon-client is ONLINE now and its ack is on record. */
  function Greeted(db: Db, client: ClientId, ack: int, now: int): Db
    requires client in db.clients
  {
    var from := db.clients[client].state;
    db.(clients := db.clients[client := MonClient(Online, Some(now), 0, ack)],
        log := if from == Online then db.log else db.log + [ClientEntry(client, now, WireFrom(from), Online, NoReason)])
  }

  /** The keys that must have a row to pause: rejected ones, and AWG targets the
      panel gave this mon-client no peer for. */
  ghost function MissingAwg(keys: set<TargetKey>, rejected: set<TargetKey>, excl: Config.Exclusions): set<TargetKey> {
    set k | k in Config.ExpectedOf(excl, KIND_AWG) && k !in keys && k !in rejected && Config.Reason(excl, k) == NoProbeLink
  }

  ghost function Listed(s: set<TargetKey>): (r: seq<TargetKey>)
    ensures multiset(r) == multiset(s)
  {
    if s == {} then []
    else
      var k :| k in s;
      assert multiset(s) == multiset(s - {k}) + multiset{k};
      Listed(s - {k}) + [k]
  }

  ghost function SortedKeys(s: set<TargetKey>): seq<TargetKey> {
    Sort(Listed(s), KeyLe)
  }

  ghost function Missing(keys: set<TargetKey>, rejected: set<TargetKey>, excl: Config.Exclusions): seq<TargetKey> {
    SortedKeys(rejected) + SortedKeys(MissingAwg(keys, rejected, excl))
  }

  /** reconcilePauses. */
  ghost function Reconciled(db: Db, client: ClientId, keys: set<TargetKey>, rejected: set<TargetKey>, excl: Config.Exclusions, now: int): Db {
    var purged := Purged(db, OutOfConfig(client, keys, excl));
    var ensured := EnsureRows(purged, client, Missing(keys, rejected, excl), now);
    Swept(ensured, Reconcile(client, keys, rejected, excl), now)
  }

  /** One live result: its row is found or created, then stepped unless PAUSED. */
  function ResultApplied(db: Db, client: ClientId, res: Result, th: Thresholds, now: int): Db {
    var found := EnsureRow(db, client, res.key, now);
    var i := IndexOf(found.targets, client, res.key);
    if i == |found.targets| || found.targets[i].state == Paused then found
    else ActOn(found, i, Act.Result(th, OutcomeOf(res.ok, res.reason), now))
  }

  function ResultsApplied(db: Db, client: ClientId, results: seq<Result>, th: Thresholds, now: int): Db {
    if results == [] then db
    else ResultApplied(ResultsApplied(db, client, results[..|results| - 1], th, now), client, results[|results| - 1], th, now)
  }

  function LiveApplied(db: Db, client: ClientId, cycles: seq<Cycle>, th: Thresholds, now: int): Db {
    match LiveCycle(cycles)
    case None => db
    case Some(live) => ResultsApplied(db, client, live.results, th, now)
  }

  /** What the heartbeat's transaction commits. */
  ghost function Beaten(db: Db, client: ClientId, req: Request, keys: set<TargetKey>, excl: Config.Exclusions, th: Thresholds, now: int): Db
    requires client in db.clients
  {
    var lastAck := db.clients[client].lastAckSeq;
    var cycles := CleanedAll(Accepted(lastAck, req.cycles), now, keys);
    var greeted := Greeted(db, client, AckOf(lastAck, req.cycles), now);
    var retired := Purged(greeted, Retired(client, keys, db.known));
    var reconciled := Reconciled(retired, client, keys, Paths.RejectedOf(keys, req.rejected), excl, now);
    var stepped := LiveApplied(reconciled, client, cycles, th, now);
    if cycles == [] then stepped else stepped.(recorded := stepped.recorded + [Batch(client, cycles)])
  }

  // ---- the panel's inbounds ----

  function Vanished(db: Db, gone: seq<InboundKey>, now: int): Db {
    if gone == [] then db
    else
      var before := Vanished(db, gone[..|gone| - 1], now);
      var k := gone[|gone| - 1];
      var swept := Swept(before, PauseInbound(k), now);
      swept.(known := swept.known - {k})
  }

  function Refreshed(db: Db, order: seq<InboundKey>, live: map<InboundKey, bool>, now: int): Db {
    if order == [] then db
    else
      var before := Refreshed(db, order[..|order| - 1], live, now);
      var k := order[|order| - 1];
      Swept(before, if k in live && live[k] then ResumeInbound(k) else PauseInbound(k), now)
  }

  /** SyncInbounds, visiting the vanished inbounds and then the live ones in the
      given orders. */
  function Synced(db: Db, gone: seq<InboundKey>, order: seq<InboundKey>, live: map<InboundKey, bool>, now: int): Db {
    Refreshed(Vanished(db, gone, now), order, live, now)
  }

  // ---- liveness ----

  /** MarkOffline's move of one silent mon-client. */
  function Lost(db: Db, client: ClientId, missed: nat, now: int): Db
    requires client in db.clients
  {
    var mc := db.clients[client];
    var offline := db.(clients := db.clients[client := mc.(state := Offline, missed := missed)],
                       log := db.log + [ClientEntry(client, now, Some(Online), Offline, HeartbeatMissed)]);
    Swept(offline, Silence(client, MonClientOffline), now)
  }

  function LostAll(db: Db, silent: seq<ClientId>, missed: nat, now: int): (r: Db)
    requires forall c <- silent :: c in db.clients
    ensures r.clients.Keys == db.clients.Keys
  {
    if silent == [] then db
    else
      var last := silent[|silent| - 1];
      Lost(LostAll(db, silent[..|silent| - 1], missed, now), last, missed, now)
  }

  /** Silent for longer than allowed, counted from the last heartbeat. */
  predicate IsSilent(mc: MonClient, silence: int, now: int) {
    mc.state == Online && mc.lastHeartbeat.Some? && now - mc.lastHeartbeat.value > silence
  }

  /** Registry.Revoke with the engine's hook: the row, the targets and the events
      commit together. */
  function Cut(db: Db, client: ClientId, now: int): Db
    requires client in db.clients
  {
    var mc := db.clients[client];
    var told := if mc.state == Offline then db
                else db.(log := db.log + [ClientEntry(client, now, WireFrom(mc.state), Offline, TokenRevoked)]);
    var swept := Swept(told, Silence(client, MonClientRevoked), now);
    swept.(clients := swept.clients[client := mc.(state := Offline)])
  }

  // ---- every operation, for whole runs ----

  datatype Op =
    | Beat(client: ClientId, req: Request, keys: set<TargetKey>, excl: Config.Exclusions, th: Thresholds, now: int)
    | Inbounds(gone: seq<InboundKey>, order: seq<InboundKey>, live: map<InboundKey, bool>, now: int)
    | SeeInbounds(seen: set<InboundKey>)
    | ServePaths(served: seq<Path>)
    | GoSilent(silent: seq<ClientId>, missed: nat, now: int)
    | Disable(client: ClientId, now: int)
    | Revoke(client: ClientId, now: int)
    | Delete(client: ClientId)
    | Approve(client: ClientId)

  ghost predicate Enumerates(order: seq<InboundKey>, all: set<InboundKey>) {
    (forall k :: k in order <==> k in all) && Distinct(order)
  }

  /** Which operations can happen next.  Anything missing here is an error that
      rolls back or an early return, and changes nothing.  MarkOffline moves a
      mon-client in a transaction of its own, some time after it was found silent and
      without looking again: GoSilent is enabled whatever its state is by then. */
  ghost predicate Enabled(db: Db, op: Op) {
    match op
    case Beat(client, _, _, _, _, _) => client in db.clients
    case Inbounds(gone, order, live, _) => live != map[] && Enumerates(gone, db.known - live.Keys) && Enumerates(order, live.Keys)
    case SeeInbounds(_) => true
    case ServePaths(served) => served != []
    case GoSilent(silent, _, _) => Distinct(silent) && forall c <- silent :: c in db.clients
    case Disable(_, _) => true
    case Revoke(client, _) => client in db.clients
    case Delete(client) => client in db.clients
    case Approve(_) => true
  }

  ghost function Next(db: Db, op: Op): Db
    requires Enabled(db, op)
  {
    match op
    case Beat(client, req, keys, excl, th, now) => Beaten(db, client, req, keys, excl, th, now)
    case Inbounds(gone, order, live, now) => Synced(db, gone, order, live, now)
    case SeeInbounds(seen) => db.(known := db.known + seen)
    case ServePaths(served) => Purged(db, Unserved(served))
    case GoSilent(silent, missed, now) => LostAll(db, silent, missed, now)
    case Disable(client, now) => Swept(db, Silence(client, MonClientDisabled), now)
    case Revoke(client, now) => Cut(db, client, now)
    case Delete(client) => Purged(db, Everything(client)).(clients := db.clients - {client})
    case Approve(client) => db.(clients := db.clients[client := MonClient(Never, None, 0, 0)])
  }

  /** The tables after a run, or None when an operation of it could not happen. */
  ghost function Run(ops: seq<Op>): Option<Db> {
    if ops == [] then Some(EMPTY)
    else
      match Run(ops[..|ops| - 1])
      case None => None
      case Some(db) => if Enabled(db, ops[|ops| - 1]) then Some(Next(db, ops[|ops| - 1])) else None
  }
}
