/** Registration requests and the one-time hand-off of a minted token
    (internal/registry/registry.go). */
module Handoff {
  import opened Wrappers
  import opened Store
  import opened Flatten

  const REQUEST_TTL: int := 300000

  type RequestId = string
  type Token = string

  datatype Status = Pending | Approved | Rejected | Expired

  /** A row of registration_requests; `parked` is approved_token, None when blank. */
  datatype Request = Request(status: Status, expiresAt: int, client: ClientId, parked: Option<Token>)

  /** The two tables; a mon-client's token is kept as a hash, here the token itself. */
  datatype Tables = Tables(requests: map<RequestId, Request>, clients: map<ClientId, Option<Token>>)

  datatype Error = RequestNotFound | RequestExpired | RequestNotPending | ClientNotFound | ClientExists

  datatype PollAnswer =
    | StillPending
    | WasRejected
    | WasApproved(client: ClientId, token: Option<Token>)
    | Refused(error: Error)

  // ---- what each statement does to the tables ----

  function Put(t: Tables, id: RequestId, r: Request): Tables {
    t.(requests := t.requests[id := r])
  }

  predicate Stale(r: Request, now: int) {
    r.status == Pending && r.expiresAt <= now
  }

  /** Poll's write, given what its read had found: the flip of a pending row names
      no status, the flip of an approved one and the take do. */
  function PollWrite(t: Tables, id: RequestId, seen: Option<Request>, now: int): Tables {
    if seen == None || id !in t.requests then t
    else
      var row := t.requests[id];
      if Stale(seen.value, now) then Put(t, id, row.(status := Expired))
      else if seen.value.status != Approved || row.status != Approved then t
      else if seen.value.expiresAt <= now then Put(t, id, row.(status := Expired, parked := None))
      else if seen.value.parked.Some? && row.parked == seen.value.parked then Put(t, id, row.(parked := None))
      else t
  }

  /** The token that write takes, if it takes one. */
  function Taken(t: Tables, id: RequestId, seen: Option<Request>, now: int): Option<Token> {
    if seen.Some? && seen.value.status == Approved && now < seen.value.expiresAt && id in t.requests
       && t.requests[id].status == Approved && seen.value.parked.Some? && t.requests[id].parked == seen.value.parked
    then seen.value.parked else None
  }

  function AnswerOf(t: Tables, id: RequestId, seen: Option<Request>, now: int): PollAnswer {
    match seen
    case None => Refused(RequestNotFound)
    case Some(r) =>
      if Stale(r, now) || r.status == Expired || (r.status == Approved && r.expiresAt <= now) then Refused(RequestExpired)
      else if r.status == Pending then StillPending
      else if r.status == Rejected then WasRejected
      else WasApproved(r.client, Taken(t, id, seen, now))
  }

  /** An answer says what the row was when it was read. */
  predicate SaysOfRow(answer: PollAnswer, seen: Option<Request>, now: int) {
    && (answer == Refused(RequestNotFound) <==> seen == None)
    && (answer == Refused(RequestExpired) <==>
          seen.Some? && (seen.value.status == Expired || (seen.value.status in {Pending, Approved} && seen.value.expiresAt <= now)))
    && (answer == StillPending <==> seen.Some? && seen.value.status == Pending && now < seen.value.expiresAt)
    && (answer == WasRejected <==> seen.Some? && seen.value.status == Rejected)
    && (answer.WasApproved? <==> seen.Some? && seen.value.status == Approved && now < seen.value.expiresAt)
    && (answer.WasApproved? ==> answer.client == seen.value.client)
  }

  /** Why an administrator's decision on a request is turned down. */
  function Undecidable(t: Tables, id: RequestId, now: int): Option<Error> {
    if id !in t.requests then Some(RequestNotFound)
    else if Stale(t.requests[id], now) then Some(RequestExpired)
    else if t.requests[id].status != Pending then Some(RequestNotPending)
    else None
  }

  function ApprovedFor(t: Tables, id: RequestId, now: int, token: Token, client: ClientId): Tables
    requires id in t.requests
  {
    Tables(t.requests[id := Request(Approved, now + REQUEST_TTL, client, Some(token))], t.clients[client := Some(token)])
  }

  function Cleared(requests: map<RequestId, Request>, client: ClientId): map<RequestId, Request> {
    map id | id in requests :: if requests[id].client == client then requests[id].(parked := None) else requests[id]
  }

  function Swept(requests: map<RequestId, Request>, now: int): map<RequestId, Request> {
    map id | id in requests :: if Stale(requests[id], now) then requests[id].(status := Expired) else requests[id]
  }

  // ---- the program ----

  class Registry {
    var requests: map<RequestId, Request>
    var clients: map<ClientId, Option<Token>>

    ghost function Value(): Tables
      reads this
    {
      Tables(requests, clients)
    }

    constructor ()
      ensures Value() == Tables(map[], map[])
    {
      requests, clients := map[], map[];
    }

    /** Poll's first statement. */
    method PollReads(id: RequestId) returns (seen: Option<Request>)
      ensures seen == if id in requests then Some(requests[id]) else None
    {
      seen := if id in requests then Some(requests[id]) else None;
    }

    /** The rest of Poll, on a row that may have changed since it was read. */
    method PollActs(id: RequestId, seen: Option<Request>, now: int) returns (answer: PollAnswer)
      modifies this`requests
      ensures Value() == PollWrite(old(Value()), id, seen, now)
      ensures answer == AnswerOf(old(Value()), id, seen, now)
      ensures SaysOfRow(answer, seen, now)
    {
      if seen == None {
        return Refused(RequestNotFound);
      }
      var r := seen.value;
      if r.status == Pending && r.expiresAt <= now {
        if id in requests {
          requests := requests[id := requests[id].(status := Expired)];
        }
        return Refused(RequestExpired);
      }
      match r.status {
        case Pending =>
          return StillPending;
        case Rejected =>
          return WasRejected;
        case Expired =>
          return Refused(RequestExpired);
        case Approved =>
          if r.expiresAt <= now {
            if id in requests && requests[id].status == Approved {
              requests := requests[id := requests[id].(status := Expired, parked := None)];
            }
            return Refused(RequestExpired);
          }
          answer := WasApproved(r.client, None);
          if r.parked.Some? {
            if id in requests && requests[id].parked == r.parked && requests[id].status == Approved {
              requests := requests[id := requests[id].(parked := None)];
              answer := WasApproved(r.client, r.parked);
            }
          }
      }
    }

    /** The shared head of the decisions.  Its flip of a stale row is rolled back with
        the transaction its error aborts. */
    method Decide(id: RequestId, now: int) returns (error: Option<Error>)
      ensures error == Undecidable(Value(), id, now)
      ensures error == None <==> id in requests && requests[id].status == Pending && now < requests[id].expiresAt
      ensures error == Some(RequestNotFound) <==> id !in requests
      ensures error == Some(RequestExpired) <==> id in requests && requests[id].status == Pending && requests[id].expiresAt <= now
      ensures error == Some(RequestNotPending) <==> id in requests && requests[id].status != Pending
    {
      if id !in requests {
        return Some(RequestNotFound);
      }
      if requests[id].status == Pending && requests[id].expiresAt <= now {
        return Some(RequestExpired);
      }
      if requests[id].status != Pending {
        return Some(RequestNotPending);
      }
      return None;
    }

    /** Approve, with the id allocated for the new mon-client: one already taken fails
        the insert, and with it everything. */
    method Approve(id: RequestId, now: int, token: Token, client: ClientId) returns (error: Option<Error>)
      modifies this
      ensures error == if Undecidable(old(Value()), id, now).Some? then Undecidable(old(Value()), id, now)
                       else if client in old(clients) then Some(ClientExists) else None
      ensures Value() == if error == None then ApprovedFor(old(Value()), id, now, token, client) else old(Value())
    {
      error := Decide(id, now);
      if error.Some? {
        return;
      }
      if client in clients {
        return Some(ClientExists);
      }
      clients := clients[client := Some(token)];
      requests := requests[id := Request(Approved, now + REQUEST_TTL, client, Some(token))];
    }

    method ApproveAsReplacement(id: RequestId, now: int, token: Token, existing: ClientId) returns (error: Option<Error>)
      modifies this
      ensures error == if Undecidable(old(Value()), id, now).Some? then Undecidable(old(Value()), id, now)
                       else if existing !in old(clients) then Some(ClientNotFound) else None
      ensures Value() == if error == None then ApprovedFor(old(Value()), id, now, token, existing) else old(Value())
    {
      error := Decide(id, now);
      if error.Some? {
        return;
      }
      if existing !in clients {
        return Some(ClientNotFound);
      }
      clients := clients[existing := Some(token)];
      requests := requests[id := Request(Approved, now + REQUEST_TTL, existing, Some(token))];
    }

    method Reject(id: RequestId, now: int) returns (error: Option<Error>)
      modifies this`requests
      ensures error == Undecidable(old(Value()), id, now)
      ensures Value() == if error == None then Put(old(Value()), id, old(requests)[id].(status := Rejected)) else old(Value())
    {
      error := Decide(id, now);
      if error == None {
        requests := requests[id := requests[id].(status := Rejected)];
      }
    }

    method ClearParkedToken(client: ClientId)
      modifies this`requests
      ensures requests == Cleared(old(requests), client)
      ensures requests.Keys == old(requests.Keys)
      ensures forall id :: id in requests ==>
                requests[id] == if old(requests)[id].client == client then old(requests)[id].(parked := None) else old(requests)[id]
    {
      requests := map id | id in requests ::
        if requests[id].client == client && requests[id].parked.Some? then requests[id].(parked := None) else requests[id];
    }

    method Revoke(client: ClientId) returns (error: Option<Error>)
      modifies this
      ensures error == if client in old(clients) then None else Some(ClientNotFound)
      ensures Value() == if error == None then Tables(Cleared(old(requests), client), old(clients)[client := None]) else old(Value())
    {
      if client !in clients {
        return Some(ClientNotFound);
      }
      clients := clients[client := None];
      ClearParkedToken(client);
      return None;
    }

    method Delete(client: ClientId) returns (error: Option<Error>)
      modifies this
      ensures error == if client in old(clients) then None else Some(ClientNotFound)
      ensures Value() == if error == None then Tables(Cleared(old(requests), client), old(clients) - {client}) else old(Value())
    {
      if client !in clients {
        return Some(ClientNotFound);
      }
      clients := clients - {client};
      ClearParkedToken(client);
      return None;
    }

    method ExpireRequests(now: int)
      modifies this`requests
      ensures requests == Swept(old(requests), now)
      ensures requests.Keys == old(requests.Keys)
      ensures forall id :: id in requests ==>
                requests[id] == if old(requests)[id].status == Pending && old(requests)[id].expiresAt <= now
                                then old(requests)[id].(status := Expired) else old(requests)[id]
    {
      requests := map id | id in requests ::
        if requests[id].status == Pending && requests[id].expiresAt <= now then requests[id].(status := Expired) else requests[id];
    }
  }

  // ---- every interleaving ----

  /** A poll between its read and its write. */
  datatype Polling = Polling(id: RequestId, seen: Option<Request>, now: int)

  /** An answer given, to which poll and about which request. */
  datatype Spoken = Spoken(poll: nat, id: RequestId, answer: PollAnswer)

  /** The tables, the polls in flight, and the book: which request each token was
      minted for, the tokens handed out in order, those that must not be, and every
      answer given. */
  datatype World = World(tables: Tables, polls: map<nat, Polling>, minted: map<Token, RequestId>,
                         handed: seq<Token>, killed: set<Token>, answers: seq<Spoken>)

  const START := World(Tables(map[], map[]), map[], map[], [], {}, [])

  /** Each event is one statement or one transaction; `now` is whatever the clock
      showed its caller, so no order between the nows is assumed. */
  datatype Event =
    | Registered(id: RequestId, expiresAt: int)
    | PollRead(poll: nat, id: RequestId, now: int)
    | PollWrote(poll: nat)
    | Approval(id: RequestId, now: int, token: Token, client: ClientId)
    | Replacement(id: RequestId, now: int, token: Token, client: ClientId)
    | Rejection(id: RequestId, now: int)
    | Revocation(client: ClientId)
    | Deletion(client: ClientId)
    | Sweep(now: int)

  predicate Enabled(w: World, e: Event) {
    match e
    case Registered(id, _) => id !in w.tables.requests
    case PollRead(poll, _, _) => poll !in w.polls
    case PollWrote(poll) => poll in w.polls
    case Approval(_, _, token, _) => token !in w.minted
    case Replacement(_, _, token, _) => token !in w.minted
    case _ => true
  }

  function MintedFor(minted: map<Token, RequestId>, requests: map<RequestId, Request>, client: ClientId): set<Token> {
    set t | t in minted && minted[t] in requests && requests[minted[t]].client == client
  }

  /** The token handed out by the step, if one is. */
  function Hands(w: World, e: Event): Option<Token> {
    if e.PollWrote? && e.poll in w.polls then Taken(w.tables, w.polls[e.poll].id, w.polls[e.poll].seen, w.polls[e.poll].now) else None
  }

  /** The tokens whose request the step flips to expired, or whose mon-client it
      revokes or deletes. */
  function Kills(w: World, e: Event): set<Token> {
    match e
    case PollWrote(poll) =>
      if poll !in w.polls then {}
      else
        var p := w.polls[poll];
        var later := PollWrite(w.tables, p.id, p.seen, p.now).requests;
        set t | t in w.minted && w.minted[t] == p.id && p.id in later && later[p.id].status == Expired
    case Revocation(client) => if client in w.tables.clients then MintedFor(w.minted, w.tables.requests, client) else {}
    case Deletion(client) => if client in w.tables.clients then MintedFor(w.minted, w.tables.requests, client) else {}
    case Sweep(now) => set t | t in w.minted && w.minted[t] in w.tables.requests && Stale(w.tables.requests[w.minted[t]], now)
    case _ => {}
  }

  function NextTables(w: World, e: Event): Tables {
    var t := w.tables;
    match e
    case Registered(id, expiresAt) => Put(t, id, Request(Pending, expiresAt, "", None))
    case PollRead(_, _, _) => t
    case PollWrote(poll) => if poll in w.polls then PollWrite(t, w.polls[poll].id, w.polls[poll].seen, w.polls[poll].now) else t
    case Approval(id, now, token, client) =>
      if Undecidable(t, id, now) == None && client !in t.clients then ApprovedFor(t, id, now, token, client) else t
    case Replacement(id, now, token, client) =>
      if Undecidable(t, id, now) == None && client in t.clients then ApprovedFor(t, id, now, token, client) else t
    case Rejection(id, now) => if Undecidable(t, id, now) == None then Put(t, id, t.requests[id].(status := Rejected)) else t
    case Revocation(client) => if client in t.clients then Tables(Cleared(t.requests, client), t.clients[client := None]) else t
    case Deletion(client) => if client in t.clients then Tables(Cleared(t.requests, client), t.clients - {client}) else t
    case Sweep(now) => t.(requests := Swept(t.requests, now))
  }

  predicate Mints(w: World, e: Event) {
    || (e.Approval? && Undecidable(w.tables, e.id, e.now) == None && e.client !in w.tables.clients)
    || (e.Replacement? && Undecidable(w.tables, e.id, e.now) == None && e.client in w.tables.clients)
  }

  function NextPolls(w: World, e: Event): map<nat, Polling> {
    match e
    case PollRead(poll, id, now) =>
      w.polls[poll := Polling(id, if id in w.tables.requests then Some(w.tables.requests[id]) else None, now)]
    case PollWrote(poll) => w.polls - {poll}
    case _ => w.polls
  }

  function Answers(w: World, e: Event): seq<Spoken> {
    if e.PollWrote? && e.poll in w.polls then
      var p := w.polls[e.poll];
      [Spoken(e.poll, p.id, AnswerOf(w.tables, p.id, p.seen, p.now))]
    else []
  }

  function Next(w: World, e: Event): World {
    World(NextTables(w, e), NextPolls(w, e),
          if Mints(w, e) then w.minted[e.token := e.id] else w.minted,
          match Hands(w, e) case None => w.handed case Some(t) => w.handed + [t],
          w.killed + Kills(w, e),
          w.answers + Answers(w, e))
  }

  function Run(run: seq<Event>): World {
    if run == [] then START else Next(Run(run[..|run| - 1]), run[|run| - 1])
  }

  predicate CanRun(run: seq<Event>) {
    run == [] || (CanRun(run[..|run| - 1]) && Enabled(Run(run[..|run| - 1]), run[|run| - 1]))
  }

  // ---- the invariant ----

  /** A parked token is this request's own, and while it can still be taken it has
      not been handed out and nothing has forbidden it. */
  ghost predicate RowStands(w: World, id: RequestId, r: Request) {
    && (r.parked.Some? ==> r.parked.value in w.minted && w.minted[r.parked.value] == id)
    && (r.parked.Some? && r.status == Approved ==> r.parked.value !in w.handed && r.parked.value !in w.killed)
  }

  ghost predicate Sound(w: World) {
    && (forall id :: id in w.tables.requests ==> RowStands(w, id, w.tables.requests[id]))
    && Distinct(w.handed) && (forall t <- w.handed :: t in w.minted) && (forall t <- w.killed :: t in w.minted)
  }

  /** Only a token that was minted, never handed out and never forbidden is handed out. */
  lemma HandsOnlyLiveTokens(w: World, e: Event)
    requires Sound(w) && Hands(w, e).Some?
    ensures var t := Hands(w, e).value; t in w.minted && t !in w.handed && t !in w.killed
  {
    assert RowStands(w, w.polls[e.poll].id, w.tables.requests[w.polls[e.poll].id]);
  }

  lemma NextIsSound(w: World, e: Event)
    requires Sound(w) && Enabled(w, e)
    ensures Sound(Next(w, e))
  {
    var v := Next(w, e);
    if Hands(w, e).Some? {
      HandsOnlyLiveTokens(w, e);
      DistinctAppend(w.handed, Hands(w, e).value);
    }
    forall id | id in v.tables.requests ensures RowStands(v, id, v.tables.requests[id]) {
      RowStaysSound(w, e, id);
    }
  }

  lemma RowStaysSound(w: World, e: Event, id: RequestId)
    requires Sound(w) && Enabled(w, e) && id in Next(w, e).tables.requests
    ensures RowStands(Next(w, e), id, Next(w, e).tables.requests[id])
  {
    if id in w.tables.requests {
      assert RowStands(w, id, w.tables.requests[id]);
      if e.PollWrote? {
        WriteStaysSound(w, e, id);
      }
    }
  }

  lemma WriteStaysSound(w: World, e: Event, id: RequestId)
    requires Sound(w) && e.PollWrote? && Enabled(w, e) && id in w.tables.requests
    ensures RowStands(Next(w, e), id, Next(w, e).tables.requests[id])
  {
    assert RowStands(w, id, w.tables.requests[id]);
  }

  lemma {:induction false} RunIsSound(run: seq<Event>)
    requires CanRun(run)
    ensures Sound(Run(run))
  {
    if run != [] {
      RunIsSound(run[..|run| - 1]);
      NextIsSound(Run(run[..|run| - 1]), run[|run| - 1]);
    }
  }

  /** However polls interleave with everything else, no token is handed out twice. */
  lemma EachTokenOnce(run: seq<Event>)
    requires CanRun(run)
    ensures Distinct(Run(run).handed) && forall t <- Run(run).handed :: t in Run(run).minted
  {
    RunIsSound(run);
  }

  /** A token forbidden before it was handed out never is: not after the revocation
      or deletion of its mon-client, not after its request expired. */
  lemma {:induction false} ForbiddenStaysIn(run: seq<Event>, later: seq<Event>, t: Token)
    requires CanRun(run + later) && t in Run(run).killed && t !in Run(run).handed
    ensures t in Run(run + later).killed && t !in Run(run + later).handed
  {
    if later == [] {
      assert run + later == run;
    } else {
      var init := later[..|later| - 1];
      assert (run + later)[..|run + later| - 1] == run + init;
      ForbiddenStaysIn(run, init, t);
      RunIsSound(run + init);
      var w := Run(run + init);
      if Hands(w, later[|later| - 1]).Some? {
        HandsOnlyLiveTokens(w, later[|later| - 1]);
      }
    }
  }

  function Rank(s: Status): nat {
    match s case Pending => 0 case Approved => 1 case Rejected => 1 case Expired => 2
  }

  /** A request only moves on: from pending to a decision or expiry, from a decision
      to expiry at most, and never back or across. */
  lemma StatusOnlyAdvances(w: World, e: Event, id: RequestId)
    requires Enabled(w, e) && id in w.tables.requests
    ensures id in Next(w, e).tables.requests
    ensures var before, now := w.tables.requests[id].status, Next(w, e).tables.requests[id].status;
            now == before || Rank(before) < Rank(now)
  {
  }

  lemma {:induction false} NeverPendingAgain(run: seq<Event>, later: seq<Event>, id: RequestId)
    requires CanRun(run + later) && id in Run(run).tables.requests && Run(run).tables.requests[id].status != Pending
    ensures id in Run(run + later).tables.requests && Run(run + later).tables.requests[id].status != Pending
  {
    if later == [] {
      assert run + later == run;
    } else {
      var init := later[..|later| - 1];
      assert (run + later)[..|run + later| - 1] == run + init;
      NeverPendingAgain(run, init, id);
      StatusOnlyAdvances(Run(run + init), later[|later| - 1], id);
    }
  }

  // ---- what a poll answers ----

  function RowOf(t: Tables, id: RequestId): Option<Request> {
    if id in t.requests then Some(t.requests[id]) else None
  }

  /** The j-th event is the read of this poll, and p is what it found. */
  ghost predicate ReadAt(run: seq<Event>, j: nat, poll: nat, p: Polling) {
    j < |run| && run[j] == PollRead(poll, p.id, p.now) && p.seen == RowOf(Run(run[..j]).tables, p.id)
  }

  lemma {:induction false} ReadsAreRemembered(run: seq<Event>, poll: nat)
    requires poll in Run(run).polls
    ensures exists j :: ReadAt(run, j, poll, Run(run).polls[poll])
  {
    if run != [] {
      var init, e, p := run[..|run| - 1], run[|run| - 1], Run(run).polls[poll];
      if e.PollRead? && e.poll == poll {
        assert ReadAt(run, |init|, poll, p);
      } else {
        ReadsAreRemembered(init, poll);
        var j: nat :| ReadAt(init, j, poll, p);
        assert run[..j] == init[..j];
        assert ReadAt(run, j, poll, p);
      }
    }
  }

  /** A decision on id is committed at m: the request was pending and not past its
      expiry. */
  ghost predicate DecidedAt(run: seq<Event>, m: nat, id: RequestId, now: int) {
    && m < |run| && id in Run(run[..m]).tables.requests
    && Run(run[..m]).tables.requests[id].status == Pending && now < Run(run[..m]).tables.requests[id].expiresAt
  }

  ghost predicate RejectedAt(run: seq<Event>, m: nat, id: RequestId) {
    m < |run| && run[m].Rejection? && run[m].id == id && DecidedAt(run, m, id, run[m].now)
  }

  /** An approval of id for r's mon-client is committed at m: a new one that did not
      exist, or a replacement of one that did.  It parks its token for five minutes. */
  ghost predicate ApprovedAt(run: seq<Event>, m: nat, id: RequestId, r: Request) {
    && m < |run| && (run[m].Approval? || run[m].Replacement?) && run[m].id == id && DecidedAt(run, m, id, run[m].now)
    && (run[m].Replacement? <==> run[m].client in Run(run[..m]).tables.clients)
    && r.client == run[m].client && r.expiresAt == run[m].now + 300000
    && (r.parked == None || r.parked == Some(run[m].token))
  }

  ghost predicate Explains(run: seq<Event>, id: RequestId, r: Request) {
    && (r.status == Rejected ==> exists m :: RejectedAt(run, m, id))
    && (r.status == Approved ==> exists m :: ApprovedAt(run, m, id, r))
  }

  /** A decided row that stays decided only ever gives up its token. */
  predicate Lasts(was: Request, now: Request) {
    && now.status == was.status && now.client == was.client && now.expiresAt == was.expiresAt
    && (now.parked == was.parked || now.parked == None)
  }

  lemma ExplainsLater(run: seq<Event>, e: Event, id: RequestId, r: Request, later: Request)
    requires Explains(run, id, r) && Lasts(r, later)
    ensures Explains(run + [e], id, later)
  {
    hide Run;
    var all := run + [e];
    if r.status == Rejected {
      var m: nat :| RejectedAt(run, m, id);
      assert all[..m] == run[..m];
      assert RejectedAt(all, m, id);
    }
    if r.status == Approved {
      var m: nat :| ApprovedAt(run, m, id, r);
      assert all[..m] == run[..m];
      assert ApprovedAt(all, m, id, later);
    }
  }

  /** Every decided row was decided, by the decision it shows. */
  lemma {:induction false} DecisionsAreExplained(run: seq<Event>, id: RequestId)
    requires id in Run(run).tables.requests
    ensures Explains(run, id, Run(run).tables.requests[id])
  {
    if run != [] {
      var init, e := run[..|run| - 1], run[|run| - 1];
      assert run == init + [e];
      if id in Run(init).tables.requests {
        DecisionsAreExplained(init, id);
      }
      StepIsExplained(init, e, id);
    }
  }

  /** What one step must be when it decides a request. */
  lemma StepDecides(w: World, e: Event, id: RequestId)
    requires id in Next(w, e).tables.requests && Next(w, e).tables.requests[id].status in {Approved, Rejected}
    ensures id in w.tables.requests
    ensures var was, now := w.tables.requests[id], Next(w, e).tables.requests[id];
            || Lasts(was, now)
            || (now.status == Rejected && e.Rejection? && e.id == id && was.status == Pending && e.now < was.expiresAt)
            || (now.status == Approved && (e.Approval? || e.Replacement?) && e.id == id && was.status == Pending && e.now < was.expiresAt
                && (e.Replacement? <==> e.client in w.tables.clients)
                && now == Request(Approved, e.now + 300000, e.client, Some(e.token)))
  {
  }

  lemma StepIsExplained(init: seq<Event>, e: Event, id: RequestId)
    requires id in Run(init).tables.requests ==> Explains(init, id, Run(init).tables.requests[id])
    requires id in Next(Run(init), e).tables.requests
    ensures Explains(init + [e], id, Next(Run(init), e).tables.requests[id])
  {
    hide Run, Next;
    var w, run := Run(init), init + [e];
    var now := Next(w, e).tables.requests[id];
    assert run[..|init|] == init && run[|init|] == e;
    if now.status in {Approved, Rejected} {
      StepDecides(w, e, id);
      if Lasts(w.tables.requests[id], now) {
        ExplainsLater(init, e, id, w.tables.requests[id], now);
      } else if now.status == Rejected {
        assert RejectedAt(run, |init|, id);
      } else {
        assert ApprovedAt(run, |init|, id, now);
      }
    }
  }

  /** The last thing a run answered. */
  ghost predicate LastAnswer(run: seq<Event>, i: nat, said: Spoken) {
    i < |run| && Run(run[..i + 1]).answers == Run(run[..i]).answers + [said]
  }

  /** The i-th event writes the answer of a poll that read at j and found p. */
  ghost predicate AnsweredAt(run: seq<Event>, i: nat, j: nat, p: Polling, answer: PollAnswer) {
    && i < |run| && run[i].PollWrote? && ReadAt(run[..i], j, run[i].poll, p)
    && SaysOfRow(answer, p.seen, p.now) && LastAnswer(run, i, Spoken(run[i].poll, p.id, answer))
  }

  lemma WriteAnswers(w: World, e: Event)
    requires Enabled(w, e) && e.PollWrote?
    ensures var p := w.polls[e.poll];
            var answer := AnswerOf(w.tables, p.id, p.seen, p.now);
            SaysOfRow(answer, p.seen, p.now) && Next(w, e).answers == w.answers + [Spoken(e.poll, p.id, answer)]
  {
  }

  /** Every poll is answered, and truly: there is a read of the same poll behind the
      write, and the answer says exactly what the row was then. */
  lemma PollsAnswerTruly(run: seq<Event>, i: nat)
    requires CanRun(run) && i < |run| && run[i].PollWrote?
    ensures exists j: nat, p, answer :: AnsweredAt(run, i, j, p, answer)
  {
    CanRunPrefix(run, i + 1);
    StepOfRun(run, i);
    var w, poll := Run(run[..i]), run[i].poll;
    WriteAnswers(w, run[i]);
    ReadsAreRemembered(run[..i], poll);
    hide Run, CanRun, SaysOfRow, Next, AnswerOf;
    var p := w.polls[poll];
    var j: nat :| ReadAt(run[..i], j, poll, p);
    assert AnsweredAt(run, i, j, p, AnswerOf(w.tables, p.id, p.seen, p.now));
  }

  lemma StepOfRun(run: seq<Event>, i: nat)
    requires i < |run| && CanRun(run[..i + 1])
    ensures Enabled(Run(run[..i]), run[i]) && Run(run[..i + 1]) == Next(Run(run[..i]), run[i])
  {
    assert run[..i + 1][..i] == run[..i] && run[..i + 1][i] == run[i];
  }

  lemma {:induction false} CanRunPrefix(run: seq<Event>, n: nat)
    requires CanRun(run) && n <= |run|
    ensures CanRun(run[..n])
  {
    if n < |run| {
      CanRunPrefix(run[..|run| - 1], n);
      assert run[..|run| - 1][..n] == run[..n];
    } else {
      assert run[..n] == run;
    }
  }

  /** A poll is told "rejected" only after a rejection of its request was committed
      before it read, and "approved" only after an approval was: for the mon-client
      that approval named, and within its five minutes. */
  lemma DecisionsAreTold(run: seq<Event>, i: nat, said: Spoken)
    requires CanRun(run) && i < |run| && run[i].PollWrote? && LastAnswer(run, i, said)
    ensures said.answer == WasRejected ==> exists m: nat :: m < i && RejectedAt(run, m, said.id)
    ensures said.answer.WasApproved? ==> exists m: nat, r :: m < i && ApprovedAt(run, m, said.id, r) && r.client == said.answer.client
  {
    PollsAnswerTruly(run, i);
    hide Run, CanRun, SaysOfRow;
    var j: nat, p, answer :| AnsweredAt(run, i, j, p, answer);
    SameLast(Run(run[..i]).answers, said, Spoken(run[i].poll, p.id, answer));
    assert run[..i][..j] == run[..j];
    ToldFromRead(run, j, p, answer);
  }

  lemma SameLast(before: seq<Spoken>, one: Spoken, two: Spoken)
    requires before + [one] == before + [two]
    ensures one == two
  {
    assert (before + [one])[|before|] == one;
  }

  lemma ToldFromRead(run: seq<Event>, j: nat, p: Polling, answer: PollAnswer)
    requires j < |run| && p.seen == RowOf(Run(run[..j]).tables, p.id) && SaysOfRow(answer, p.seen, p.now)
    ensures answer == WasRejected ==> exists m: nat :: m < j && RejectedAt(run, m, p.id)
    ensures answer.WasApproved? ==> exists m: nat, r :: m < j && ApprovedAt(run, m, p.id, r) && r.client == answer.client
  {
    hide Run;
    if answer == WasRejected || answer.WasApproved? {
      DecisionsAreExplained(run[..j], p.id);
      if answer == WasRejected {
        var m: nat :| RejectedAt(run[..j], m, p.id);
        assert run[..j][..m] == run[..m];
        assert RejectedAt(run, m, p.id);
      } else {
        var m: nat :| ApprovedAt(run[..j], m, p.id, p.seen.value);
        assert run[..j][..m] == run[..m];
        assert ApprovedAt(run, m, p.id, p.seen.value);
      }
    }
  }

  function TokensIn(answers: seq<Spoken>): seq<Token> {
    if answers == [] then []
    else
      var a := answers[|answers| - 1].answer;
      TokensIn(answers[..|answers| - 1]) + (if a.WasApproved? && a.token.Some? then [a.token.value] else [])
  }

  ghost predicate TokenIsItsOwn(w: World, s: Spoken) {
    s.answer.WasApproved? && s.answer.token.Some? ==> s.answer.token.value in w.minted && w.minted[s.answer.token.value] == s.id
  }

  /** The tokens handed out are exactly those in the answers, in order; and each was
      minted by the approval of the request it is answered for. */
  lemma {:induction false} HandedIsAnswered(run: seq<Event>)
    requires CanRun(run)
    ensures Run(run).handed == TokensIn(Run(run).answers)
    ensures forall s <- Run(run).answers :: TokenIsItsOwn(Run(run), s)
  {
    if run != [] {
      var init, e := run[..|run| - 1], run[|run| - 1];
      HandedIsAnswered(init);
      RunIsSound(init);
      AnsweringOnce(Run(init), e);
    }
  }

  lemma AnsweringOnce(w: World, e: Event)
    requires Sound(w) && Enabled(w, e)
    requires w.handed == TokensIn(w.answers) && forall s <- w.answers :: TokenIsItsOwn(w, s)
    ensures Next(w, e).handed == TokensIn(Next(w, e).answers)
    ensures forall s <- Next(w, e).answers :: TokenIsItsOwn(Next(w, e), s)
  {
    HandingIsAnswering(w, e);
    MintedStays(w, e);
    hide Next, Answers, Hands, Enabled, Sound;
    var more := Answers(w, e);
    if more == [] {
      assert w.answers + more == w.answers;
    } else {
      assert more == [more[0]];
      TokensAppend(w.answers, more[0]);
    }
  }

  lemma MintedStays(w: World, e: Event)
    requires Enabled(w, e)
    ensures forall t :: t in w.minted ==> t in Next(w, e).minted && Next(w, e).minted[t] == w.minted[t]
  {
  }

  lemma TokensAppend(answers: seq<Spoken>, s: Spoken)
    ensures TokensIn(answers + [s]) == TokensIn(answers) + (if s.answer.WasApproved? && s.answer.token.Some? then [s.answer.token.value] else [])
  {
    assert (answers + [s])[..|answers|] == answers;
  }

  /** A step answers at most once, and hands a token out exactly when its answer is
      "approved" with that token. */
  lemma HandingIsAnswering(w: World, e: Event)
    requires Sound(w) && Enabled(w, e)
    ensures |Answers(w, e)| <= 1
    ensures Hands(w, e) == if Answers(w, e) != [] && Answers(w, e)[0].answer.WasApproved? then Answers(w, e)[0].answer.token else None
    ensures Hands(w, e).Some? ==> Hands(w, e).value in w.minted && w.minted[Hands(w, e).value] == Answers(w, e)[0].id
    ensures Next(w, e).answers == w.answers + Answers(w, e)
    ensures Next(w, e).handed == match Hands(w, e) case None => w.handed case Some(t) => w.handed + [t]
  {
    if Hands(w, e).Some? {
      HandsOnlyLiveTokens(w, e);
      assert RowStands(w, w.polls[e.poll].id, w.tables.requests[w.polls[e.poll].id]);
    }
  }

  /** What a poll's write does, to its own row alone: it expires a row it read as
      pending and stale, or an approved one past its time; it takes the token it hands
      out; and otherwise it changes nothing. */
  lemma WritesAreNarrow(w: World, e: Event, id: RequestId)
    requires Enabled(w, e) && e.PollWrote? && id in w.tables.requests
    ensures var p, was, now := w.polls[e.poll], w.tables.requests[id], Next(w, e).tables.requests[id];
            var stale := p.seen.Some? && p.seen.value.expiresAt <= p.now;
            if p.id != id || p.seen == None then now == was
            else if stale && p.seen.value.status == Pending then now == was.(status := Expired)
            else if stale && p.seen.value.status == Approved && was.status == Approved then now == was.(status := Expired, parked := None)
            else if Hands(w, e).Some? then was.parked == Hands(w, e) && now == was.(parked := None)
            else now == was
    ensures Next(w, e).tables.clients == w.tables.clients
  {
  }
}
