/** Admitting registration requests (internal/registry/registry.go, Register). */
module Admission {
  import opened Wrappers

  const REQUEST_TTL: int := 300000
  const RATE_WINDOW: int := 60000
  const MAX_PER_IP := 3
  const MAX_GLOBAL := 20
  const GLOBAL_RETRY: int := 60000

  datatype Row = Row(ip: string, createdAt: int, expiresAt: int, pending: bool)

  datatype Outcome = Admitted(expiresAt: int) | BadCode | RateLimited(retryAfter: int)

  /** ceilSeconds, in milliseconds: whole seconds, at least one. */
  function CeilSeconds(d: int): (r: int)
    ensures r % 1000 == 0 && r >= 1000 && r >= d
    ensures r > 1000 ==> r - 1000 < d
  {
    var secs := (d + 999) / 1000;
    1000 * (if secs < 1 then 1 else secs)
  }

  predicate Live(r: Row, now: int) {
    r.pending && r.expiresAt > now
  }

  /** The rows a cap counts: one address's, or everyone's. */
  predicate Blocks(r: Row, ip: Option<string>, now: int) {
    Live(r, now) && (ip == None || r.ip == ip.value)
  }

  function Blocking(rows: seq<Row>, ip: Option<string>, now: int): nat {
    if rows == [] then 0
    else Blocking(rows[..|rows| - 1], ip, now) + (if Blocks(rows[|rows| - 1], ip, now) then 1 else 0)
  }

  function FirstExpiry(rows: seq<Row>, ip: Option<string>, now: int): Option<int> {
    if rows == [] then None
    else
      var r, before := rows[|rows| - 1], FirstExpiry(rows[..|rows| - 1], ip, now);
      if Blocks(r, ip, now) && (before == None || r.expiresAt < before.value) then Some(r.expiresAt) else before
  }

  function LastCreated(rows: seq<Row>, ip: string): Option<int> {
    if rows == [] then None
    else
      var r, before := rows[|rows| - 1], LastCreated(rows[..|rows| - 1], ip);
      if r.ip == ip && (before == None || r.createdAt > before.value) then Some(r.createdAt) else before
  }

  /** When the cap that refused can next free up. */
  function CapRetryAfter(rows: seq<Row>, ip: Option<string>, now: int): int {
    match FirstExpiry(rows, ip, now)
    case None => GLOBAL_RETRY
    case Some(t) => CeilSeconds(t - now)
  }

  predicate TooSoon(rows: seq<Row>, ip: string, now: int) {
    LastCreated(rows, ip).Some? && now - LastCreated(rows, ip).value < RATE_WINDOW
  }

  function OutcomeOf(rows: seq<Row>, validCode: bool, ip: string, now: int): Outcome {
    if !validCode then BadCode
    else if TooSoon(rows, ip, now) then RateLimited(CeilSeconds(RATE_WINDOW - (now - LastCreated(rows, ip).value)))
    else if Blocking(rows, Some(ip), now) >= MAX_PER_IP then RateLimited(CapRetryAfter(rows, Some(ip), now))
    else if Blocking(rows, None, now) >= MAX_GLOBAL then RateLimited(CapRetryAfter(rows, None, now))
    else Admitted(now + REQUEST_TTL)
  }

  // ---- the program ----

  class Desk {
    var rows: seq<Row>

    constructor ()
      ensures rows == []
    {
      rows := [];
    }

    method LatestOf(ip: string) returns (created: Option<int>)
      ensures created == LastCreated(rows, ip)
    {
      created := None;
      for i := 0 to |rows|
        invariant created == LastCreated(rows[..i], ip)
      {
        assert rows[..i + 1][..i] == rows[..i];
        if rows[i].ip == ip && (created == None || rows[i].createdAt > created.value) {
          created := Some(rows[i].createdAt);
        }
      }
      assert rows[..|rows|] == rows;
    }

    /** The count of a cap, and the earliest expiry among what it counted. */
    method Count(ip: Option<string>, now: int) returns (n: nat, first: Option<int>)
      ensures n == Blocking(rows, ip, now) && first == FirstExpiry(rows, ip, now)
    {
      n, first := 0, None;
      for i := 0 to |rows|
        invariant n == Blocking(rows[..i], ip, now) && first == FirstExpiry(rows[..i], ip, now)
      {
        assert rows[..i + 1][..i] == rows[..i];
        if Blocks(rows[i], ip, now) {
          n := n + 1;
          if first == None || rows[i].expiresAt < first.value {
            first := Some(rows[i].expiresAt);
          }
        }
      }
      assert rows[..|rows|] == rows;
    }

    /** Register: one transaction, the checks in order, then the insert. */
    method Register(validCode: bool, ip: string, now: int) returns (outcome: Outcome)
      modifies this
      ensures outcome == OutcomeOf(old(rows), validCode, ip, now)
      ensures rows == if outcome.Admitted? then old(rows) + [Row(ip, now, now + REQUEST_TTL, true)] else old(rows)
    {
      if !validCode {
        return BadCode;
      }
      var last := LatestOf(ip);
      if last.Some? {
        var age := now - last.value;
        if age < RATE_WINDOW {
          return RateLimited(CeilSeconds(RATE_WINDOW - age));
        }
      }
      var fromIp, first := Count(Some(ip), now);
      if fromIp >= MAX_PER_IP {
        return RateLimited(if first == None then GLOBAL_RETRY else CeilSeconds(first.value - now));
      }
      var all, firstOfAll := Count(None, now);
      if all >= MAX_GLOBAL {
        return RateLimited(if firstOfAll == None then GLOBAL_RETRY else CeilSeconds(firstOfAll.value - now));
      }
      rows := rows + [Row(ip, now, now + REQUEST_TTL, true)];
      return Admitted(now + REQUEST_TTL);
    }
  }

  // ---- every run under a clock that does not go back ----

  /** A request arrives, or the i-th one is decided, expired or handed off: it stops
      pending, whatever becomes of its expiry. */
  datatype Event = Asked(validCode: bool, ip: string, now: int) | Settled(index: nat, expiresAt: int)

  datatype World = World(rows: seq<Row>, clock: int)

  predicate Enabled(w: World, e: Event) {
    match e
    case Asked(_, _, now) => now >= w.clock
    case Settled(index, _) => index < |w.rows|
  }

  function Next(w: World, e: Event): World {
    match e
    case Asked(validCode, ip, now) =>
      World(if OutcomeOf(w.rows, validCode, ip, now).Admitted? then w.rows + [Row(ip, now, now + REQUEST_TTL, true)] else w.rows,
            if now > w.clock then now else w.clock)
    case Settled(index, expiresAt) =>
      if index < |w.rows| then w.(rows := w.rows[index := w.rows[index].(pending := false, expiresAt := expiresAt)]) else w
  }

  function Run(start: int, run: seq<Event>): World {
    if run == [] then World([], start) else Next(Run(start, run[..|run| - 1]), run[|run| - 1])
  }

  predicate CanRun(start: int, run: seq<Event>) {
    run == [] || (CanRun(start, run[..|run| - 1]) && Enabled(Run(start, run[..|run| - 1]), run[|run| - 1]))
  }

  ghost predicate Capped(rows: seq<Row>, now: int) {
    && Blocking(rows, None, now) <= MAX_GLOBAL
    && forall ip :: Blocking(rows, Some(ip), now) <= MAX_PER_IP
  }

  ghost predicate Spaced(rows: seq<Row>) {
    forall i, j :: 0 <= i < j < |rows| && rows[i].ip == rows[j].ip ==> rows[j].createdAt - rows[i].createdAt >= RATE_WINDOW
  }

  lemma {:induction false} BlockingShrinks(rows: seq<Row>, ip: Option<string>, now: int, later: int)
    requires now <= later
    ensures Blocking(rows, ip, later) <= Blocking(rows, ip, now)
  {
    if rows != [] {
      BlockingShrinks(rows[..|rows| - 1], ip, now, later);
    }
  }

  lemma {:induction false} SettlingFrees(rows: seq<Row>, index: nat, r: Row, ip: Option<string>, now: int)
    requires index < |rows| && !r.pending
    ensures Blocking(rows[index := r], ip, now) <= Blocking(rows, ip, now)
  {
    var after := rows[index := r];
    var n := |rows| - 1;
    if index < n {
      assert after[..n] == rows[..n][index := r];
      SettlingFrees(rows[..n], index, r, ip, now);
    } else {
      assert after[..n] == rows[..n];
    }
  }

  lemma {:induction false} LastCreatedIsLast(rows: seq<Row>, ip: string)
    ensures LastCreated(rows, ip) == None <==> forall r <- rows :: r.ip != ip
    ensures LastCreated(rows, ip).Some? ==> forall r <- rows :: r.ip == ip ==> r.createdAt <= LastCreated(rows, ip).value
  {
    if rows != [] {
      LastCreatedIsLast(rows[..|rows| - 1], ip);
      assert rows == rows[..|rows| - 1] + [rows[|rows| - 1]];
    }
  }

  lemma AdmissionKeepsCaps(rows: seq<Row>, ip: string, now: int)
    requires Capped(rows, now) && OutcomeOf(rows, true, ip, now).Admitted?
    ensures Capped(rows + [Row(ip, now, now + REQUEST_TTL, true)], now)
  {
    var r := Row(ip, now, now + REQUEST_TTL, true);
    assert (rows + [r])[..|rows|] == rows;
  }

  lemma AdmissionKeepsSpacing(rows: seq<Row>, ip: string, now: int)
    requires Spaced(rows) && OutcomeOf(rows, true, ip, now).Admitted?
    ensures Spaced(rows + [Row(ip, now, now + REQUEST_TTL, true)])
  {
    LastCreatedIsLast(rows, ip);
    forall i | 0 <= i < |rows| && rows[i].ip == ip ensures now - rows[i].createdAt >= RATE_WINDOW {
      assert rows[i] in rows;
    }
  }

  lemma TimeKeepsCaps(rows: seq<Row>, now: int, later: int)
    requires Capped(rows, now) && now <= later
    ensures Capped(rows, later)
  {
    BlockingShrinks(rows, None, now, later);
    forall ip ensures Blocking(rows, Some(ip), later) <= MAX_PER_IP {
      BlockingShrinks(rows, Some(ip), now, later);
    }
  }

  lemma NextKeeps(w: World, e: Event)
    requires Capped(w.rows, w.clock) && Spaced(w.rows) && Enabled(w, e)
    ensures Capped(Next(w, e).rows, Next(w, e).clock) && Spaced(Next(w, e).rows)
  {
    match e
    case Asked(validCode, ip, now) =>
      TimeKeepsCaps(w.rows, w.clock, now);
      if OutcomeOf(w.rows, validCode, ip, now).Admitted? {
        AdmissionKeepsCaps(w.rows, ip, now);
        AdmissionKeepsSpacing(w.rows, ip, now);
      }
    case Settled(index, expiresAt) =>
      var r := w.rows[index].(pending := false, expiresAt := expiresAt);
      SettlingFrees(w.rows, index, r, None, w.clock);
      forall ip ensures Blocking(w.rows[index := r], Some(ip), w.clock) <= MAX_PER_IP {
        SettlingFrees(w.rows, index, r, Some(ip), w.clock);
      }
  }

  /** In every reachable state, now and at any later moment, at most three live
      requests are pending per address and twenty in all, and two requests admitted
      from one address are at least a minute apart. */
  lemma {:induction false} CapsHold(start: int, run: seq<Event>, moment: int)
    requires CanRun(start, run) && moment >= Run(start, run).clock
    ensures Capped(Run(start, run).rows, moment) && Spaced(Run(start, run).rows)
  {
    if run != [] {
      var w := Run(start, run[..|run| - 1]);
      CapsHold(start, run[..|run| - 1], w.clock);
      NextKeeps(w, run[|run| - 1]);
      TimeKeepsCaps(Run(start, run).rows, Run(start, run).clock, moment);
    }
  }

  // ---- what the checks are ----

  /** The live pending rows a cap counts, by their index. */
  ghost function Counted(rows: seq<Row>, ip: Option<string>, now: int): set<nat> {
    set i: nat | i < |rows| && rows[i].pending && rows[i].expiresAt > now && (ip == None || rows[i].ip == ip.value)
  }

  lemma {:induction false} BlockingCounts(rows: seq<Row>, ip: Option<string>, now: int)
    ensures Blocking(rows, ip, now) == |Counted(rows, ip, now)|
  {
    if rows == [] {
      assert Counted(rows, ip, now) == {};
    } else {
      var n := |rows| - 1;
      var init := rows[..n];
      BlockingCounts(init, ip, now);
      CountedStep(rows, ip, now);
      hide Counted;
    }
  }

  lemma CountedStep(rows: seq<Row>, ip: Option<string>, now: int)
    requires rows != []
    ensures var n := |rows| - 1;
            && n !in Counted(rows[..n], ip, now)
            && Counted(rows, ip, now) == Counted(rows[..n], ip, now) + (if Blocks(rows[n], ip, now) then {n} else {})
  {
    var n, init := |rows| - 1, rows[..|rows| - 1];
    forall i: nat ensures i in Counted(rows, ip, now) <==> i in Counted(init, ip, now) || (i == n && Blocks(rows[n], ip, now)) {
      assert i < n ==> init[i] == rows[i];
    }
  }

  lemma {:induction false} LastCreatedIsRow(rows: seq<Row>, ip: string)
    ensures LastCreated(rows, ip).Some? ==> exists r <- rows :: r.ip == ip && r.createdAt == LastCreated(rows, ip).value
  {
    if rows != [] {
      var init, last := rows[..|rows| - 1], rows[|rows| - 1];
      LastCreatedIsRow(init, ip);
      assert rows == init + [last];
      if LastCreated(rows, ip) == LastCreated(init, ip) && LastCreated(rows, ip).Some? {
        var r :| r in init && r.ip == ip && r.createdAt == LastCreated(init, ip).value;
        assert r in rows;
      } else if LastCreated(rows, ip).Some? {
        assert last in rows;
      }
    }
  }

  /** A request is admitted, for five minutes, exactly when its code is valid, nothing was
      admitted from its address within the last minute, and fewer than three live requests
      are pending from there and fewer than twenty in all. */
  lemma AdmittedIff(rows: seq<Row>, validCode: bool, ip: string, now: int)
    ensures var soon := exists r <- rows :: r.ip == ip && now - r.createdAt < 60000;
            var full := |Counted(rows, Some(ip), now)| >= 3 || |Counted(rows, None, now)| >= 20;
            var outcome := OutcomeOf(rows, validCode, ip, now);
            && (outcome == BadCode <==> !validCode)
            && (outcome.RateLimited? <==> validCode && (soon || full))
            && (outcome.Admitted? ==> outcome.expiresAt == now + 300000)
  {
    LastCreatedIsLast(rows, ip);
    LastCreatedIsRow(rows, ip);
    BlockingCounts(rows, Some(ip), now);
    BlockingCounts(rows, None, now);
    if TooSoon(rows, ip, now) {
      var r :| r in rows && r.ip == ip && r.createdAt == LastCreated(rows, ip).value;
      assert now - r.createdAt < 60000;
    }
  }

  // ---- Retry-After ----

  lemma {:induction false} FirstExpiryIsFirst(rows: seq<Row>, ip: Option<string>, now: int)
    ensures FirstExpiry(rows, ip, now) == None <==> Blocking(rows, ip, now) == 0
    ensures FirstExpiry(rows, ip, now).Some? ==> FirstExpiry(rows, ip, now).value > now
  {
    if rows != [] {
      FirstExpiryIsFirst(rows[..|rows| - 1], ip, now);
    }
  }

  /** By the earliest expiry at least one of the counted rows has lapsed. */
  lemma {:induction false} ExpiryFrees(rows: seq<Row>, ip: Option<string>, now: int, later: int)
    requires FirstExpiry(rows, ip, now).Some? && later >= FirstExpiry(rows, ip, now).value
    ensures Blocking(rows, ip, later) < Blocking(rows, ip, now)
  {
    FirstExpiryIsFirst(rows, ip, now);
    var init := rows[..|rows| - 1];
    if FirstExpiry(init, ip, now).Some? && later >= FirstExpiry(init, ip, now).value {
      ExpiryFrees(init, ip, now, later);
    } else {
      BlockingShrinks(init, ip, now, later);
    }
  }

  /** Waiting out the quoted time, with nothing else admitted meanwhile, gets past the
      check that refused. */
  lemma RetryAfterSuffices(rows: seq<Row>, ip: string, now: int, later: int)
    requires Capped(rows, now) && OutcomeOf(rows, true, ip, now).RateLimited?
    requires later >= now + OutcomeOf(rows, true, ip, now).retryAfter
    ensures !TooSoon(rows, ip, later)
    ensures !TooSoon(rows, ip, now) ==> Blocking(rows, Some(ip), later) < MAX_PER_IP
    ensures !TooSoon(rows, ip, now) && Blocking(rows, Some(ip), now) < MAX_PER_IP ==> OutcomeOf(rows, true, ip, later).Admitted?
  {
    BlockingShrinks(rows, Some(ip), now, later);
    BlockingShrinks(rows, None, now, later);
    FirstExpiryIsFirst(rows, Some(ip), now);
    FirstExpiryIsFirst(rows, None, now);
    if !TooSoon(rows, ip, now) {
      if Blocking(rows, Some(ip), now) >= MAX_PER_IP {
        ExpiryFrees(rows, Some(ip), now, later);
      } else {
        ExpiryFrees(rows, None, now, later);
      }
    }
  }

  /** And no quoted time is a whole second longer than the check needs: a second
      earlier the rate limit would still refuse. */
  lemma RateRetryIsTight(rows: seq<Row>, ip: string, now: int)
    requires TooSoon(rows, ip, now) && LastCreated(rows, ip).value <= now
    ensures var retry := OutcomeOf(rows, true, ip, now).retryAfter;
            retry <= RATE_WINDOW && (retry > 1000 ==> TooSoon(rows, ip, now + retry - 1000))
  {
  }

  /** Until the first expiry a cap counts as many rows as it did. */
  lemma {:induction false} BlockingLasts(rows: seq<Row>, ip: Option<string>, now: int, later: int)
    requires now <= later && (FirstExpiry(rows, ip, now).Some? ==> later < FirstExpiry(rows, ip, now).value)
    ensures Blocking(rows, ip, later) == Blocking(rows, ip, now)
  {
    if rows != [] {
      BlockingLasts(rows[..|rows| - 1], ip, now, later);
    }
  }

  /** The caps' quoted time is tight too: a second earlier the request would still be
      refused. */
  lemma CapRetryIsTight(rows: seq<Row>, ip: string, now: int)
    requires OutcomeOf(rows, true, ip, now).RateLimited? && !TooSoon(rows, ip, now)
    ensures var retry := OutcomeOf(rows, true, ip, now).retryAfter;
            retry > 1000 ==> OutcomeOf(rows, true, ip, now + retry - 1000).RateLimited?
  {
    var retry := OutcomeOf(rows, true, ip, now).retryAfter;
    if retry > 1000 {
      var cap := if Blocking(rows, Some(ip), now) >= MAX_PER_IP then Some(ip) else None;
      FirstExpiryIsFirst(rows, cap, now);
      BlockingLasts(rows, cap, now, now + retry - 1000);
    }
  }
}
