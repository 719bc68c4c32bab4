/** The heartbeat protocol end to end: one mon-client's buffer, a network that
    loses, delays, reorders and repeats, and the server's ack. */
module Protocol {
  import opened Wrappers
  import opened Store
  import opened Wire
  import opened Delivery
  import Tables
  import Machine
  import Config

  datatype Reply = Reply(request: nat, ack: int)

  /** One token generation of one mon-client.  `sent` keeps every request ever
      sent, since any of them may still arrive; `made`, `dropped` and `evicted`
      are the history the theorem speaks about, for as long as cycles.json is kept:
      after a loss seqs are used again. */
  datatype World = World(
    pile: Pile,
    remembered: int,
    waiting: Option<nat>,
    sent: seq<seq<Cycle>>,
    replies: seq<Reply>,
    lastAck: int,
    recorded: seq<Cycle>,
    lives: seq<int>,
    made: map<int, Cycle>,
    dropped: set<int>,
    evicted: set<int>)

  const START := World(Pile(1, []), 0, None, [], [], 0, [], [], map[], {}, {})

  datatype Event =
    | Probe(ts: int, results: seq<Result>)
    | Arrive(request: nat)
    | RollBack(request: nat)
    | Deliver(reply: nat)
    | GiveUp
    | Restart
    | LoseFile

  ghost predicate Possible(w: World, e: Event) {
    match e
    case Probe(_, _) => w.waiting == None
    case Arrive(r) => r < |w.sent|
    case RollBack(r) => r < |w.sent|
    case Deliver(p) => p < |w.replies| && w.waiting == Some(w.replies[p].request)
    case GiveUp => w.waiting.Some?
    case Restart => true
    case LoseFile => true
  }

  function Seqs(cycles: seq<Cycle>): set<int> {
    set c | c in cycles :: c.seqNo
  }

  ghost function Next(w: World, e: Event): World
    requires Possible(w, e)
  {
    match e
    case Probe(ts, results) =>
      var p := Added(w.pile, ts, results);
      w.(pile := p, waiting := Some(|w.sent|), sent := w.sent + [p.cycles],
         made := w.made[w.pile.nextSeq := Cycle(w.pile.nextSeq, ts, false, results)],
         evicted := w.evicted + (Seqs(w.pile.cycles) - Seqs(p.cycles)))
    case Arrive(r) =>
      var accepted := Accepted(w.lastAck, w.sent[r]);
      var ack := AckOf(w.lastAck, w.sent[r]);
      var live := LiveCycle(accepted);
      w.(lastAck := ack, recorded := w.recorded + accepted, replies := w.replies + [Reply(r, ack)],
         lives := if live == None then w.lives else w.lives + [live.value.seqNo])
    case RollBack(_) => w
    case Deliver(p) =>
      var ack := w.replies[p].ack;
      w.(pile := Acked(w.pile, ack), waiting := None, remembered := if ack > w.remembered then ack else w.remembered,
         dropped := w.dropped + (Seqs(w.pile.cycles) - Seqs(Acked(w.pile, ack).cycles)))
    case GiveUp => w.(pile := w.pile.(cycles := Flagged(w.pile.cycles)), waiting := None)
    case Restart => w.(pile := Continued(w.pile, w.remembered), waiting := None)
    case LoseFile => w.(pile := Continued(Pile(1, []), w.remembered), waiting := None)
  }

  ghost function Run(events: seq<Event>): Option<World> {
    if events == [] then Some(START)
    else
      match Run(events[..|events| - 1])
      case None => None
      case Some(w) => if Possible(w, events[|events| - 1]) then Some(Next(w, events[|events| - 1])) else None
  }

  // ---- the invariant ----

  ghost predicate Rising(cycles: seq<Cycle>) {
    forall i, j :: 0 <= i < j < |cycles| ==> cycles[i].seqNo < cycles[j].seqNo
  }

  /** Same cycle up to the unverified flag. */
  predicate Alike(c: Cycle, d: Cycle) {
    c.seqNo == d.seqNo && c.ts == d.ts && c.results == d.results
  }

  ghost predicate Genuine(cycles: seq<Cycle>, made: map<int, Cycle>) {
    forall c <- cycles :: c.seqNo in made && Alike(made[c.seqNo], c)
  }

  ghost predicate Below(cycles: seq<Cycle>, bound: int) {
    forall c <- cycles :: c.seqNo < bound
  }

  /** Every cycle still owed that is no newer than this request was in it. */
  ghost predicate Covers(request: seq<Cycle>, owed: seq<Cycle>) {
    request != [] && forall c <- owed :: c.seqNo <= request[|request| - 1].seqNo ==> c.seqNo in Seqs(request)
  }

  ghost predicate Requests(w: World) {
    forall r <- w.sent :: Rising(r) && Below(r, w.pile.nextSeq) && Genuine(r, w.made) && Covers(r, w.pile.cycles)
  }

  ghost predicate Client(w: World) {
    && w.pile.nextSeq >= 1 && Rising(w.pile.cycles) && Below(w.pile.cycles, w.pile.nextSeq) && Genuine(w.pile.cycles, w.made)
    && (forall c <- w.pile.cycles :: c.seqNo > 0)
    && w.remembered <= w.lastAck
    && (w.waiting.Some? ==> w.waiting.value < |w.sent|)
  }

  ghost predicate Server(w: World) {
    && 0 <= w.lastAck < w.pile.nextSeq
    && Rising(w.recorded) && Genuine(w.recorded, w.made) && (forall c <- w.recorded :: c.seqNo <= w.lastAck)
    && (forall c <- w.pile.cycles :: c.seqNo <= w.lastAck ==> c.seqNo in Seqs(w.recorded))
    && (forall p <- w.replies :: p.ack <= w.lastAck)
    && (forall i, j :: 0 <= i < j < |w.lives| ==> w.lives[i] < w.lives[j])
    && (forall s <- w.lives :: s <= w.lastAck && s in Seqs(w.recorded))
  }

  /** Every cycle made is owed, dropped on an ack, or evicted, and only one of
      these; and what was dropped on an ack was recorded. */
  ghost predicate Accounted(w: World) {
    && (forall s :: s in w.made <==> 1 <= s < w.pile.nextSeq)
    && Seqs(w.pile.cycles) + w.dropped + w.evicted == w.made.Keys
    && Seqs(w.pile.cycles) !! w.dropped && Seqs(w.pile.cycles) !! w.evicted && w.dropped !! w.evicted
    && w.dropped <= Seqs(w.recorded)
  }

  ghost predicate Sound(w: World) {
    Requests(w) && Client(w) && Server(w) && Accounted(w)
  }

  // ---- lists of cycles ----

  lemma RisingAppend(cycles: seq<Cycle>, c: Cycle)
    requires Rising(cycles) && forall d <- cycles :: d.seqNo < c.seqNo
    ensures Rising(cycles + [c])
  {
    var all := cycles + [c];
    forall i, j | 0 <= i < j < |all| ensures all[i].seqNo < all[j].seqNo {
      assert all[i] in cycles;
    }
  }

  lemma RisingInit(cycles: seq<Cycle>)
    requires Rising(cycles) && cycles != []
    ensures Rising(cycles[..|cycles| - 1])
    ensures forall c <- cycles[..|cycles| - 1] :: c.seqNo < cycles[|cycles| - 1].seqNo
  {
    var init := cycles[..|cycles| - 1];
    forall c | c in init ensures c.seqNo < cycles[|cycles| - 1].seqNo {
      var i :| 0 <= i < |init| && init[i] == c;
      assert cycles[i] == c;
    }
  }

  lemma {:induction false} UnackedRises(cycles: seq<Cycle>, ack: int)
    requires Rising(cycles)
    ensures Rising(Unacked(cycles, ack))
  {
    if cycles != [] {
      RisingInit(cycles);
      UnackedRises(cycles[..|cycles| - 1], ack);
      var kept, last := Unacked(cycles[..|cycles| - 1], ack), cycles[|cycles| - 1];
      RisingAppend(kept, last);
      assert kept + [] == kept;
    }
  }

  lemma {:induction false} AcceptedRises(lastAck: int, cycles: seq<Cycle>)
    requires Rising(cycles)
    ensures Rising(Accepted(lastAck, cycles))
  {
    if cycles != [] {
      RisingInit(cycles);
      AcceptedRises(lastAck, cycles[..|cycles| - 1]);
      var kept, last := Accepted(lastAck, cycles[..|cycles| - 1]), cycles[|cycles| - 1];
      RisingAppend(kept, last);
      assert kept + [] == kept;
    }
  }

  lemma RisingConcat(xs: seq<Cycle>, ys: seq<Cycle>, bound: int)
    requires Rising(xs) && Rising(ys) && (forall c <- xs :: c.seqNo <= bound) && forall c <- ys :: c.seqNo > bound
    ensures Rising(xs + ys)
  {
    var all := xs + ys;
    forall i, j | 0 <= i < j < |all| ensures all[i].seqNo < all[j].seqNo {
      assert i < |xs| <= j ==> all[i] in xs && all[j] in ys;
    }
  }

  lemma AckOfRising(lastAck: int, cycles: seq<Cycle>)
    requires Rising(cycles) && cycles != []
    ensures var top := cycles[|cycles| - 1].seqNo;
            AckOf(lastAck, cycles) == if top > lastAck then top else lastAck
  {
    var ack, last := AckOf(lastAck, cycles), cycles[|cycles| - 1];
    assert last in cycles;
    if ack != lastAck {
      var c :| c in cycles && c.seqNo == ack;
      var i :| 0 <= i < |cycles| && cycles[i] == c;
      assert i < |cycles| - 1 ==> cycles[i].seqNo < cycles[|cycles| - 1].seqNo;
    }
  }

  lemma LatestRises(cycles: seq<Cycle>)
    requires Rising(cycles) && cycles != []
    ensures Rising(Latest(cycles)) && Latest(cycles) != []
    ensures Latest(cycles)[|Latest(cycles)| - 1] == cycles[|cycles| - 1]
    ensures forall c <- Latest(cycles) :: c in cycles
  {
  }

  lemma AddedPile(p: Pile, ts: int, results: seq<Result>)
    requires Rising(p.cycles) && Below(p.cycles, p.nextSeq)
    ensures var q, c := Added(p, ts, results), Cycle(p.nextSeq, ts, false, results);
            && Rising(q.cycles) && q.cycles != [] && q.cycles[|q.cycles| - 1] == c
            && (forall d <- q.cycles :: d in p.cycles || d == c)
  {
    var c := Cycle(p.nextSeq, ts, false, results);
    RisingAppend(p.cycles, c);
    LatestRises(p.cycles + [c]);
    assert forall d <- Latest(p.cycles + [c]) :: d in p.cycles + [c];
  }

  // ---- one step at a time ----

  /** A request already sent stays what it was when one more cycle is made. */
  lemma OldRequestStays(r: seq<Cycle>, made: map<int, Cycle>, owed: seq<Cycle>, later: seq<Cycle>, c: Cycle)
    requires Rising(r) && Below(r, c.seqNo) && Genuine(r, made) && Covers(r, owed)
    requires forall d <- later :: d in owed || d == c
    ensures Below(r, c.seqNo + 1) && Genuine(r, made[c.seqNo := c]) && Covers(r, later)
  {
    assert r[|r| - 1] in r;
  }

  lemma ProbeKeepsRequests(w: World, ts: int, results: seq<Result>)
    requires Sound(w) && w.waiting == None
    ensures Requests(Next(w, Probe(ts, results)))
  {
    var v := Next(w, Probe(ts, results));
    var q, c := Added(w.pile, ts, results), Cycle(w.pile.nextSeq, ts, false, results);
    AddedPile(w.pile, ts, results);
    forall r | r in v.sent ensures Rising(r) && Below(r, v.pile.nextSeq) && Genuine(r, v.made) && Covers(r, v.pile.cycles) {
      if r in w.sent {
        OldRequestStays(r, w.made, w.pile.cycles, q.cycles, c);
      } else {
        assert r == q.cycles;
        assert forall d <- r :: d.seqNo in Seqs(r);
      }
    }
  }

  lemma ProbeKeepsAccounts(w: World, ts: int, results: seq<Result>)
    requires Sound(w) && w.waiting == None
    ensures Accounted(Next(w, Probe(ts, results)))
  {
    var v := Next(w, Probe(ts, results));
    var q := Added(w.pile, ts, results);
    AddedPile(w.pile, ts, results);
    assert q.cycles[|q.cycles| - 1] in q.cycles;
    assert w.pile.nextSeq in Seqs(q.cycles);
    assert Seqs(q.cycles) <= Seqs(w.pile.cycles) + {w.pile.nextSeq};
    assert v.made.Keys == w.made.Keys + {w.pile.nextSeq};
    assert w.pile.nextSeq !in w.made;
  }

  lemma ProbeIsSound(w: World, ts: int, results: seq<Result>)
    requires Sound(w) && w.waiting == None
    ensures Sound(Next(w, Probe(ts, results)))
  {
    AddedPile(w.pile, ts, results);
    ProbeKeepsRequests(w, ts, results);
    ProbeKeepsAccounts(w, ts, results);
  }

  lemma SeqsConcat(xs: seq<Cycle>, ys: seq<Cycle>)
    ensures Seqs(xs + ys) == Seqs(xs) + Seqs(ys)
  {
  }

  lemma ArriveRecords(w: World, r: nat)
    requires Sound(w) && r < |w.sent|
    ensures var v := Next(w, Arrive(r));
            && w.lastAck <= v.lastAck < w.pile.nextSeq
            && Rising(v.recorded) && Genuine(v.recorded, v.made) && (forall c <- v.recorded :: c.seqNo <= v.lastAck)
            && Seqs(w.recorded) <= Seqs(v.recorded)
            && (forall c <- v.pile.cycles :: c.seqNo <= v.lastAck ==> c.seqNo in Seqs(v.recorded))
  {
    var request := w.sent[r];
    assert request in w.sent && request[|request| - 1] in request;
    var accepted := Accepted(w.lastAck, request);
    AckOfRising(w.lastAck, request);
    AcceptedRises(w.lastAck, request);
    RisingConcat(w.recorded, accepted, w.lastAck);
    SeqsConcat(w.recorded, accepted);
    var v := Next(w, Arrive(r));
    forall c | c in v.pile.cycles && c.seqNo <= v.lastAck ensures c.seqNo in Seqs(v.recorded) {
      if c.seqNo > w.lastAck {
        assert Covers(request, w.pile.cycles);
        var d :| d in request && d.seqNo == c.seqNo;
        assert d in accepted;
      }
    }
  }

  lemma LivesRise(lives: seq<int>, lastAck: int, live: Option<Cycle>)
    requires forall i, j :: 0 <= i < j < |lives| ==> lives[i] < lives[j]
    requires (forall s <- lives :: s <= lastAck) && (live.Some? ==> live.value.seqNo > lastAck)
    ensures var later := if live == None then lives else lives + [live.value.seqNo];
            (forall i, j :: 0 <= i < j < |later| ==> later[i] < later[j]) && forall s <- later :: s in lives || s == live.value.seqNo
  {
    forall i | 0 <= i < |lives| ensures lives[i] <= lastAck {
      assert lives[i] in lives;
    }
  }

  lemma LivesAreRecorded(lives: seq<int>, recorded: seq<Cycle>, accepted: seq<Cycle>, live: Option<Cycle>)
    requires (forall s <- lives :: s in Seqs(recorded)) && (live.Some? ==> live.value in accepted)
    ensures forall s <- (if live == None then lives else lives + [live.value.seqNo]) :: s in Seqs(recorded + accepted)
  {
    SeqsConcat(recorded, accepted);
  }

  lemma ArriveSteps(w: World, r: nat)
    requires Server(w) && r < |w.sent|
    ensures var v := Next(w, Arrive(r));
            && (forall i, j :: 0 <= i < j < |v.lives| ==> v.lives[i] < v.lives[j])
            && (forall s <- v.lives :: s <= v.lastAck && s in Seqs(v.recorded))
  {
    var accepted := Accepted(w.lastAck, w.sent[r]);
    LivesRise(w.lives, w.lastAck, LiveCycle(accepted));
    LivesAreRecorded(w.lives, w.recorded, accepted, LiveCycle(accepted));
  }

  lemma ArriveIsSound(w: World, r: nat)
    requires Sound(w) && r < |w.sent|
    ensures Sound(Next(w, Arrive(r)))
  {
    ArriveRecords(w, r);
    ArriveSteps(w, r);
  }

  lemma DeliverIsSound(w: World, p: nat)
    requires Sound(w) && Possible(w, Deliver(p))
    ensures Sound(Next(w, Deliver(p)))
  {
    var ack := w.replies[p].ack;
    assert w.replies[p] in w.replies;
    UnackedRises(w.pile.cycles, ack);
    var v := Next(w, Deliver(p));
    assert v.pile == Pile(w.pile.nextSeq, Unacked(w.pile.cycles, ack));
    assert forall c <- v.pile.cycles :: c in w.pile.cycles;
    forall r | r in v.sent ensures Rising(r) && Below(r, v.pile.nextSeq) && Genuine(r, v.made) && Covers(r, v.pile.cycles) {
      assert Covers(r, w.pile.cycles);
    }
    assert Requests(v) && Client(v) && Server(v);
    DeliverKeepsAccounts(w, p);
  }

  lemma DeliverKeepsAccounts(w: World, p: nat)
    requires Sound(w) && Possible(w, Deliver(p))
    ensures Accounted(Next(w, Deliver(p)))
  {
    var ack := w.replies[p].ack;
    assert w.replies[p] in w.replies;
    var before, after := Seqs(w.pile.cycles), Seqs(Unacked(w.pile.cycles, ack));
    assert after <= before;
    forall s | s in before - after ensures s in Seqs(w.recorded) {
      var c :| c in w.pile.cycles && c.seqNo == s;
      assert c.seqNo <= ack;
    }
  }

  lemma FlaggedSeqs(cycles: seq<Cycle>)
    ensures Seqs(Flagged(cycles)) == Seqs(cycles)
    ensures Rising(cycles) ==> Rising(Flagged(cycles))
    ensures forall i :: 0 <= i < |cycles| ==> Alike(cycles[i], Flagged(cycles)[i])
  {
    forall s | s in Seqs(cycles) ensures s in Seqs(Flagged(cycles)) {
      var i :| 0 <= i < |cycles| && cycles[i].seqNo == s;
      assert Flagged(cycles)[i] in Flagged(cycles);
    }
    forall s | s in Seqs(Flagged(cycles)) ensures s in Seqs(cycles) {
      var i :| 0 <= i < |cycles| && Flagged(cycles)[i].seqNo == s;
      assert cycles[i] in cycles;
    }
  }

  lemma GiveUpIsSound(w: World)
    requires Sound(w) && w.waiting.Some?
    ensures Sound(Next(w, GiveUp))
  {
    var v := Next(w, GiveUp);
    FlaggedSeqs(w.pile.cycles);
    forall c | c in v.pile.cycles ensures exists d <- w.pile.cycles :: Alike(d, c) {
      var i :| 0 <= i < |v.pile.cycles| && v.pile.cycles[i] == c;
      assert w.pile.cycles[i] in w.pile.cycles;
    }
    assert forall r <- v.sent :: Covers(r, w.pile.cycles) && Covers(r, v.pile.cycles);
  }

  lemma NextIsSound(w: World, e: Event)
    requires Sound(w) && Possible(w, e) && e != LoseFile
    ensures Sound(Next(w, e))
  {
    match e
    case Probe(ts, results) => ProbeIsSound(w, ts, results);
    case Arrive(r) => ArriveIsSound(w, r);
    case RollBack(_) =>
    case Deliver(p) => DeliverIsSound(w, p);
    case GiveUp => GiveUpIsSound(w);
    case Restart => assert Next(w, e).pile == w.pile;
  }

  /** cycles.json was never lost. */
  ghost predicate Intact(events: seq<Event>) {
    LoseFile !in events
  }

  lemma IntactInit(events: seq<Event>)
    requires Intact(events) && events != []
    ensures Intact(events[..|events| - 1]) && events[|events| - 1] != LoseFile
  {
    assert events == events[..|events| - 1] + [events[|events| - 1]];
  }

  lemma {:induction false} RunIsSound(events: seq<Event>)
    requires Run(events).Some? && Intact(events)
    ensures Sound(Run(events).value)
  {
    if events != [] {
      IntactInit(events);
      RunIsSound(events[..|events| - 1]);
      NextIsSound(Run(events[..|events| - 1]).value, events[|events| - 1]);
    }
  }

  // ---- what holds even when cycles.json is lost ----

  /** The server's half: whatever the mon-client forgets, what is recorded only rises. */
  ghost predicate Ordered(w: World) {
    RisesAtClient(w) && RisesAtServer(w) && AcksBehind(w)
  }

  ghost predicate RisesAtClient(w: World) {
    && Rising(w.pile.cycles) && Below(w.pile.cycles, w.pile.nextSeq)
    && forall r <- w.sent :: Rising(r)
  }

  ghost predicate RisesAtServer(w: World) {
    RisesTo(w.recorded, w.lives, w.lastAck)
  }

  ghost predicate RisesTo(recorded: seq<Cycle>, lives: seq<int>, ack: int) {
    && Rising(recorded) && (forall c <- recorded :: c.seqNo <= ack)
    && (forall i, j :: 0 <= i < j < |lives| ==> lives[i] < lives[j])
    && forall s <- lives :: s <= ack
  }

  ghost predicate AcksBehind(w: World) {
    0 <= w.remembered <= w.lastAck && forall p <- w.replies :: p.ack <= w.lastAck
  }

  lemma AcceptedContinues(recorded: seq<Cycle>, lastAck: int, request: seq<Cycle>)
    requires Rising(recorded) && (forall c <- recorded :: c.seqNo <= lastAck) && Rising(request)
    ensures var accepted, ack := Accepted(lastAck, request), AckOf(lastAck, request);
            && Rising(recorded + accepted) && (forall c <- accepted :: c.seqNo <= ack)
            && forall c <- recorded + accepted :: c.seqNo <= ack
  {
    var accepted := Accepted(lastAck, request);
    AcceptedRises(lastAck, request);
    RisingConcat(recorded, accepted, lastAck);
    assert forall c <- recorded + accepted :: c in recorded || c in accepted;
  }

  lemma RequestRises(recorded: seq<Cycle>, lives: seq<int>, lastAck: int, request: seq<Cycle>)
    requires RisesTo(recorded, lives, lastAck) && Rising(request)
    ensures var accepted := Accepted(lastAck, request);
            var live := LiveCycle(accepted);
            RisesTo(recorded + accepted, if live == None then lives else lives + [live.value.seqNo], AckOf(lastAck, request))
  {
    AcceptedContinues(recorded, lastAck, request);
    LivesRise(lives, lastAck, LiveCycle(Accepted(lastAck, request)));
  }

  lemma ArriveStaysOrdered(w: World, r: nat)
    requires Ordered(w) && r < |w.sent|
    ensures Ordered(Next(w, Arrive(r)))
  {
    ArriveRises(w, r);
    assert forall p <- Next(w, Arrive(r)).replies :: p in w.replies || p == Reply(r, AckOf(w.lastAck, w.sent[r]));
  }

  lemma ArriveRises(w: World, r: nat)
    requires Ordered(w) && r < |w.sent|
    ensures RisesAtServer(Next(w, Arrive(r)))
  {
    assert w.sent[r] in w.sent;
    RequestRises(w.recorded, w.lives, w.lastAck, w.sent[r]);
  }

  lemma NextStaysOrdered(w: World, e: Event)
    requires Ordered(w) && Possible(w, e)
    ensures Ordered(Next(w, e))
  {
    match e
    case Probe(ts, results) =>
      AddedPile(w.pile, ts, results);
    case Arrive(r) => ArriveStaysOrdered(w, r);
    case RollBack(_) =>
    case Deliver(p) =>
      assert w.replies[p] in w.replies;
      UnackedRises(w.pile.cycles, w.replies[p].ack);
    case GiveUp => FlaggedStaysOrdered(w);
    case Restart =>
    case LoseFile =>
  }

  lemma FlaggedStaysOrdered(w: World)
    requires Ordered(w) && w.waiting.Some?
    ensures Ordered(Next(w, GiveUp))
  {
    FlaggedSeqs(w.pile.cycles);
    var flagged := Flagged(w.pile.cycles);
    forall c | c in flagged ensures c.seqNo < w.pile.nextSeq {
      assert c.seqNo in Seqs(flagged);
      var d :| d in w.pile.cycles && d.seqNo == c.seqNo;
    }
  }

  lemma {:induction false} RunIsOrdered(events: seq<Event>)
    requires Run(events).Some?
    ensures Ordered(Run(events).value)
  {
    if events != [] {
      RunIsOrdered(events[..|events| - 1]);
      NextStaysOrdered(Run(events[..|events| - 1]).value, events[|events| - 1]);
    }
  }

  // ---- the theorem ----

  function Copies(recorded: seq<Cycle>, s: int): nat {
    if recorded == [] then 0
    else Copies(recorded[..|recorded| - 1], s) + (if recorded[|recorded| - 1].seqNo == s then 1 else 0)
  }

  lemma {:induction false} RisingHasOneCopy(recorded: seq<Cycle>, s: int)
    requires Rising(recorded)
    ensures Copies(recorded, s) == if s in Seqs(recorded) then 1 else 0
  {
    if recorded != [] {
      var init, last := recorded[..|recorded| - 1], recorded[|recorded| - 1];
      RisingHasOneCopy(init, s);
      assert recorded == init + [last];
      assert s in Seqs(recorded) <==> s in Seqs(init) || s == last.seqNo by {
        assert last in recorded;
      }
      if s in Seqs(init) {
        var c :| c in init && c.seqNo == s;
        var i :| 0 <= i < |init| && init[i] == c;
        assert recorded[i].seqNo < recorded[|init|].seqNo;
      }
    }
  }

  /** No seq is recorded twice, and the cycles that drove the state machine did so in
      rising order, over every run, also when cycles.json is lost. */
  lemma NeverTwice(events: seq<Event>, s: int)
    requires Run(events).Some?
    ensures var w := Run(events).value;
            Copies(w.recorded, s) <= 1 && forall i, j :: 0 <= i < j < |w.lives| ==> w.lives[i] < w.lives[j]
  {
    RunIsOrdered(events);
    RisingHasOneCopy(Run(events).value.recorded, s);
  }

  /** Exactly once: over every run that keeps cycles.json, a cycle dropped on an ack
      was recorded, as it was made, exactly once; no cycle is recorded twice; a cycle
      that is neither owed nor dropped on an ack was evicted; and the cycles that
      drove the state machine did so in rising order. */
  lemma ExactlyOnce(events: seq<Event>, s: int)
    requires Run(events).Some? && Intact(events)
    ensures var w := Run(events).value;
            && Copies(w.recorded, s) <= 1
            && (s in w.dropped ==> Copies(w.recorded, s) == 1 && s in w.made && exists c <- w.recorded :: Alike(w.made[s], c))
            && (s in w.made ==> s in Seqs(w.pile.cycles) || s in w.dropped || s in w.evicted)
            && (forall i, j :: 0 <= i < j < |w.lives| ==> w.lives[i] < w.lives[j])
  {
    RunIsSound(events);
    var w := Run(events).value;
    RisingHasOneCopy(w.recorded, s);
    if s in w.dropped {
      assert s in Seqs(w.recorded);
      var c :| c in w.recorded && c.seqNo == s;
      assert Alike(w.made[s], c);
    }
  }

  /** Within a generation that keeps cycles.json the counter never jumps: an ack is
      always behind it. */
  lemma CounterNeverJumps(events: seq<Event>, p: nat)
    requires Run(events).Some? && Intact(events) && Possible(Run(events).value, Deliver(p))
    ensures Acked(Run(events).value.pile, Run(events).value.replies[p].ack).nextSeq == Run(events).value.pile.nextSeq
  {
    RunIsSound(events);
    var w := Run(events).value;
    assert w.replies[p] in w.replies;
  }

  // ---- a lost cycles.json ----

  /** A committed request that held a cycle past s. */
  ghost predicate CommitsPast(e: Event, sent: seq<seq<Cycle>>, s: int) {
    e.Arrive? && e.request < |sent| && exists c <- sent[e.request] :: c.seqNo > s
  }

  ghost predicate PastCommitted(events: seq<Event>, sent: seq<seq<Cycle>>, s: int) {
    exists i :: 0 <= i < |events| && CommitsPast(events[i], sent, s)
  }

  /** Requests are only ever added. */
  lemma SentGrows(w: World, e: Event)
    requires Possible(w, e)
    ensures w.sent <= Next(w, e).sent
  {
  }

  lemma PastCommittedStep(events: seq<Event>, e: Event, before: seq<seq<Cycle>>, after: seq<seq<Cycle>>, s: int)
    requires before <= after
    requires forall i :: 0 <= i < |events| && events[i].Arrive? ==> events[i].request < |before|
    requires e.Arrive? ==> e.request < |before|
    ensures PastCommitted(events + [e], after, s) <==> PastCommitted(events, before, s) || CommitsPast(e, before, s)
  {
    var all := events + [e];
    forall i | 0 <= i < |all| ensures CommitsPast(all[i], after, s) <==> CommitsPast(all[i], before, s) {
      assert all[i].Arrive? ==> after[all[i].request] == before[all[i].request];
    }
    if PastCommitted(events, before, s) {
      var i :| 0 <= i < |events| && CommitsPast(events[i], before, s);
      assert CommitsPast(all[i], after, s);
    }
    if CommitsPast(e, before, s) {
      assert CommitsPast(all[|events|], after, s);
    }
    if PastCommitted(all, after, s) {
      var i :| 0 <= i < |all| && CommitsPast(all[i], after, s);
      assert i < |events| ==> CommitsPast(events[i], before, s);
    }
  }

  /** The server's ack is past s exactly when a committed request was, whatever else
      happened, losses of cycles.json included. */
  lemma {:induction false} AckIsTheFurthestCommit(events: seq<Event>, s: int)
    requires Run(events).Some? && s >= 0
    ensures forall i :: 0 <= i < |events| && events[i].Arrive? ==> events[i].request < |Run(events).value.sent|
    ensures Run(events).value.lastAck > s <==> PastCommitted(events, Run(events).value.sent, s)
  {
    if events != [] {
      var init, e := events[..|events| - 1], events[|events| - 1];
      assert events == init + [e];
      AckIsTheFurthestCommit(init, s);
      var w := Run(init).value;
      SentGrows(w, e);
      PastCommittedStep(init, e, w.sent, Next(w, e).sent, s);
      AckMoves(w, e, s);
    }
  }

  lemma AckMoves(w: World, e: Event, s: int)
    requires Possible(w, e)
    ensures Next(w, e).lastAck > s <==> w.lastAck > s || CommitsPast(e, w.sent, s)
  {
    if e.Arrive? {
      var ack := AckOf(w.lastAck, w.sent[e.request]);
      if ack > s && w.lastAck <= s {
        var c :| c in w.sent[e.request] && c.seqNo == ack;
      }
    }
  }

  /** The next cycle after cycles.json is lost, at `before`, and state.json's ack is
      continued after: it gets the seq past the remembered ack and is sent alone; and
      whenever a request holding it arrives, it is recorded if and only if no request
      reaching past the remembered ack was committed first, before the loss or since.
      Either way the answer acknowledges it.  `early` and `late` are anything at all
      in between, requests from before the loss arriving late among it. */
  lemma LostFileIsSafeIff(before: seq<Event>, early: seq<Event>, ts: int, results: seq<Result>, late: seq<Event>, r: nat)
    requires Run(before).Some? && Run(AroundLoss(before, early, ts, results) + late).Some? && (forall e <- early :: !e.Probe?)
    requires r < |Run(AroundLoss(before, early, ts, results) + late).value.sent|
    ensures var s, n := Run(before).value.remembered, |Run(before).value.sent|;
            var all := AroundLoss(before, early, ts, results) + late;
            var v := Run(all).value;
            && n < |v.sent| && v.sent[n] == [Cycle(s + 1, ts, false, results)]
            && forall c <- v.sent[r] :: c.seqNo == s + 1 ==>
                 && (c in Accepted(v.lastAck, v.sent[r]) <==> !PastCommitted(all, v.sent, s))
                 && AckOf(v.lastAck, v.sent[r]) >= s + 1
  {
    RememberedIsNatural(before);
    NextStaysSent(before, early, ts, results, late, Run(before).value.remembered, |Run(before).value.sent|);
    RecordedIffFirst(AroundLoss(before, early, ts, results) + late, Run(before).value.remembered, r);
  }

  lemma RememberedIsNatural(events: seq<Event>)
    requires Run(events).Some?
    ensures Run(events).value.remembered >= 0
  {
    RunIsOrdered(events);
  }

  /** In any run at all, an arriving cycle is recorded exactly if no request past its
      predecessor was committed before. */
  lemma RecordedIffFirst(events: seq<Event>, s: int, r: nat)
    requires Run(events).Some? && s >= 0 && r < |Run(events).value.sent|
    ensures var v := Run(events).value;
            forall c <- v.sent[r] :: c.seqNo == s + 1 ==>
              && (c in Accepted(v.lastAck, v.sent[r]) <==> !PastCommitted(events, v.sent, s))
              && AckOf(v.lastAck, v.sent[r]) >= s + 1
  {
    AckIsTheFurthestCommit(events, s);
  }

  lemma NextStaysSent(before: seq<Event>, early: seq<Event>, ts: int, results: seq<Result>, late: seq<Event>, s: int, n: nat)
    requires Run(AroundLoss(before, early, ts, results) + late).Some? && (forall e <- early :: !e.Probe?)
    requires Run(before).Some? && Run(before).value.remembered == s >= 0 && |Run(before).value.sent| == n
    ensures var v := Run(AroundLoss(before, early, ts, results) + late).value;
            n < |v.sent| && v.sent[n] == [Cycle(s + 1, ts, false, results)]
  {
    RunPrefix(AroundLoss(before, early, ts, results), late);
    NextAfterLoss(before, early, ts, results, s, n);
  }

  /** A run up to the next cycle after a loss. */
  function AroundLoss(before: seq<Event>, early: seq<Event>, ts: int, results: seq<Result>): seq<Event> {
    before + [LoseFile] + early + [Probe(ts, results)]
  }

  lemma NextAfterLoss(before: seq<Event>, early: seq<Event>, ts: int, results: seq<Result>, s: int, n: nat)
    requires Run(AroundLoss(before, early, ts, results)).Some? && (forall e <- early :: !e.Probe?)
    requires Run(before).Some? && Run(before).value.remembered == s >= 0 && |Run(before).value.sent| == n
    ensures var v := Run(AroundLoss(before, early, ts, results)).value;
            |v.sent| == n + 1 && v.sent[n] == [Cycle(s + 1, ts, false, results)]
  {
    var lost := before + [LoseFile];
    RunPrefix(lost + early, [Probe(ts, results)]);
    BlankUntilProbed(before, early, s, n);
    ProbeAlone(lost + early, s, n, ts, results);
  }

  lemma BlankUntilProbed(before: seq<Event>, early: seq<Event>, s: int, n: nat)
    requires Run(before + [LoseFile] + early).Some? && (forall e <- early :: !e.Probe?)
    requires Run(before).Some? && Run(before).value.remembered == s >= 0 && |Run(before).value.sent| == n
    ensures Blank(Run(before + [LoseFile] + early).value, s, n)
  {
    RunPrefix(before + [LoseFile], early);
    LossIsBlank(before, s, n);
    Forgotten(before + [LoseFile], early, s, n);
  }

  lemma LossIsBlank(before: seq<Event>, s: int, n: nat)
    requires Run(before + [LoseFile]).Some?
    requires Run(before).Some? && Run(before).value.remembered == s >= 0 && |Run(before).value.sent| == n
    ensures Blank(Run(before + [LoseFile]).value, s, n)
  {
    RunStep(before, LoseFile);
  }

  lemma RunStep(events: seq<Event>, e: Event)
    requires Run(events + [e]).Some?
    ensures Run(events).Some? && Possible(Run(events).value, e) && Run(events + [e]).value == Next(Run(events).value, e)
  {
    assert (events + [e])[..|events|] == events;
  }

  lemma {:induction false} RunPrefix(events: seq<Event>, more: seq<Event>)
    requires Run(events + more).Some?
    ensures Run(events).Some? && Run(events).value.sent <= Run(events + more).value.sent
  {
    if more == [] {
      assert events + more == events;
    } else {
      var init, e := more[..|more| - 1], more[|more| - 1];
      assert events + more == (events + init) + [e];
      RunStep(events + init, e);
      RunPrefix(events, init);
      SentGrows(Run(events + init).value, e);
    }
  }

  /** An empty buffer that continues after the remembered ack, nothing in flight. */
  ghost predicate Blank(w: World, remembered: int, sent: nat) {
    w.pile == Pile(remembered + 1, []) && w.remembered == remembered && w.waiting == None && |w.sent| == sent
  }

  lemma {:induction false} Forgotten(events: seq<Event>, early: seq<Event>, remembered: int, sent: nat)
    requires Run(events + early).Some? && (forall e <- early :: !e.Probe?) && remembered >= 0
    requires Run(events).Some? && Blank(Run(events).value, remembered, sent)
    ensures Blank(Run(events + early).value, remembered, sent)
  {
    if early == [] {
      assert events + early == events;
    } else {
      var init, e := early[..|early| - 1], early[|early| - 1];
      assert events + early == (events + init) + [e];
      RunStep(events + init, e);
      assert e in early && forall d <- init :: d in early;
      Forgotten(events, init, remembered, sent);
      StaysBlank(Run(events + init).value, e, remembered, sent);
    }
  }

  lemma StaysBlank(w: World, e: Event, remembered: int, sent: nat)
    requires Blank(w, remembered, sent) && remembered >= 0 && Possible(w, e) && !e.Probe?
    ensures Blank(Next(w, e), remembered, sent)
  {
  }

  lemma ProbeAlone(events: seq<Event>, remembered: int, sent: nat, ts: int, results: seq<Result>)
    requires Run(events).Some? && Blank(Run(events).value, remembered, sent) && Run(events + [Probe(ts, results)]).Some?
    ensures var v := Run(events + [Probe(ts, results)]).value;
            |v.sent| == sent + 1 && v.sent[sent] == [Cycle(remembered + 1, ts, false, results)]
  {
    RunStep(events, Probe(ts, results));
    SentAlone(Run(events).value, ts, results);
  }

  lemma SentAlone(w: World, ts: int, results: seq<Result>)
    requires w.pile.cycles == [] && w.waiting == None
    ensures Next(w, Probe(ts, results)).sent == w.sent + [[Cycle(w.pile.nextSeq, ts, false, results)]]
  {
    var c := Cycle(w.pile.nextSeq, ts, false, results);
    assert w.pile.cycles + [c] == [c];
  }

  lemma RunExtends(events: seq<Event>, e: Event, w: World)
    requires Run(events) == Some(w) && Possible(w, e)
    ensures Run(events + [e]) == Some(Next(w, e))
  {
    assert (events + [e])[..|events|] == events;
  }

  /** The first cycle's answer is lost, and then the file: the next cycle gets a seq
      the server already acknowledged. */
  const ANSWER_LOST: seq<Event> := [Probe(0, []), Arrive(0), LoseFile, Probe(1, [])]

  /** state.json holds the server's latest ack when the file is lost, but a request is
      still on its way, and it arrives before the next cycle does. */
  const REQUEST_LATE: seq<Event> := [Probe(0, []), Arrive(0), Deliver(0), Probe(1, []), LoseFile, Arrive(1), Probe(2, [])]

  function Made(s: int, ts: int): Cycle {
    Cycle(s, ts, false, [])
  }

  lemma FirstIsRecorded()
    ensures Run([Probe(0, []), Arrive(0)]).Some?
    ensures var w := Run([Probe(0, []), Arrive(0)]).value;
            w.pile == Pile(2, [Made(1, 0)]) && w.sent == [[Made(1, 0)]] && w.lastAck == 1 && w.remembered == 0
            && w.waiting == Some(0) && w.replies == [Reply(0, 1)]
  {
    var one, two := Next(START, Probe(0, [])), Next(Next(START, Probe(0, [])), Arrive(0));
    assert START.pile.cycles + [Made(1, 0)] == [Made(1, 0)];
    assert one.pile == Pile(2, [Made(1, 0)]) && one.sent == [[Made(1, 0)]];
    RunExtends([], Probe(0, []), START);
    assert [] + [Probe(0, [])] == [Probe(0, [])];
    AckOfOne(0, Made(1, 0));
    RunExtends([Probe(0, [])], Arrive(0), one);
    assert [Probe(0, [])] + [Arrive(0)] == [Probe(0, []), Arrive(0)];
  }

  lemma AckOfOne(lastAck: int, c: Cycle)
    ensures AckOf(lastAck, [c]) == if c.seqNo > lastAck then c.seqNo else lastAck
    ensures Accepted(lastAck, [c]) == if c.seqNo > lastAck then [c] else []
  {
    assert [c][..0] == [];
  }

  /** Two runs in which the next cycle after a loss is acknowledged and never recorded. */
  lemma LostFileLosesACycle()
    ensures Run(ANSWER_LOST).Some? && Run(REQUEST_LATE).Some?
    ensures var v := Run(ANSWER_LOST).value; v.sent[1..] == [[Made(1, 1)]] && Accepted(v.lastAck, [Made(1, 1)]) == []
    ensures var v := Run(REQUEST_LATE).value; v.sent[2..] == [[Made(2, 2)]] && Accepted(v.lastAck, [Made(2, 2)]) == []
    ensures Run(REQUEST_LATE[..4]).Some? && Run(REQUEST_LATE[..4]).value.remembered == Run(REQUEST_LATE[..4]).value.lastAck
  {
    AnswerLost();
    RequestLate();
    SecondIsSent();
  }

  lemma AnswerLost()
    ensures Run(ANSWER_LOST).Some?
    ensures var v := Run(ANSWER_LOST).value; v.sent[1..] == [[Made(1, 1)]] && Accepted(v.lastAck, [Made(1, 1)]) == []
  {
    FirstIsRecorded();
    var begun: seq<Event> := [Probe(0, []), Arrive(0)];
    var w := Run(begun).value;
    RunExtends(begun, LoseFile, w);
    assert begun + [LoseFile] == [Probe(0, []), Arrive(0), LoseFile];
    var lost := Next(w, LoseFile);
    SentAlone(lost, 1, []);
    RunExtends(begun + [LoseFile], Probe(1, []), lost);
    assert (begun + [LoseFile]) + [Probe(1, [])] == ANSWER_LOST;
    AckOfOne(1, Made(1, 1));
  }

  lemma RunExtendsTwice(events: seq<Event>, d: Event, e: Event, w: World)
    requires Run(events) == Some(w) && Possible(w, d) && Possible(Next(w, d), e)
    ensures Run(events + [d, e]) == Some(Next(Next(w, d), e))
  {
    RunExtends(events, d, w);
    RunExtends(events + [d], e, Next(w, d));
    assert (events + [d]) + [e] == events + [d, e];
  }

  lemma SecondIsSent()
    ensures Run(REQUEST_LATE[..4]).Some?
    ensures var w := Run(REQUEST_LATE[..4]).value;
            w.remembered == w.lastAck == 1 && w.sent == [[Made(1, 0)], [Made(2, 1)]]
  {
    FirstIsRecorded();
    var begun: seq<Event> := [Probe(0, []), Arrive(0)];
    var w := Run(begun).value;
    SecondSteps(w);
    RunExtendsTwice(begun, Deliver(0), Probe(1, []), w);
    assert begun + [Deliver(0), Probe(1, [])] == REQUEST_LATE[..4];
  }

  lemma SecondSteps(w: World)
    requires w.pile == Pile(2, [Made(1, 0)]) && w.sent == [[Made(1, 0)]] && w.lastAck == 1 && w.remembered == 0
    requires w.waiting == Some(0) && w.replies == [Reply(0, 1)]
    ensures Possible(w, Deliver(0)) && Possible(Next(w, Deliver(0)), Probe(1, []))
    ensures var v := Next(Next(w, Deliver(0)), Probe(1, [])); v.remembered == v.lastAck == 1 && v.sent == [[Made(1, 0)], [Made(2, 1)]]
  {
    var idle := Next(w, Deliver(0));
    assert [Made(1, 0)][..0] == [];
    assert idle.pile == Pile(2, []);
    SentAlone(idle, 1, []);
  }

  lemma LateSteps(w: World)
    requires w.remembered == w.lastAck == 1 && w.sent == [[Made(1, 0)], [Made(2, 1)]]
    ensures Possible(w, LoseFile) && Possible(Next(w, LoseFile), Arrive(1))
    ensures var v := Next(Next(w, LoseFile), Arrive(1));
            Possible(v, Probe(2, [])) && v.lastAck == 2 && Next(v, Probe(2, [])).sent == w.sent + [[Made(2, 2)]]
  {
    AckOfOne(1, Made(2, 1));
    SentAlone(Next(Next(w, LoseFile), Arrive(1)), 2, []);
  }

  lemma LateEnds(events: seq<Event>, w: World)
    requires Run(events) == Some(w) && w.remembered == w.lastAck == 1 && w.sent == [[Made(1, 0)], [Made(2, 1)]]
    ensures var all := events + [LoseFile, Arrive(1)] + [Probe(2, [])];
            Run(all).Some? && Run(all).value.sent == w.sent + [[Made(2, 2)]] && Run(all).value.lastAck == 2
  {
    LateSteps(w);
    RunExtendsTwice(events, LoseFile, Arrive(1), w);
    RunExtends(events + [LoseFile, Arrive(1)], Probe(2, []), Next(Next(w, LoseFile), Arrive(1)));
  }

  lemma RequestLate()
    ensures Run(REQUEST_LATE).Some?
    ensures var v := Run(REQUEST_LATE).value; v.sent[2..] == [[Made(2, 2)]] && Accepted(v.lastAck, [Made(2, 2)]) == []
  {
    SecondIsSent();
    LateEnds(REQUEST_LATE[..4], Run(REQUEST_LATE[..4]).value);
    assert REQUEST_LATE[..4] + [LoseFile, Arrive(1)] + [Probe(2, [])] == REQUEST_LATE;
    AckOfOne(2, Made(2, 2));
  }

  // ---- the server of this protocol is the engine ----

  lemma {:induction false} LiveOfCleaned(cycles: seq<Cycle>, now: int, keys: set<TargetKey>)
    ensures LiveCycle(CleanedAll(cycles, now, keys)) ==
            match LiveCycle(cycles)
            case None => None
            case Some(c) => Some(Cleaned(c, now, keys))
  {
    if cycles != [] {
      LiveOfCleaned(cycles[..|cycles| - 1], now, keys);
      assert CleanedAll(cycles, now, keys)[..|cycles| - 1] == CleanedAll(cycles[..|cycles| - 1], now, keys);
    }
  }

  /** A committed engine heartbeat moves its mon-client's ack and hands over
      cycles exactly as an arriving request does here, and steps the targets with
      this protocol's live cycle and no other. */
  lemma EngineServes(db: Tables.Db, client: ClientId, req: Request, keys: set<TargetKey>, excl: Config.Exclusions, th: Machine.Thresholds, now: int)
    requires client in db.clients
    ensures var after := Tables.Beaten(db, client, req, keys, excl, th, now);
            var lastAck := db.clients[client].lastAckSeq;
            var accepted := Accepted(lastAck, req.cycles);
            && client in after.clients && after.clients[client].lastAckSeq == AckOf(lastAck, req.cycles)
            && after.recorded == (if accepted == [] then db.recorded
                                  else db.recorded + [Tables.Batch(client, CleanedAll(accepted, now, keys))])
            && LiveCycle(CleanedAll(accepted, now, keys)) ==
               (match LiveCycle(accepted)
                case None => None
                case Some(c) => Some(Cleaned(c, now, keys)))
  {
    var lastAck := db.clients[client].lastAckSeq;
    var accepted := Accepted(lastAck, req.cycles);
    LiveOfCleaned(accepted, now, keys);
    BeatKeepsOthers(db, client, req, keys, excl, th, now);
  }

  lemma {:induction false} EnsureFrame(db: Tables.Db, client: ClientId, ks: seq<TargetKey>, now: int)
    ensures Tables.EnsureRows(db, client, ks, now).clients == db.clients && Tables.EnsureRows(db, client, ks, now).recorded == db.recorded
  {
    if ks != [] {
      EnsureFrame(db, client, ks[..|ks| - 1], now);
    }
  }

  lemma {:induction false} ResultsFrame(db: Tables.Db, client: ClientId, results: seq<Result>, th: Machine.Thresholds, now: int)
    ensures Tables.ResultsApplied(db, client, results, th, now).clients == db.clients
    ensures Tables.ResultsApplied(db, client, results, th, now).recorded == db.recorded
  {
    if results != [] {
      ResultsFrame(db, client, results[..|results| - 1], th, now);
    }
  }

  lemma BeatKeepsOthers(db: Tables.Db, client: ClientId, req: Request, keys: set<TargetKey>, excl: Config.Exclusions, th: Machine.Thresholds, now: int)
    requires client in db.clients
    ensures var after := Tables.Beaten(db, client, req, keys, excl, th, now);
            var lastAck := db.clients[client].lastAckSeq;
            var cycles := CleanedAll(Accepted(lastAck, req.cycles), now, keys);
            && after.clients == db.clients[client := Tables.MonClient(Tables.Online, Some(now), 0, AckOf(lastAck, req.cycles))]
            && after.recorded == (if cycles == [] then db.recorded else db.recorded + [Tables.Batch(client, cycles)])
  {
    var lastAck := db.clients[client].lastAckSeq;
    var cycles := CleanedAll(Accepted(lastAck, req.cycles), now, keys);
    var rejected := Tables.Paths.RejectedOf(keys, req.rejected);
    var greeted := Tables.Greeted(db, client, AckOf(lastAck, req.cycles), now);
    var retired := Tables.Purged(greeted, Tables.Retired(client, keys, db.known));
    var purged := Tables.Purged(retired, Tables.OutOfConfig(client, keys, excl));
    EnsureFrame(purged, client, Tables.Missing(keys, rejected, excl), now);
    var reconciled := Tables.Reconciled(retired, client, keys, rejected, excl, now);
    match LiveCycle(cycles) {
      case None =>
      case Some(live) => ResultsFrame(reconciled, client, live.results, th, now);
    }
  }
}
