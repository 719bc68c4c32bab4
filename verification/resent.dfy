/** What a resent cycle says of itself, and what an answer settles, over every run of
    the heartbeat protocol. */
module Resent {
  import opened Wrappers
  import opened Wire
  import opened Delivery
  import opened Protocol

  /** A request in flight is the whole pile, its newest cycle verified; an answer covers
      every cycle of its request. */
  ghost predicate InFlight(w: World) {
    && (w.waiting.Some? ==> w.waiting.value < |w.sent| && w.sent[w.waiting.value] == w.pile.cycles && EndsVerified(w.pile.cycles))
    && forall p <- w.replies :: p.request < |w.sent| && forall c <- w.sent[p.request] :: c.seqNo <= p.ack
  }

  predicate EndsVerified(cycles: seq<Cycle>) {
    cycles != [] && !cycles[|cycles| - 1].unverified
  }

  lemma NextStaysInFlight(w: World, e: Event)
    requires InFlight(w) && Possible(w, e)
    ensures InFlight(Next(w, e))
  {
    match e
    case Probe(ts, results) => assert EndsVerified(Added(w.pile, ts, results).cycles);
    case Arrive(r) =>
      forall p | p in Next(w, e).replies ensures p.request < |w.sent| && forall c <- w.sent[p.request] :: c.seqNo <= p.ack {
        assert p in w.replies || p == Reply(r, AckOf(w.lastAck, w.sent[r]));
      }
    case _ =>
  }

  lemma {:induction false} RunIsInFlight(events: seq<Event>)
    requires Run(events).Some?
    ensures InFlight(Run(events).value)
  {
    if events != [] {
      RunIsInFlight(events[..|events| - 1]);
      NextStaysInFlight(Run(events[..|events| - 1]).value, events[|events| - 1]);
    }
  }

  /** Whether the box came back from a restart that cut off a request in flight, and has
      sent nothing since. */
  ghost predicate CutOff(events: seq<Event>) {
    && events != []
    && var init, last := events[..|events| - 1], events[|events| - 1];
       match last
       case Restart => (Run(init).Some? && Run(init).value.waiting.Some?) || CutOff(init)
       case Arrive(_) => CutOff(init)
       case RollBack(_) => CutOff(init)
       case _ => false
  }

  /** Between two requests the box owes unverified cycles only, or was cut off, and then
      the newest it owes is verified. */
  lemma {:induction false} OwedBetween(events: seq<Event>)
    requires Run(events).Some? && Run(events).value.waiting == None
    ensures if CutOff(events) then EndsVerified(Run(events).value.pile.cycles)
            else forall c <- Run(events).value.pile.cycles :: c.unverified
  {
    if events != [] {
      var init, last := events[..|events| - 1], events[|events| - 1];
      RunIsInFlight(init);
      if Run(init).value.waiting == None {
        OwedBetween(init);
      }
      if last.Deliver? {
        AnswerEmpties(Run(init).value, last.reply);
      }
    }
  }

  lemma {:induction false} NothingLeft(cycles: seq<Cycle>, ack: int)
    requires forall c <- cycles :: c.seqNo <= ack
    ensures Unacked(cycles, ack) == []
  {
    if cycles != [] {
      var init := cycles[..|cycles| - 1];
      assert cycles[|cycles| - 1] in cycles && forall c <- init :: c in cycles;
      NothingLeft(init, ack);
    }
  }

  /** An answer settles everything the box owes. */
  lemma AnswerEmpties(w: World, p: nat)
    requires InFlight(w) && Possible(w, Deliver(p))
    ensures Next(w, Deliver(p)).pile.cycles == []
  {
    assert w.replies[p] in w.replies;
    NothingLeft(w.pile.cycles, w.replies[p].ack);
  }

  /** A request is what the box owed, as far as it is kept, and the new cycle. */
  lemma RequestHolds(pile: Pile, ts: int, results: seq<Result>)
    ensures var request := Added(pile, ts, results).cycles;
            && EndsVerified(request)
            && (forall i :: 0 <= i < |request| - 1 ==> request[i] in pile.cycles)
            && (pile.cycles != [] ==> |request| >= 2 && request[|request| - 2] == pile.cycles[|pile.cycles| - 1])
  {
    var request := Added(pile, ts, results).cycles;
    forall i | 0 <= i < |request| - 1 ensures request[i] in pile.cycles {
      assert request[i] == pile.cycles[i + |pile.cycles| + 1 - |request|];
    }
  }

  /** The newest cycle of a request is verified, and every resent one is unverified if
      and only if no restart cut off the request before it. */
  lemma ResentIsUnverifiedIff(events: seq<Event>, ts: int, results: seq<Result>)
    requires Run(events).Some? && Run(events).value.waiting == None
    ensures var sent := Next(Run(events).value, Probe(ts, results)).sent;
            var request := sent[|sent| - 1];
            && EndsVerified(request)
            && ((forall i :: 0 <= i < |request| - 1 ==> request[i].unverified) <==> !CutOff(events))
  {
    OwedBetween(events);
    var w := Run(events).value;
    OlderUnverifiedIff(w.pile, ts, results, CutOff(events));
    ProbeSends(w, ts, results);
    hide *;
  }

  lemma ProbeSends(w: World, ts: int, results: seq<Result>)
    requires w.waiting == None
    ensures Next(w, Probe(ts, results)).sent == w.sent + [Added(w.pile, ts, results).cycles]
  {
  }

  lemma OlderUnverifiedIff(pile: Pile, ts: int, results: seq<Result>, cut: bool)
    requires if cut then EndsVerified(pile.cycles) else forall c <- pile.cycles :: c.unverified
    ensures var request := Added(pile, ts, results).cycles;
            && EndsVerified(request)
            && ((forall i :: 0 <= i < |request| - 1 ==> request[i].unverified) <==> !cut)
  {
    RequestHolds(pile, ts, results);
    hide Added;
  }

  /** The false law "a cycle that was never acknowledged is resent as unverified": a
      request goes out, the box restarts, and its cycle rides along verified. */
  lemma RestartResendsVerified()
    ensures Run([Probe(0, []), Restart]).Some? && Run([Probe(0, []), Restart]).value.waiting == None
    ensures CutOff([Probe(0, []), Restart])
  {
    var one, two := [Probe(0, [])], [Probe(0, []), Restart];
    assert one[..0] == [] && two[..1] == one;
    assert Run([]) == Some(START);
    assert Run(one) == Some(Next(START, Probe(0, [])));
  }

  /** After an answer the counter is past its ack, whatever the box had forgotten, and so
      is everything it still owes; the counter moves only when it was not. */
  lemma AnswersCatchUp(events: seq<Event>, p: nat)
    requires Run(events).Some? && Possible(Run(events).value, Deliver(p))
    ensures var w, ack := Run(events).value, Run(events).value.replies[p].ack;
            var after := Next(w, Deliver(p));
            && after.pile.cycles == [] && after.pile.nextSeq > ack && after.remembered >= ack
            && after.pile.nextSeq == if w.pile.nextSeq > ack then w.pile.nextSeq else ack + 1
  {
    RunIsInFlight(events);
    AnswerEmpties(Run(events).value, p);
  }
}
