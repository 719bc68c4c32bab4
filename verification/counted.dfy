/** From the mon-client's probes to the five-minute buckets: what any run of the
    heartbeat protocol leaves in the statistics. */
module Counted {
  import opened Wrappers
  import opened Store
  import opened Wire
  import opened Buckets
  import opened Protocol
  import Sorting

  /** The clock and the config keys mon-server judged an arriving request with. */
  datatype Receipt = Receipt(now: int, keys: set<TargetKey>)

  /** The cycles one event hands to the statistics. */
  ghost function Handed(w: World, e: Event, r: Receipt): seq<Cycle>
    requires Possible(w, e)
  {
    if e.Arrive? then CleanedAll(Accepted(w.lastAck, w.sent[e.request]), r.now, r.keys) else []
  }

  /** Every cycle handed over in a run, in order. */
  ghost function Kept(events: seq<Event>, receipts: seq<Receipt>): seq<Cycle>
    requires |receipts| == |events| && Run(events).Some?
  {
    if events == [] then []
    else
      var n := |events| - 1;
      Kept(events[..n], receipts[..n]) + Handed(Run(events[..n]).value, events[n], receipts[n])
  }

  /** The buckets as the server fills them, one committed heartbeat at a time. */
  ghost function RowsAfter(client: ClientId, events: seq<Event>, receipts: seq<Receipt>): Rows
    requires |receipts| == |events| && Run(events).Some?
  {
    if events == [] then map[]
    else
      var n := |events| - 1;
      Recorded(RowsAfter(client, events[..n], receipts[..n]), client, Handed(Run(events[..n]).value, events[n], receipts[n]))
  }

  /** The same cycles, up to the clamped time and the results of targets no longer
      in the config. */
  ghost predicate SameCycles(kept: seq<Cycle>, recorded: seq<Cycle>) {
    |kept| == |recorded| && forall i :: 0 <= i < |kept| ==> kept[i].seqNo == recorded[i].seqNo && kept[i].unverified == recorded[i].unverified
  }

  /** One event hands over what it adds to the protocol's record. */
  lemma HandedIsRecorded(w: World, e: Event, r: Receipt)
    requires Possible(w, e)
    ensures w.recorded <= Next(w, e).recorded && SameCycles(Handed(w, e, r), Next(w, e).recorded[|w.recorded|..])
  {
  }

  lemma SameJoined(a: seq<Cycle>, b: seq<Cycle>, more: seq<Cycle>, all: seq<Cycle>)
    requires SameCycles(a, b) && b <= all && SameCycles(more, all[|b|..])
    ensures SameCycles(a + more, all)
  {
    forall i | 0 <= i < |all| ensures (a + more)[i].seqNo == all[i].seqNo && (a + more)[i].unverified == all[i].unverified {
      if i >= |b| {
        assert all[i] == all[|b|..][i - |b|];
      } else {
        assert all[i] == b[i];
      }
    }
  }

  /** What is handed over in a run is what the protocol records, cycle by cycle. */
  lemma {:induction false} KeptIsRecorded(events: seq<Event>, receipts: seq<Receipt>)
    requires |receipts| == |events| && Run(events).Some?
    ensures SameCycles(Kept(events, receipts), Run(events).value.recorded)
  {
    if events != [] {
      var n := |events| - 1;
      var w := Run(events[..n]).value;
      KeptIsRecorded(events[..n], receipts[..n]);
      HandedIsRecorded(w, events[n], receipts[n]);
      SameJoined(Kept(events[..n], receipts[..n]), w.recorded, Handed(w, events[n], receipts[n]), Run(events).value.recorded);
    }
  }

  lemma KeptPrecedes(events: seq<Event>, receipts: seq<Receipt>, e: Event, r: Receipt)
    requires |receipts| == |events| && Run(events).Some? && Possible(Run(events).value, e)
    ensures Precedes(Kept(events, receipts), Handed(Run(events).value, e, r))
  {
    var w := Run(events).value;
    RunIsOrdered(events);
    KeptIsRecorded(events, receipts);
    var kept, handed := Kept(events, receipts), Handed(w, e, r);
    forall x | x in kept ensures x.seqNo <= w.lastAck {
      var i :| 0 <= i < |kept| && kept[i] == x;
      assert w.recorded[i] in w.recorded;
    }
    forall y | y in handed ensures w.lastAck < y.seqNo {
      var i :| 0 <= i < |handed| && handed[i] == y;
      assert Accepted(w.lastAck, w.sent[e.request])[i] in Accepted(w.lastAck, w.sent[e.request]);
    }
  }

  /** However requests are lost, late, repeated or rolled back, the buckets are those
      of a single Record of the recorded cycles, each of which was recorded once. */
  lemma {:induction false} BucketsCountEachCycleOnce(client: ClientId, events: seq<Event>, receipts: seq<Receipt>)
    requires |receipts| == |events| && Run(events).Some?
    ensures RowsAfter(client, events, receipts) == Recorded(map[], client, Kept(events, receipts))
  {
    if events == [] {
      assert Sorting.Sort<Cycle>([], SeqLe) == [];
    } else {
      var n := |events| - 1;
      BucketsCountEachCycleOnce(client, events[..n], receipts[..n]);
      KeptPrecedes(events[..n], receipts[..n], events[n], receipts[n]);
      RecordInTwo(map[], client, Kept(events[..n], receipts[..n]), Handed(Run(events[..n]).value, events[n], receipts[n]));
    }
  }

  /** So over a whole run their counts add up to the results of the recorded cycles,
      less the failures of the unverified ones. */
  lemma CountsAddUp(client: ClientId, events: seq<Event>, receipts: seq<Receipt>)
    requires client != "" && |receipts| == |events| && Run(events).Some?
    ensures Total(RowsAfter(client, events, receipts)) == WorthAll(Kept(events, receipts))
  {
    BucketsCountEachCycleOnce(client, events, receipts);
    RecordConserves(map[], client, Kept(events, receipts));
  }
}
