/** The heartbeat's cycles and the pure helpers both ends agree on
    (internal/state/types.go and the small helpers of internal/state/engine.go). */
module Wire {
  import opened Wrappers
  import opened Store

  datatype Result = Result(key: TargetKey, ok: bool, tlsMs: Option<int>, handshakeMs: Option<int>, reason: Option<Reason>)

  datatype Cycle = Cycle(seqNo: int, ts: int, unverified: bool, results: seq<Result>)

  /** A heartbeat's cycles and the targets its mon-client rejected. */
  datatype Request = Request(cycles: seq<Cycle>, rejected: seq<string>)

  const MAX_CLOCK_SKEW: int := 300000

  function ClampTs(ts: int, now: int): (r: int)
    ensures now - MAX_CLOCK_SKEW <= r <= now + MAX_CLOCK_SKEW
    ensures r == if now - MAX_CLOCK_SKEW <= ts <= now + MAX_CLOCK_SKEW then ts else now
  {
    var skew := if ts < now then now - ts else ts - now;
    if skew > MAX_CLOCK_SKEW then now else ts
  }

  function KeepKnown(results: seq<Result>, keys: set<TargetKey>): (r: seq<Result>)
    ensures forall x :: x in r <==> x in results && x.key in keys
  {
    if results == [] then []
    else
      var last := results[|results| - 1];
      assert results == results[..|results| - 1] + [last];
      KeepKnown(results[..|results| - 1], keys) + (if last.key in keys then [last] else [])
  }

  /** The highest seq mon-server has now seen, never a lower one. */
  function AckOf(lastAck: int, cycles: seq<Cycle>): (ack: int)
    ensures ack >= lastAck && forall c <- cycles :: c.seqNo <= ack
    ensures ack == lastAck || exists c <- cycles :: c.seqNo == ack
  {
    if cycles == [] then lastAck
    else
      var last := cycles[|cycles| - 1];
      assert cycles == cycles[..|cycles| - 1] + [last];
      var before := AckOf(lastAck, cycles[..|cycles| - 1]);
      if last.seqNo > before then last.seqNo else before
  }

  /** The cycles that are not duplicates of acknowledged ones. */
  function Accepted(lastAck: int, cycles: seq<Cycle>): (r: seq<Cycle>)
    ensures forall c :: c in r <==> c in cycles && c.seqNo > lastAck
  {
    if cycles == [] then []
    else
      var last := cycles[|cycles| - 1];
      assert cycles == cycles[..|cycles| - 1] + [last];
      Accepted(lastAck, cycles[..|cycles| - 1]) + (if last.seqNo > lastAck then [last] else [])
  }

  /** What mon-server keeps of an accepted cycle. */
  function Cleaned(c: Cycle, now: int, keys: set<TargetKey>): Cycle {
    c.(ts := ClampTs(c.ts, now), results := KeepKnown(c.results, keys))
  }

  function CleanedAll(cycles: seq<Cycle>, now: int, keys: set<TargetKey>): seq<Cycle> {
    seq(|cycles|, i requires 0 <= i < |cycles| => Cleaned(cycles[i], now, keys))
  }

  /** The verified cycle with the highest seq, the first of equals. */
  function LiveCycle(cycles: seq<Cycle>): (live: Option<Cycle>)
    ensures live == None <==> forall c <- cycles :: c.unverified
    ensures live.Some? ==> live.value in cycles && !live.value.unverified
    ensures live.Some? ==> forall c <- cycles :: !c.unverified ==> c.seqNo <= live.value.seqNo
  {
    if cycles == [] then None
    else
      var c := cycles[|cycles| - 1];
      assert cycles == cycles[..|cycles| - 1] + [c];
      var live := LiveCycle(cycles[..|cycles| - 1]);
      if !c.unverified && (live == None || c.seqNo > live.value.seqNo) then Some(c) else live
  }

  // ---- order and repetition ----

  /** kept is what xs holds at the rising positions `at`. */
  ghost predicate Picks<T>(xs: seq<T>, at: seq<nat>, kept: seq<T>) {
    && |at| == |kept|
    && (forall k :: 0 <= k < |at| ==> at[k] < |xs| && kept[k] == xs[at[k]])
    && (forall k, l :: 0 <= k < l < |at| ==> at[k] < at[l])
  }

  lemma PicksMore<T>(xs: seq<T>, x: T, at: seq<nat>, kept: seq<T>)
    requires Picks(xs, at, kept)
    ensures Picks(xs + [x], at, kept) && Picks(xs + [x], at + [|xs|], kept + [x])
  {
  }

  ghost function KnownAt(results: seq<Result>, keys: set<TargetKey>): (at: seq<nat>)
    ensures forall i: nat :: i in at <==> i < |results| && results[i].key in keys
  {
    if results == [] then []
    else KnownAt(results[..|results| - 1], keys) + (if results[|results| - 1].key in keys then [|results| - 1] else [])
  }

  ghost function NewAt(lastAck: int, cycles: seq<Cycle>): (at: seq<nat>)
    ensures forall i: nat :: i in at <==> i < |cycles| && cycles[i].seqNo > lastAck
  {
    if cycles == [] then []
    else NewAt(lastAck, cycles[..|cycles| - 1]) + (if cycles[|cycles| - 1].seqNo > lastAck then [|cycles| - 1] else [])
  }

  /** The results kept are those of known targets, each as often and in the order it
      came. */
  lemma {:induction false} KeptInOrder(results: seq<Result>, keys: set<TargetKey>)
    ensures Picks(results, KnownAt(results, keys), KeepKnown(results, keys))
  {
    if results != [] {
      var init, last := results[..|results| - 1], results[|results| - 1];
      KeptInOrder(init, keys);
      assert results == init + [last];
      PicksMore(init, last, KnownAt(init, keys), KeepKnown(init, keys));
    }
  }

  /** The cycles accepted are those past the ack, each as often and in the order it
      came. */
  lemma {:induction false} AcceptedInOrder(lastAck: int, cycles: seq<Cycle>)
    ensures Picks(cycles, NewAt(lastAck, cycles), Accepted(lastAck, cycles))
  {
    if cycles != [] {
      var init, last := cycles[..|cycles| - 1], cycles[|cycles| - 1];
      AcceptedInOrder(lastAck, init);
      assert cycles == init + [last];
      PicksMore(init, last, NewAt(lastAck, init), Accepted(lastAck, init));
    }
  }

  /** A cleaned cycle keeps its seq and its flag, has its time if that is within five
      minutes of now and now otherwise, and the results about targets of the config. */
  lemma CleanedAre(cycles: seq<Cycle>, now: int, keys: set<TargetKey>)
    ensures |CleanedAll(cycles, now, keys)| == |cycles|
    ensures forall i :: 0 <= i < |cycles| ==>
              var c, d := cycles[i], CleanedAll(cycles, now, keys)[i];
              && d.seqNo == c.seqNo && d.unverified == c.unverified && d.results == KeepKnown(c.results, keys)
              && d.ts == if now - 300000 <= c.ts <= now + 300000 then c.ts else now
  {
  }

  /** The k-th cycle is verified, none verified is newer, and it is the first of its seq. */
  ghost predicate Newest(cycles: seq<Cycle>, k: int) {
    && 0 <= k < |cycles| && !cycles[k].unverified
    && (forall c <- cycles :: !c.unverified ==> c.seqNo <= cycles[k].seqNo)
    && forall j :: 0 <= j < k ==> cycles[j].unverified || cycles[j].seqNo < cycles[k].seqNo
  }

  /** The live cycle is the newest verified one, the first of equals. */
  lemma {:induction false} LiveIsNewest(cycles: seq<Cycle>) returns (k: nat)
    requires LiveCycle(cycles).Some?
    ensures Newest(cycles, k) && cycles[k] == LiveCycle(cycles).value
  {
    var init, last := cycles[..|cycles| - 1], cycles[|cycles| - 1];
    assert cycles == init + [last];
    if LiveCycle(cycles) == LiveCycle(init) {
      k := LiveIsNewest(init);
    } else {
      k := |init|;
      forall j | 0 <= j < k ensures cycles[j].unverified || cycles[j].seqNo < last.seqNo {
        assert cycles[j] in init;
      }
    }
  }

  lemma OneMore(lastAck: int, cycles: seq<Cycle>, i: nat, now: int, keys: set<TargetKey>)
    requires i < |cycles|
    ensures AckOf(lastAck, cycles[..i + 1]) == if cycles[i].seqNo > AckOf(lastAck, cycles[..i]) then cycles[i].seqNo else AckOf(lastAck, cycles[..i])
    ensures CleanedAll(Accepted(lastAck, cycles[..i + 1]), now, keys) ==
            CleanedAll(Accepted(lastAck, cycles[..i]), now, keys) + (if cycles[i].seqNo > lastAck then [Cleaned(cycles[i], now, keys)] else [])
  {
    assert cycles[..i + 1][..i] == cycles[..i];
    if cycles[i].seqNo > lastAck {
      CleanedAppend(Accepted(lastAck, cycles[..i]), cycles[i], now, keys);
    } else {
      assert Accepted(lastAck, cycles[..i + 1]) == Accepted(lastAck, cycles[..i]);
    }
  }

  lemma CleanedAppend(cycles: seq<Cycle>, c: Cycle, now: int, keys: set<TargetKey>)
    ensures CleanedAll(cycles + [c], now, keys) == CleanedAll(cycles, now, keys) + [Cleaned(c, now, keys)]
  {
  }

  /** The heartbeat's first loop: the new ack and the cycles worth keeping. */
  method Sift(lastAck: int, cycles: seq<Cycle>, now: int, keys: set<TargetKey>) returns (ack: int, kept: seq<Cycle>)
    ensures ack == AckOf(lastAck, cycles)
    ensures kept == CleanedAll(Accepted(lastAck, cycles), now, keys)
  {
    ack, kept := lastAck, [];
    for i := 0 to |cycles|
      invariant ack == AckOf(lastAck, cycles[..i])
      invariant kept == CleanedAll(Accepted(lastAck, cycles[..i]), now, keys)
    {
      OneMore(lastAck, cycles, i, now, keys);
      if cycles[i].seqNo > ack {
        ack := cycles[i].seqNo;
      }
      if cycles[i].seqNo > lastAck {
        var c := cycles[i];
        c := c.(ts := ClampTs(c.ts, now));
        c := c.(results := KeepKnown(c.results, keys));
        kept := kept + [c];
      }
    }
    assert cycles[..|cycles|] == cycles;
  }

  method FindLive(cycles: seq<Cycle>) returns (live: Option<Cycle>)
    ensures live == LiveCycle(cycles)
  {
    live := None;
    for i := 0 to |cycles|
      invariant live == LiveCycle(cycles[..i])
    {
      assert cycles[..i + 1][..i] == cycles[..i];
      if !cycles[i].unverified && (live == None || cycles[i].seqNo > live.value.seqNo) {
        live := Some(cycles[i]);
      }
    }
    assert cycles[..|cycles|] == cycles;
  }
}
