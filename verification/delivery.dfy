/** The mon-client's buffer (internal/client/heartbeat/buffer.go) and its run loop
    (internal/client/app/loop.go). */
module Delivery {
  import opened Wrappers
  import opened Store
  import opened Wire

  const MAX_CYCLES := 60

  /** cycles.json: the counter and the cycles still owed. */
  datatype Pile = Pile(nextSeq: int, cycles: seq<Cycle>)

  function Latest(cycles: seq<Cycle>): seq<Cycle> {
    if |cycles| > MAX_CYCLES then cycles[|cycles| - MAX_CYCLES..] else cycles
  }

  function Added(p: Pile, ts: int, results: seq<Result>): Pile {
    Pile(p.nextSeq + 1, Latest(p.cycles + [Cycle(p.nextSeq, ts, false, results)]))
  }

  function Continued(p: Pile, ack: int): Pile {
    if ack >= p.nextSeq then p.(nextSeq := ack + 1) else p
  }

  function Unacked(cycles: seq<Cycle>, ack: int): (r: seq<Cycle>)
    ensures forall c :: c in r <==> c in cycles && c.seqNo > ack
  {
    if cycles == [] then []
    else
      var last := cycles[|cycles| - 1];
      assert cycles == cycles[..|cycles| - 1] + [last];
      Unacked(cycles[..|cycles| - 1], ack) + (if last.seqNo > ack then [last] else [])
  }

  function Acked(p: Pile, ack: int): Pile {
    var q := Continued(p, ack);
    q.(cycles := Unacked(q.cycles, ack))
  }

  function Flagged(cycles: seq<Cycle>): seq<Cycle> {
    seq(|cycles|, i requires 0 <= i < |cycles| => cycles[i].(unverified := true))
  }

  class Buffer {
    var nextSeq: int
    var cycles: seq<Cycle>

    ghost function Value(): Pile
      reads this
    {
      Pile(nextSeq, cycles)
    }

    constructor ()
      ensures Value() == Pile(1, [])
    {
      nextSeq, cycles := 1, [];
    }

    /** The new cycle gets the next seq; past the bound the oldest is dropped. */
    method Add(ts: int, results: seq<Result>)
      modifies this
      ensures Value() == Added(old(Value()), ts, results)
    {
      var c := Cycle(nextSeq, ts, false, results);
      nextSeq := nextSeq + 1;
      cycles := cycles + [c];
      if |cycles| > MAX_CYCLES {
        cycles := cycles[|cycles| - MAX_CYCLES..];
      }
    }

    method ContinueAfter(ack: int)
      modifies this
      ensures Value() == Continued(old(Value()), ack)
    {
      if ack >= nextSeq {
        nextSeq := ack + 1;
      }
    }

    method Ack(ack: int)
      modifies this
      ensures Value() == Acked(old(Value()), ack)
    {
      ContinueAfter(ack);
      var owed := cycles;
      var kept: seq<Cycle> := [];
      for i := 0 to |owed|
        invariant kept == Unacked(owed[..i], ack)
        invariant nextSeq == Continued(old(Value()), ack).nextSeq
      {
        assert owed[..i + 1][..i] == owed[..i];
        if owed[i].seqNo > ack {
          kept := kept + [owed[i]];
        }
      }
      assert owed[..|owed|] == owed;
      cycles := kept;
    }

    method MarkUnverified()
      modifies this`cycles
      ensures Value() == old(Value()).(cycles := Flagged(old(cycles)))
    {
      for i := 0 to |cycles|
        invariant |cycles| == |old(cycles)|
        invariant forall j :: 0 <= j < |cycles| ==> cycles[j] == if j < i then Flagged(old(cycles))[j] else old(cycles)[j]
      {
        cycles := cycles[i := cycles[i].(unverified := true)];
      }
    }
  }

  /** What came back for one heartbeat, if anything did. */
  datatype Answer =
    | Ok(ack: int, revision: string)
    | Lost
    | Refused

  /** GET /v1/config: a document (applied or not), nothing, or a refusal. */
  datatype Fetch = Document(revision: string, applies: bool) | NoDocument | FetchRefused

  class Loop {
    const buffer: Buffer
    var needConfig: bool
    var applied: string
    var lastAckSeq: int

    constructor (buffer: Buffer, applied: string, lastAckSeq: int)
      modifies buffer
      ensures this.buffer == buffer && this.applied == applied && this.lastAckSeq == lastAckSeq && needConfig
      ensures buffer.Value() == Continued(old(buffer.Value()), lastAckSeq)
    {
      this.buffer, this.applied, this.lastAckSeq, needConfig := buffer, applied, lastAckSeq, true;
      new;
      buffer.ContinueAfter(lastAckSeq);
    }

    /** fetchAndApply: only a document clears the need for one, and only a document
        that applies becomes the applied revision. */
    method FetchAndApply(fetch: Fetch) returns (stop: bool)
      modifies this`needConfig, this`applied
      ensures stop <==> fetch.FetchRefused?
      ensures needConfig == (old(needConfig) && !fetch.Document?)
      ensures applied == if fetch.Document? && fetch.applies then fetch.revision else old(applied)
    {
      stop := fetch.FetchRefused?;
      if fetch.Document? {
        needConfig := false;
        if fetch.applies {
          applied := fetch.revision;
        }
      }
    }

    /** One iteration.  The answer may be anything, and may depend on what was
        sent; the new cycle is always sent, and only an answer drops cycles. */
    method Once(fetch: Fetch, ts: int, results: seq<Result>, answer: seq<Cycle> -> Answer) returns (stop: bool, sent: seq<Cycle>)
      modifies this, buffer
      ensures stop && sent == [] ==> old(needConfig) && fetch.FetchRefused? && buffer.Value() == old(buffer.Value()) && lastAckSeq == old(lastAckSeq)
      ensures sent != [] ==>
                var added := Added(old(buffer.Value()), ts, results);
                && sent == added.cycles
                && (match answer(sent)
                    case Ok(ack, revision) =>
                      && !stop && buffer.Value() == Acked(added, ack)
                      && lastAckSeq == (if ack > old(lastAckSeq) then ack else old(lastAckSeq))
                      && (needConfig <==> revision != applied || (old(needConfig) && !fetch.Document?))
                    case Lost => !stop && buffer.Value() == added.(cycles := Flagged(added.cycles)) && lastAckSeq == old(lastAckSeq)
                    case Refused => stop && buffer.Value() == added.(cycles := Flagged(added.cycles)) && lastAckSeq == old(lastAckSeq))
      ensures !stop ==> sent != []
      ensures applied == if old(needConfig) && fetch.Document? && fetch.applies then fetch.revision else old(applied)
    {
      sent := [];
      if needConfig {
        stop := FetchAndApply(fetch);
        if stop {
          return;
        }
      }
      buffer.Add(ts, results);
      sent := buffer.cycles;
      match answer(sent) {
        case Ok(ack, revision) =>
          stop := false;
          buffer.Ack(ack);
          if ack > lastAckSeq {
            lastAckSeq := ack;
          }
          if revision != applied {
            needConfig := true;
          }
        case Lost =>
          stop := false;
          buffer.MarkUnverified();
        case Refused =>
          stop := true;
          buffer.MarkUnverified();
      }
    }
  }
}
