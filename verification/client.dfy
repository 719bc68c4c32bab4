/** What mon-server makes of the panel's answers (internal/panel/client.go): which
    failures are worth repeating, and which elements of a batch were refused. */
module PanelClient {
  import opened Wrappers
  import opened Flatten

  /** A request's error.  Net is a request no answer came back to; `trusted` is
      false when the reason was the panel's certificate. */
  datatype Failure =
    | NotFound
    | BadBody
    | Api(status: int, code: string)
    | Net(timeout: bool, trusted: bool)
    | Internal

  const MAX_RETRIES := 3
  const CODE_XRAY_UNAVAILABLE := "xray_unavailable"
  const CODE_UNKNOWN_HOP := "unknown_hop"
  const CODE_HOP_NOT_JOINED := "hop_not_joined"

  predicate IsRetryable(f: Failure) {
    f.Net? || (f.Api? && f.status >= 500)
  }

  predicate IsHopConflict(f: Failure) {
    f.Api? && f.status == 409 && f.code in {CODE_UNKNOWN_HOP, CODE_HOP_NOT_JOINED}
  }

  datatype DownReason = ConnRefused | HttpTimeout | Http5xx

  /** failureReason: the reason a failure counts toward PANEL_DOWN with, if it does. */
  function FailureReason(f: Failure): Option<DownReason> {
    match f
    case Api(status, code) => if code == CODE_XRAY_UNAVAILABLE || status < 500 then None else Some(Http5xx)
    case Net(timeout, _) => Some(if timeout then HttpTimeout else ConnRefused)
    case _ => None
  }

  /** A failure counts exactly when the caller keeps its rows for a later try,
      the xray_unavailable answer apart: the panel did answer that one. */
  lemma CountedIsUnanswered(f: Failure)
    ensures FailureReason(f).Some? <==> IsRetryable(f) && !(f.Api? && f.code == CODE_XRAY_UNAVAILABLE)
  {
  }

  /** The reason a failure counts with: no answer in time, none at all, or a 5xx other
      than "xray is not running". */
  lemma FailureReasons(f: Failure)
    ensures FailureReason(f) == Some(HttpTimeout) <==> f.Net? && f.timeout
    ensures FailureReason(f) == Some(ConnRefused) <==> f.Net? && !f.timeout
    ensures FailureReason(f) == Some(Http5xx) <==> f.Api? && f.status >= 500 && f.code != "xray_unavailable"
  {
  }

  /** A hop conflict is a 409 saying that the hop is unknown or not joined. */
  lemma HopConflicts(f: Failure)
    ensures IsHopConflict(f) <==> f.Api? && f.status == 409 && (f.code == "unknown_hop" || f.code == "hop_not_joined")
  {
  }

  /** An attempt is worth repeating when no answer came, the certificate being trusted, or
      a 5xx did. */
  predicate Passing(f: Option<Failure>) {
    f.Some? && ((f.value.Net? && f.value.trusted) || (f.value.Api? && f.value.status >= 500))
  }

  predicate Repeats(f: Option<Failure>) {
    f.Some? && IsRetryable(f.value) && !(f.value.Net? && !f.value.trusted)
  }

  /** do: `outcome(k)` is what the k-th attempt comes to and `woken(k)` whether the
      wait after it ran its course.  The caller sees the last attempt; every one
      before it was worth repeating, and the last one was not, or was the fourth,
      or the wait was cut short. */
  method Do(outcome: nat -> Option<Failure>, woken: nat -> bool) returns (result: Option<Failure>, attempts: nat)
    ensures 1 <= attempts <= MAX_RETRIES + 1
    ensures result == outcome(attempts - 1)
    ensures forall k :: 0 <= k < attempts - 1 ==> Passing(outcome(k)) && woken(k)
    ensures attempts == MAX_RETRIES + 1 || !Passing(outcome(attempts - 1)) || !woken(attempts - 1)
  {
    var attempt := 0;
    while true
      invariant attempt <= MAX_RETRIES
      invariant forall k :: 0 <= k < attempt ==> Repeats(outcome(k)) && woken(k)
      decreases MAX_RETRIES - attempt
    {
      result := outcome(attempt);
      if result == None || !Repeats(result) || attempt >= MAX_RETRIES {
        return result, attempt + 1;
      }
      if !woken(attempt) {
        return result, attempt + 1;
      }
      attempt := attempt + 1;
    }
  }

  // ---- the elements of a batch ----

  /** One element of an answer's `rejected` list; id "" when the panel named none. */
  datatype Rejection = Rejection(index: int, id: string, error: string)

  /** The last index holding id, as a map filled in a loop would remember it. */
  function LastIndexOf(ids: seq<string>, id: string): (r: Option<nat>)
    ensures r == None <==> id !in ids
    ensures r.Some? ==> r.value < |ids| && ids[r.value] == id
  {
    if ids == [] then None
    else if ids[|ids| - 1] == id then Some(|ids| - 1)
    else
      assert ids == ids[..|ids| - 1] + [ids[|ids| - 1]];
      LastIndexOf(ids[..|ids| - 1], id)
  }

  /** The batch element a rejection means.  Stats batches carry no ids. */
  function Placed(r: Rejection, n: nat, ids: Option<seq<string>>): (at: Option<nat>)
    requires ids.Some? ==> |ids.value| == n
    ensures at.Some? ==> at.value < n
  {
    if r.id != "" && ids.Some? then
      if 0 <= r.index < n && ids.value[r.index] == r.id then Some(r.index) else LastIndexOf(ids.value, r.id)
    else if 0 <= r.index < n then Some(r.index) else None
  }

  /** Rejections: every rejection that can be placed is, the last one winning, and
      nothing else is in the result. */
  method Rejections(n: nat, rejected: seq<Rejection>, ids: Option<seq<string>>) returns (out: map<nat, Rejection>)
    requires ids.Some? ==> |ids.value| == n
    ensures out == RejectionsOf(n, rejected, ids)
  {
    out := map[];
    for i := 0 to |rejected|
      invariant out == RejectionsOf(n, rejected[..i], ids)
    {
      assert rejected[..i + 1][..i] == rejected[..i];
      var r := rejected[i];
      var idx := -1;
      if r.id != "" && ids.Some? && 0 <= r.index < n && ids.value[r.index] == r.id {
        idx := r.index;
      } else if r.id != "" && ids.Some? {
        var byId := IndexById(ids.value);
        if r.id in byId {
          idx := byId[r.id];
        }
      } else if 0 <= r.index < n {
        idx := r.index;
      }
      if idx >= 0 {
        out := out[idx := r];
      }
    }
    assert rejected[..|rejected|] == rejected;
  }

  method IndexById(ids: seq<string>) returns (byId: map<string, nat>)
    ensures forall id :: id in byId <==> id in ids
    ensures forall id :: id in byId ==> LastIndexOf(ids, id) == Some(byId[id])
  {
    byId := map[];
    for i := 0 to |ids|
      invariant forall id :: id in byId <==> id in ids[..i]
      invariant forall id :: id in byId ==> LastIndexOf(ids[..i], id) == Some(byId[id])
    {
      assert ids[..i + 1][..i] == ids[..i];
      byId := byId[ids[i] := i];
    }
    assert ids[..|ids|] == ids;
  }

  function RejectionsOf(n: nat, rejected: seq<Rejection>, ids: Option<seq<string>>): (out: map<nat, Rejection>)
    requires ids.Some? ==> |ids.value| == n
    ensures forall i :: i in out ==> i < n && out[i] in rejected && Placed(out[i], n, ids) == Some(i)
  {
    if rejected == [] then map[]
    else
      var last := rejected[|rejected| - 1];
      assert rejected == rejected[..|rejected| - 1] + [last];
      var before := RejectionsOf(n, rejected[..|rejected| - 1], ids);
      match Placed(last, n, ids)
      case None => before
      case Some(i) => before[i := last]
  }

  /** An element of a batch of events is refused exactly when some rejection names
      its id, or names no id and gives its index.  An entry naming an id that is
      not in the batch refuses nothing, whatever its index says. */
  lemma {:induction false} RefusedAreTheNamed(ids: seq<string>, rejected: seq<Rejection>, i: nat)
    requires Distinct(ids) && i < |ids|
    ensures i in RejectionsOf(|ids|, rejected, Some(ids)) <==>
            exists r <- rejected :: if r.id != "" then r.id == ids[i] else r.index == i
  {
    if rejected != [] {
      var init, last := rejected[..|rejected| - 1], rejected[|rejected| - 1];
      assert rejected == init + [last];
      RefusedAreTheNamed(ids, init, i);
      if (if last.id != "" then last.id == ids[i] else last.index == i) {
        assert last in rejected;
      }
    }
  }

  /** Without ids a rejection's index is all there is. */
  lemma {:induction false} RefusedAreTheIndexed(n: nat, rejected: seq<Rejection>, i: nat)
    requires i < n
    ensures i in RejectionsOf(n, rejected, None) <==> exists r <- rejected :: r.index == i
  {
    if rejected != [] {
      var init, last := rejected[..|rejected| - 1], rejected[|rejected| - 1];
      assert rejected == init + [last];
      RefusedAreTheIndexed(n, init, i);
      if last.index == i {
        assert last in rejected;
      }
    }
  }

  /** Splitting a batch by its rejections, order kept. */
  method Split<K>(ids: seq<K>, rejected: map<nat, Rejection>) returns (sent: seq<K>, refused: seq<K>)
    ensures sent == Picked(ids, rejected, false) && refused == Picked(ids, rejected, true)
  {
    sent, refused := [], [];
    for i := 0 to |ids|
      invariant sent == Picked(ids[..i], rejected, false) && refused == Picked(ids[..i], rejected, true)
    {
      assert ids[..i + 1][..i] == ids[..i];
      if i in rejected {
        refused := refused + [ids[i]];
      } else {
        sent := sent + [ids[i]];
      }
    }
    assert ids[..|ids|] == ids;
  }

  function Picked<K>(ids: seq<K>, rejected: map<nat, Rejection>, refused: bool): seq<K> {
    if ids == [] then []
    else
      var n := |ids| - 1;
      Picked(ids[..n], rejected, refused) + (if (n in rejected) == refused then [ids[n]] else [])
  }

  /** Every element of the batch is either sent or refused, once. */
  lemma {:induction false} SplitIsExact<K>(ids: seq<K>, rejected: map<nat, Rejection>)
    ensures multiset(Picked(ids, rejected, false)) + multiset(Picked(ids, rejected, true)) == multiset(ids)
  {
    if ids != [] {
      SplitIsExact(ids[..|ids| - 1], rejected);
      assert ids == ids[..|ids| - 1] + [ids[|ids| - 1]];
    }
  }

  lemma {:induction false} PickedByIndex<K(!new)>(ids: seq<K>, rejected: map<nat, Rejection>, refused: bool)
    ensures forall k :: k in Picked(ids, rejected, refused) <==> exists i :: 0 <= i < |ids| && ids[i] == k && (i in rejected) == refused
  {
    if ids != [] {
      var n := |ids| - 1;
      var init := ids[..n];
      PickedByIndex(init, rejected, refused);
      forall k
        ensures k in Picked(ids, rejected, refused) <==> exists i :: 0 <= i < |ids| && ids[i] == k && (i in rejected) == refused
      {
        if k in Picked(init, rejected, refused) {
          var i :| 0 <= i < n && init[i] == k && (i in rejected) == refused;
          assert ids[i] == k;
        }
        if i :| 0 <= i < |ids| && ids[i] == k && (i in rejected) == refused {
          if i < n {
            assert init[i] == k;
          }
        }
      }
    }
  }
}
