/** The PANEL_DOWN automaton (internal/panel/poller.go, observe and what it calls). */
module Watch {
  import opened Wrappers
  import opened PanelClient

  datatype Mode = Mode(down: bool, failures: nat)

  /** One panel request: what it came to, and the panelDownAfter setting then. */
  datatype Look = Look(outcome: Option<Failure>, after: int)

  datatype Filing = WentDown(reason: DownReason) | CameBack

  const FRESH := Mode(false, 0)

  function Threshold(after: int): int {
    if after < 1 then 1 else after
  }

  predicate Counts(l: Look) {
    l.outcome.Some? && FailureReason(l.outcome.value).Some?
  }

  predicate Neutral(l: Look) {
    l.outcome.Some? && FailureReason(l.outcome.value) == None
  }

  function Noted(m: Mode, l: Look): Mode {
    if l.outcome == None then FRESH
    else if Neutral(l) then m
    else Mode(m.down || m.failures + 1 >= Threshold(l.after), m.failures + 1)
  }

  /** The event a look files in the outbox. */
  function Filed(m: Mode, l: Look): Option<Filing> {
    if l.outcome == None then (if m.down then Some(CameBack) else None)
    else if Counts(l) && !m.down && m.failures + 1 >= Threshold(l.after) then Some(WentDown(FailureReason(l.outcome.value).value))
    else None
  }

  function ModeAfter(looks: seq<Look>): Mode {
    if looks == [] then FRESH else Noted(ModeAfter(looks[..|looks| - 1]), looks[|looks| - 1])
  }

  function FiledIn(looks: seq<Look>): seq<Filing> {
    if looks == [] then []
    else
      var init := looks[..|looks| - 1];
      FiledIn(init) + (match Filed(ModeAfter(init), looks[|looks| - 1]) case None => [] case Some(f) => [f])
  }

  // ---- the same, said about the history ----

  /** Counted failures since the last success. */
  function FailuresSince(looks: seq<Look>): nat {
    if looks == [] || looks[|looks| - 1].outcome == None then 0
    else FailuresSince(looks[..|looks| - 1]) + (if Counts(looks[|looks| - 1]) then 1 else 0)
  }

  /** The i-th look is a counted failure that brought the run to the threshold, and
      no success came after it. */
  ghost predicate TripsAt(looks: seq<Look>, i: nat) {
    && i < |looks| && Counts(looks[i])
    && FailuresSince(looks[..i + 1]) >= Threshold(looks[i].after)
    && forall j :: i < j < |looks| ==> looks[j].outcome != None
  }

  ghost predicate Tripped(looks: seq<Look>) {
    exists i :: TripsAt(looks, i)
  }

  lemma TripsAtLater(looks: seq<Look>, l: Look, i: nat)
    requires i < |looks|
    ensures TripsAt(looks + [l], i) <==> l.outcome != None && TripsAt(looks, i)
  {
    var all := looks + [l];
    assert all[..i + 1] == looks[..i + 1];
    assert all[|looks|] == l;
    assert forall j :: 0 <= j < |looks| ==> all[j] == looks[j];
  }

  lemma TripsAtEnd(looks: seq<Look>, l: Look)
    ensures TripsAt(looks + [l], |looks|) <==> Counts(l) && FailuresSince(looks + [l]) >= Threshold(l.after)
  {
    assert (looks + [l])[..|looks| + 1] == looks + [l];
  }

  lemma TrippedStep(looks: seq<Look>, l: Look)
    ensures Tripped(looks + [l]) <==>
            l.outcome != None && (Tripped(looks) || (Counts(l) && FailuresSince(looks + [l]) >= Threshold(l.after)))
  {
    TripsAtEnd(looks, l);
    forall i: nat | i < |looks| ensures TripsAt(looks + [l], i) <==> l.outcome != None && TripsAt(looks, i) {
      TripsAtLater(looks, l, i);
    }
  }

  /** The two fields are what the history says: the run of counted failures, and
      whether it tripped since the last success. */
  lemma {:induction false} ModeIsTheHistory(looks: seq<Look>)
    ensures ModeAfter(looks).failures == FailuresSince(looks)
    ensures ModeAfter(looks).down <==> Tripped(looks)
  {
    if looks != [] {
      var init, l := looks[..|looks| - 1], looks[|looks| - 1];
      assert looks == init + [l];
      ModeIsTheHistory(init);
      TrippedStep(init, l);
    }
  }

  /** For every sequence of answers, PANEL_DOWN and PANEL_UP alternate, DOWN first,
      and the mode is the last one filed. */
  lemma {:induction false} FilingsAlternate(looks: seq<Look>)
    ensures forall i :: 0 <= i < |FiledIn(looks)| ==> (FiledIn(looks)[i].WentDown? <==> i % 2 == 0)
    ensures ModeAfter(looks).down <==> |FiledIn(looks)| % 2 == 1
  {
    if looks != [] {
      FilingsAlternate(looks[..|looks| - 1]);
    }
  }

  /** Under one setting, PANEL_DOWN is filed by exactly the failure that brings the
      run since the last success to the threshold. */
  lemma FiledAtTheThreshold(looks: seq<Look>, l: Look)
    requires forall k <- looks :: k.after == l.after
    ensures var filed := Filed(ModeAfter(looks), l);
            && (filed.Some? && filed.value.WentDown? <==> Counts(l) && FailuresSince(looks + [l]) == (if l.after < 1 then 1 else l.after))
            && (filed.Some? && filed.value.WentDown? ==> FailureReason(l.outcome.value) == Some(filed.value.reason))
  {
    assert (looks + [l])[..|looks|] == looks;
    ModeIsTheHistory(looks);
    DownPastTheThreshold(looks, l.after);
  }

  lemma {:induction false} DownPastTheThreshold(looks: seq<Look>, after: int)
    requires forall k <- looks :: k.after == after
    ensures ModeAfter(looks).down <==> ModeAfter(looks).failures >= Threshold(after)
  {
    if looks != [] {
      assert looks == looks[..|looks| - 1] + [looks[|looks| - 1]];
      DownPastTheThreshold(looks[..|looks| - 1], after);
    }
  }

  /** An answer that proves something answered neither trips the mode nor clears a
      run: without it everything later is the same. */
  lemma {:induction false} NeutralLeavesNoTrace(before: seq<Look>, l: Look, later: seq<Look>)
    requires Neutral(l)
    ensures ModeAfter(before + [l] + later) == ModeAfter(before + later)
    ensures FiledIn(before + [l] + later) == FiledIn(before + later)
  {
    if later == [] {
      assert before + [l] + later == before + [l] && before + later == before;
      OneLook(before, l);
    } else {
      var init, last := later[..|later| - 1], later[|later| - 1];
      assert before + [l] + later == (before + [l] + init) + [last];
      assert before + later == (before + init) + [last];
      NeutralLeavesNoTrace(before, l, init);
      OneLook(before + [l] + init, last);
      OneLook(before + init, last);
    }
  }

  lemma OneLook(looks: seq<Look>, l: Look)
    ensures ModeAfter(looks + [l]) == Noted(ModeAfter(looks), l)
    ensures FiledIn(looks + [l]) == match Filed(ModeAfter(looks), l) case None => FiledIn(looks) case Some(f) => FiledIn(looks) + [f]
  {
    assert (looks + [l])[..|looks|] == looks;
  }
}
