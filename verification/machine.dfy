/** The target state machine (internal/state/machine.go). */
module Machine {
  import opened Wrappers
  import opened Store

  datatype Knobs = Knobs(downAfter: int, upAfter: int, flapN: int, flapMs: int, holdMs: int)

  /** Thresholds as the machine uses them: counts of at least one and windows
      of at least a minute. */
  type Thresholds = k: Knobs
    | k.downAfter >= 1 && k.upAfter >= 1 && k.flapN >= 1 && k.flapMs >= MINUTE && k.holdMs >= MINUTE
    witness Knobs(3, 2, 4, 30 * MINUTE, 15 * MINUTE)

  const MINUTE: int := 60000

  function AtLeast(v: int, min: int): int {
    if v < min then min else v
  }

  /** Stored settings clamped into thresholds; windows are stored in minutes. */
  function ThresholdsFrom(downAfter: int, upAfter: int, flapN: int, flapMin: int, flapHoldMin: int): (th: Thresholds)
    ensures if downAfter >= 1 then th.downAfter == downAfter else th.downAfter == 1
    ensures if upAfter >= 1 then th.upAfter == upAfter else th.upAfter == 1
    ensures if flapN >= 1 then th.flapN == flapN else th.flapN == 1
    ensures if flapMin >= 1 then th.flapMs == flapMin * MINUTE else th.flapMs == MINUTE
    ensures if flapHoldMin >= 1 then th.holdMs == flapHoldMin * MINUTE else th.holdMs == MINUTE
  {
    Knobs(AtLeast(downAfter, 1), AtLeast(upAfter, 1), AtLeast(flapN, 1),
          AtLeast(flapMin, 1) * MINUTE, AtLeast(flapHoldMin, 1) * MINUTE)
  }

  /** A probe result reduced to what the machine decides on. */
  datatype Outcome = Outcome(ok: bool, reason: Reason)

  /** Silent marks a flip inside FLAPPING: an event, but no message. */
  datatype Transition = Transition(from: TargetState, to: TargetState, reason: Reason, silent: bool, sinceMs: int)

  datatype Stepped = Stepped(row: Target, events: seq<Transition>)

  /** What the mon-client blames, defaulted for a failure it left unexplained. */
  function OutcomeOf(ok: bool, reason: Option<Reason>): (o: Outcome)
    ensures o.ok == ok && (o.reason == NoReason <==> ok)
    ensures !ok && reason.Some? && reason.value != NoReason ==> o.reason == reason.value
    ensures !ok && (reason == None || reason.value == NoReason) ==> o.reason == HttpError
  {
    if ok then Outcome(true, NoReason)
    else if reason.Some? && reason.value != NoReason then Outcome(false, reason.value)
    else Outcome(false, HttpError)
  }

  predicate IsUpDown(s: TargetState) { s == Up || s == Down }

  function EventReason(res: Outcome): Reason { if res.ok then Recovered else res.reason }

  function RowReason(res: Outcome): Reason { if res.ok then NoReason else res.reason }

  function LastFailureReason(r: Reason): Reason { if r == NoReason then HttpError else r }

  /** What a FLAPPING target's counters say it is underneath. */
  function Derived(t: Target, th: Thresholds): TargetState {
    if t.fails >= th.downAfter then Down
    else if t.oks >= th.upAfter then Up
    else if t.fails > 0 then Up
    else if t.oks > 0 then Down
    else Up
  }

  /** The timestamps later than a cutoff, in order. */
  function After(times: seq<int>, cutoff: int): (kept: seq<int>)
    ensures forall t <- kept :: t in times && t > cutoff
  {
    if times == [] then []
    else After(times[..|times| - 1], cutoff) + (if times[|times| - 1] > cutoff then [times[|times| - 1]] else [])
  }

  /** The flip window once a flip at `now` is recorded. */
  function Recorded(flips: seq<int>, now: int, window: int): seq<int> {
    After(flips, now - window) + [now]
  }

  predicate HoldServed(t: Target, now: int) {
    t.state == Flapping && t.flappingUntil.Some? && now >= t.flappingUntil.value
  }

  /** A served hold ends before the result is applied. */
  function Release(cur: Target, th: Thresholds, now: int): Stepped {
    if !HoldServed(cur, now) then Stepped(cur, [])
    else
      var to := Derived(cur, th);
      var reason := if to == Down then LastFailureReason(cur.reason) else Recovered;
      Stepped(cur.(state := to, since := now, flappingUntil := None, flips := [],
                   reason := if to == Up then NoReason else reason),
              [Transition(Flapping, to, reason, false, cur.since)])
  }

  function Counted(t: Target, ok: bool, now: int): Target {
    if ok then t.(lastResultAt := Some(now), oks := t.oks + 1, fails := 0)
    else t.(lastResultAt := Some(now), fails := t.fails + 1, oks := 0)
  }

  /** The state a counted result asks for outside FLAPPING. */
  function Wanted(t: Target, th: Thresholds, ok: bool): TargetState {
    if ok && t.state == Unknown then Up
    else if ok && t.state == Down && t.oks >= th.upAfter then Up
    else if !ok && t.state != Down && t.fails >= th.downAfter then Down
    else t.state
  }

  /** A flip under FLAPPING: filed silently, and the hold starts again. */
  function Masked(from: TargetState, t: Target, th: Thresholds, res: Outcome, now: int): Stepped {
    var to := Derived(t, th);
    if from == to then Stepped(t, [])
    else Stepped(t.(flips := Recorded(t.flips, now, th.flapMs), flappingUntil := Some(now + th.holdMs), reason := RowReason(res)),
                 [Transition(from, to, EventReason(res), true, t.since)])
  }

  /** A transition outside FLAPPING, which may itself be what enters it. */
  function Switched(t: Target, want: TargetState, th: Thresholds, res: Outcome, now: int): Stepped {
    var flip := IsUpDown(t.state) && IsUpDown(want);
    var flips := if flip then Recorded(t.flips, now, th.flapMs) else t.flips;
    if flip && |flips| >= th.flapN then
      Stepped(t.(flips := flips, state := Flapping, since := now, flappingUntil := Some(now + th.holdMs), reason := RowReason(res)),
              [Transition(t.state, Flapping, FlappingReason, false, t.since)])
    else
      Stepped(t.(flips := flips, state := want, since := now, reason := RowReason(res)),
              [Transition(t.state, want, EventReason(res), false, t.since)])
  }

  function Settled(cur: Target, released: Target, th: Thresholds, res: Outcome, now: int): Stepped {
    var next := Counted(released, res.ok, now);
    if next.state == Flapping then Masked(Derived(cur, th), next, th, res, now)
    else
      var want := Wanted(next, th, res.ok);
      if want == next.state then Stepped(next, []) else Switched(next, want, th, res, now)
  }

  /** One live result applied to one row. */
  function Step(cur: Target, th: Thresholds, res: Outcome, now: int): Stepped {
    if cur.state == Paused then Stepped(cur, [])
    else
      var first := Release(cur, th, now);
      var second := Settled(cur, first.row, th, res, now);
      Stepped(second.row, first.events + second.events)
  }

  /** recordTransition: drops what fell out of the window, then appends now. */
  method RecordTransition(flips: seq<int>, now: int, window: int) returns (kept: seq<int>, n: nat)
    ensures kept == Recorded(flips, now, window) && n == |kept|
  {
    kept := [];
    for i := 0 to |flips|
      invariant kept == After(flips[..i], now - window)
    {
      assert flips[..i + 1][..i] == flips[..i];
      if flips[i] > now - window {
        kept := kept + [flips[i]];
      }
    }
    assert flips[..|flips|] == flips;
    kept := kept + [now];
    n := |kept|;
  }

  /** The machine as the program runs it: a local copy updated field by field. */
  method StepRow(cur: Target, th: Thresholds, res: Outcome, now: int) returns (next: Target, evs: seq<Transition>)
    ensures Stepped(next, evs) == Step(cur, th, res, now)
  {
    next, evs := cur, [];
    if cur.state == Paused {
      return;
    }
    if next.state == Flapping && next.flappingUntil.Some? && now >= next.flappingUntil.value {
      var to := Derived(cur, th);
      var reason := Recovered;
      if to == Down {
        reason := LastFailureReason(cur.reason);
      }
      evs := evs + [Transition(Flapping, to, reason, false, cur.since)];
      next := next.(state := to);
      next := next.(since := now);
      next := next.(flappingUntil := None);
      next := next.(flips := []);
      if to == Up {
        next := next.(reason := NoReason);
      } else {
        next := next.(reason := reason);
      }
    }
    next := next.(lastResultAt := Some(now));
    if res.ok {
      next := next.(oks := next.oks + 1, fails := 0);
    } else {
      next := next.(fails := next.fails + 1, oks := 0);
    }
    if next.state == Flapping {
      var from, to := Derived(cur, th), Derived(next, th);
      if from != to {
        var kept, _ := RecordTransition(next.flips, now, th.flapMs);
        next := next.(flips := kept, flappingUntil := Some(now + th.holdMs), reason := RowReason(res));
        evs := evs + [Transition(from, to, EventReason(res), true, next.since)];
      }
      return;
    }
    var want := next.state;
    if res.ok && next.state == Unknown {
      want := Up;
    } else if res.ok && next.state == Down && next.oks >= th.upAfter {
      want := Up;
    } else if !res.ok && next.state != Down && next.fails >= th.downAfter {
      want := Down;
    }
    if want == next.state {
      return;
    }
    var from, fromSince := next.state, next.since;
    if IsUpDown(from) && IsUpDown(want) {
      var kept, n := RecordTransition(next.flips, now, th.flapMs);
      next := next.(flips := kept);
      if n >= th.flapN {
        next := next.(state := Flapping, since := now, flappingUntil := Some(now + th.holdMs), reason := RowReason(res));
        evs := evs + [Transition(from, Flapping, FlappingReason, false, fromSince)];
        return;
      }
    }
    next := next.(state := want, since := now, reason := RowReason(res));
    evs := evs + [Transition(from, want, EventReason(res), false, fromSince)];
  }

  // ---- what one step guarantees, whatever the row looked like before ----

  /** The counters stay below the thresholds they would have crossed. */
  ghost predicate Calibrated(t: Target, th: Thresholds) {
    && (t.state == Up || t.state == Unknown ==> t.fails < th.downAfter)
    && (t.state == Unknown ==> t.oks == 0)
    && (t.state == Down ==> t.oks < th.upAfter)
  }

  lemma StepCalibrates(cur: Target, th: Thresholds, res: Outcome, now: int)
    requires cur.state != Paused
    ensures Calibrated(Step(cur, th, res, now).row, th)
  {
  }

  /** Whom a step blames: entering FLAPPING says flapping, a failure that changes the
      state gives its own reason to the event and to the row, a success says recovered
      and clears the row's reason, and a served hold that ends DOWN keeps the row's last
      reason, or http_error when it has none. */
  lemma StepBlames(cur: Target, th: Thresholds, res: Outcome, now: int)
    ensures var after := Step(cur, th, res, now);
            forall i :: 0 <= i < |after.events| ==>
              var ev := after.events[i];
              if i == 0 && HoldServed(cur, now) then
                ev.from == Flapping && ev.reason == (if ev.to == Up then Recovered else if cur.reason == NoReason then HttpError else cur.reason)
              else
                && ev.reason == (if ev.to == Flapping then FlappingReason else if res.ok then Recovered else res.reason)
                && after.row.reason == (if res.ok then NoReason else res.reason)
    ensures var after := Step(cur, th, res, now);
            after.events == [] ==> after.row.reason == cur.reason
  {
  }

  /** What FLAPPING is underneath, read off a row that runs one counter: DOWN after
      DownAfter failures, or while a streak of successes is still too short for UP. */
  lemma FlappingIsUnderneath(cur: Target, th: Thresholds, res: Outcome, now: int)
    requires HoldServed(cur, now) && !(cur.oks > 0 && cur.fails > 0)
    ensures var exit := Step(cur, th, res, now).events[0];
            && exit.from == Flapping && !exit.silent && exit.sinceMs == cur.since
            && (exit.to == Down <==> cur.fails >= th.downAfter || 0 < cur.oks < th.upAfter)
            && (exit.to == Up <==> exit.to != Down)
  {
  }

  /** A step files an event into UP that does not say recovered exactly when the row
      is FLAPPING with its hold not served, the result is a failure, the row had a
      success streak still too short for UP, and one failure is too few for DOWN.
      (A mon-client may of course blame a failure on "recovered".) */
  lemma FailingFlipIntoUp(cur: Target, th: Thresholds, res: Outcome, now: int)
    requires !(cur.oks > 0 && cur.fails > 0)
    ensures (exists ev <- Step(cur, th, res, now).events :: ev.to == Up && ev.reason != Recovered)
            <==> && cur.state == Flapping && !HoldServed(cur, now)
                 && !res.ok && res.reason != Recovered
                 && 0 < cur.oks < th.upAfter && th.downAfter > 1
  {
    var evs := Step(cur, th, res, now).events;
    if cur.state == Flapping && !HoldServed(cur, now) && !res.ok && res.reason != Recovered && 0 < cur.oks < th.upAfter && th.downAfter > 1 {
      assert evs[0].to == Up && evs[0].reason != Recovered;
    }
  }

  /** FLAPPING is left to DOWN without DownAfter failures in a row behind it exactly
      when the row had a success streak still too short for UP. */
  lemma FlappingExitIntoDown(cur: Target, th: Thresholds, now: int)
    requires HoldServed(cur, now) && !(cur.oks > 0 && cur.fails > 0)
    ensures (exists ev <- Release(cur, th, now).events :: ev.to == Down && cur.fails < th.downAfter)
            <==> 0 < cur.oks < th.upAfter
  {
    var ev := Release(cur, th, now).events[0];
    assert ev in Release(cur, th, now).events;
  }

  /** Every announced transition into UP says recovered. */
  lemma AnnouncedUpSaysRecovered(cur: Target, th: Thresholds, res: Outcome, now: int)
    ensures forall ev <- Step(cur, th, res, now).events :: ev.to == Up && !ev.silent ==> ev.reason == Recovered
  {
  }
}
