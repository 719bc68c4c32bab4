/** The life of one target row: every change the engine ever makes to a row is
    one act, so what holds of every life holds of every row. */
module History {
  import opened Wrappers
  import opened Store
  import opened Machine

  /** A live result the machine applied, or a move made by config or liveness. */
  datatype Act =
    | Result(th: Thresholds, res: Outcome, at: int)
    | Move(to: TargetState, reason: Reason, at: int)

  /** A transition with the time it was filed at. */
  datatype Filed = Filed(at: int, tr: Transition)

  datatype Life = Life(row: Target, log: seq<Filed>)

  /** moveRows' new row: counters and hold start over, the flip window is kept. */
  function Moved(t: Target, to: TargetState, reason: Reason, now: int): Target {
    t.(state := to, since := now, reason := reason, oks := 0, fails := 0, flappingUntil := None)
  }

  function Acted(row: Target, act: Act): Stepped {
    match act
    case Result(th, res, at) => Step(row, th, res, at)
    case Move(to, reason, at) => Stepped(Moved(row, to, reason, at), [Transition(row.state, to, reason, false, row.since)])
  }

  function Stamped(evs: seq<Transition>, at: int): seq<Filed> {
    seq(|evs|, i requires 0 <= i < |evs| => Filed(at, evs[i]))
  }

  function Live(birth: Target, acts: seq<Act>): Life {
    if acts == [] then Life(birth, [])
    else
      var before := Live(birth, acts[..|acts| - 1]);
      var act := acts[|acts| - 1];
      var step := Acted(before.row, act);
      Life(step.row, before.log + Stamped(step.events, act.at))
  }

  /** The acts the engine performs: results never reach a PAUSED row, moves go to
      PAUSED or UNKNOWN, and only a config move ends PAUSED. */
  predicate Legal(row: Target, act: Act) {
    match act
    case Result(_, _, _) => row.state != Paused
    case Move(to, reason, _) =>
      && to in {Paused, Unknown} && to != row.state
      && (to == Paused ==> IsPauseReason(reason))
      && (to == Unknown ==> (row.state == Paused <==> reason == ConfigEnabled))
  }

  ghost predicate Lived(birth: Target, acts: seq<Act>) {
    acts == [] ||
    (Lived(birth, acts[..|acts| - 1]) && Legal(Live(birth, acts[..|acts| - 1]).row, acts[|acts| - 1]))
  }

  ghost predicate Newborn(t: Target) {
    t.state == Unknown && t.fails == 0 && t.oks == 0 && t.flips == [] && t.flappingUntil == None
  }

  lemma LiveExtends(birth: Target, acts: seq<Act>, act: Act)
    ensures Live(birth, acts + [act]) ==
            var before := Live(birth, acts);
            var step := Acted(before.row, act);
            Life(step.row, before.log + Stamped(step.events, act.at))
    ensures Lived(birth, acts + [act]) <==> Lived(birth, acts) && Legal(Live(birth, acts).row, act)
  {
    assert (acts + [act])[..|acts|] == acts;
  }

  // ---- the log tells the state ----

  /** Replays the announced transitions from UNKNOWN.  A silent one must be a real
      flip under FLAPPING; any entry that does not continue the chain gives None. */
  function Announced(log: seq<Filed>): Option<TargetState> {
    if log == [] then Some(Unknown)
    else
      var before := Announced(log[..|log| - 1]);
      var tr := log[|log| - 1].tr;
      if before == None || tr.from == tr.to then None
      else if tr.silent then
        if before.value == Flapping && IsUpDown(tr.from) && IsUpDown(tr.to) then before else None
      else if tr.from == before.value then Some(tr.to)
      else None
  }

  lemma AnnouncedAppend(log: seq<Filed>, f: Filed)
    ensures Announced(log + [f]) ==
            var before := Announced(log);
            if before == None || f.tr.from == f.tr.to then None
            else if f.tr.silent then
              if before.value == Flapping && IsUpDown(f.tr.from) && IsUpDown(f.tr.to) then before else None
            else if f.tr.from == before.value then Some(f.tr.to)
            else None
  {
    assert (log + [f])[..|log|] == log;
  }

  /** The shape of every row: FLAPPING is exactly "has a hold", only one counter
      runs, and PAUSED always says why. */
  ghost predicate Shaped(t: Target) {
    && (t.state == Flapping <==> t.flappingUntil.Some?)
    && (t.fails == 0 || t.oks == 0)
    && (t.state == Flapping ==> t.fails > 0 || t.oks > 0)
    && (t.state == Paused ==> IsPauseReason(t.reason) && t.fails == 0 && t.oks == 0)
  }

  lemma ActKeepsShape(row: Target, act: Act)
    requires Shaped(row) && Legal(row, act)
    ensures Shaped(Acted(row, act).row)
  {
  }

  lemma {:induction false} LifeIsShaped(birth: Target, acts: seq<Act>)
    requires Newborn(birth) && Lived(birth, acts)
    ensures Shaped(Live(birth, acts).row)
  {
    if acts != [] {
      LifeIsShaped(birth, acts[..|acts| - 1]);
      ActKeepsShape(Live(birth, acts[..|acts| - 1]).row, acts[|acts| - 1]);
    }
  }

  lemma StampedTwo(log: seq<Filed>, evs: seq<Transition>, at: int)
    requires |evs| <= 2
    ensures |evs| == 0 ==> log + Stamped(evs, at) == log
    ensures |evs| == 1 ==> log + Stamped(evs, at) == log + [Filed(at, evs[0])]
    ensures |evs| == 2 ==> log + Stamped(evs, at) == (log + [Filed(at, evs[0])]) + [Filed(at, evs[1])]
  {
  }

  /** The transitions of one act link the row's state before to its state after. */
  ghost predicate Links(state: TargetState, evs: seq<Transition>, next: TargetState) {
    match |evs|
    case 0 => next == state
    case 1 =>
      && evs[0].from != evs[0].to
      && (if evs[0].silent then state == next == Flapping && IsUpDown(evs[0].from) && IsUpDown(evs[0].to)
          else evs[0].from == state && evs[0].to == next)
    case 2 =>
      && !evs[0].silent && evs[0].from == state && state == Flapping && IsUpDown(evs[0].to)
      && !evs[1].silent && evs[1].from == evs[0].to && evs[1].to == next && evs[1].from != next
    case _ => false
  }

  lemma ActLinks(row: Target, act: Act)
    requires Shaped(row) && Legal(row, act)
    ensures Links(row.state, Acted(row, act).events, Acted(row, act).row.state)
  {
  }

  lemma LinksContinueLog(log: seq<Filed>, state: TargetState, evs: seq<Transition>, next: TargetState, at: int)
    requires Links(state, evs, next) && Announced(log) == Some(state)
    ensures Announced(log + Stamped(evs, at)) == Some(next)
  {
    StampedTwo(log, evs, at);
    if |evs| >= 1 {
      AnnouncedAppend(log, Filed(at, evs[0]));
    }
    if |evs| == 2 {
      AnnouncedAppend(log + [Filed(at, evs[0])], Filed(at, evs[1]));
    }
  }

  /** Log and row agree: the announced transitions chain from UNKNOWN to the
      row's own state, and no entry goes from a state to itself. */
  lemma {:induction false} LogTellsState(birth: Target, acts: seq<Act>)
    requires Newborn(birth) && Lived(birth, acts)
    ensures Announced(Live(birth, acts).log) == Some(Live(birth, acts).row.state)
  {
    if acts != [] {
      var prior := acts[..|acts| - 1];
      LogTellsState(birth, prior);
      LifeIsShaped(birth, prior);
      var before, act := Live(birth, prior), acts[|acts| - 1];
      ActLinks(before.row, act);
      LinksContinueLog(before.log, before.row.state, Acted(before.row, act).events, Live(birth, acts).row.state, act.at);
    }
  }

  // ---- the log tells since when, and why ----

  /** Since when a row has been in its state and for what reason, replayed from its
      log; `dated` is whether each entry says truly how long the state before it
      had lasted. */
  datatype Account = Account(since: int, reason: Reason, dated: bool)

  function AccountBy(a: Account, tr: Transition, at: int): Account {
    if tr.silent then a.(dated := a.dated && tr.sinceMs == a.since)
    else Account(at, tr.reason, a.dated && tr.sinceMs == a.since)
  }

  function AccountOf(log: seq<Filed>, born: int): Account {
    if log == [] then Account(born, NoReason, true)
    else AccountBy(AccountOf(log[..|log| - 1], born), log[|log| - 1].tr, log[|log| - 1].at)
  }

  function AccountAll(a: Account, evs: seq<Transition>, at: int): Account {
    match |evs|
    case 0 => a
    case 1 => AccountBy(a, evs[0], at)
    case _ => AccountBy(AccountBy(a, evs[0], at), evs[1], at)
  }

  /** The row says what the account says: its since, and its reason, which UP leaves
      blank and FLAPPING takes from its last flip. */
  predicate Says(row: Target, a: Account) {
    && a.dated && row.since == a.since
    && (row.state == Up ==> row.reason == NoReason)
    && (row.state in {Down, Unknown, Paused} ==> row.reason == a.reason)
  }

  lemma AccountAppend(log: seq<Filed>, f: Filed, born: int)
    ensures AccountOf(log + [f], born) == AccountBy(AccountOf(log, born), f.tr, f.at)
  {
    assert (log + [f])[..|log|] == log;
  }

  lemma AccountStamped(log: seq<Filed>, evs: seq<Transition>, at: int, born: int)
    requires |evs| <= 2
    ensures AccountOf(log + Stamped(evs, at), born) == AccountAll(AccountOf(log, born), evs, at)
  {
    StampedTwo(log, evs, at);
    if |evs| >= 1 {
      AccountAppend(log, Filed(at, evs[0]), born);
    }
    if |evs| == 2 {
      AccountAppend(log + [Filed(at, evs[0])], Filed(at, evs[1]), born);
    }
  }

  lemma ActSays(row: Target, act: Act, a: Account)
    requires Shaped(row) && Legal(row, act) && Says(row, a)
    ensures |Acted(row, act).events| <= 2
    ensures Says(Acted(row, act).row, AccountAll(a, Acted(row, act).events, act.at))
  {
  }

  /** Every entry carries the true start of the state it ends, and the row's since
      and reason are those its log gives it. */
  lemma {:induction false} LogTellsSinceAndWhy(birth: Target, acts: seq<Act>)
    requires Newborn(birth) && birth.reason == NoReason && Lived(birth, acts)
    ensures Says(Live(birth, acts).row, AccountOf(Live(birth, acts).log, birth.since))
  {
    if acts != [] {
      var prior := acts[..|acts| - 1];
      LogTellsSinceAndWhy(birth, prior);
      LifeIsShaped(birth, prior);
      var before, act := Live(birth, prior), acts[|acts| - 1];
      ActSays(before.row, act, AccountOf(before.log, birth.since));
      AccountStamped(before.log, Acted(before.row, act).events, act.at, birth.since);
    }
  }

  function LastResultAt(acts: seq<Act>): Option<int> {
    if acts == [] then None
    else if acts[|acts| - 1].Result? then Some(acts[|acts| - 1].at)
    else LastResultAt(acts[..|acts| - 1])
  }

  /** lastResultAt is the time of the last applied result, moves notwithstanding. */
  lemma {:induction false} LastResultIsDated(birth: Target, acts: seq<Act>)
    requires Newborn(birth) && birth.lastResultAt == None && Lived(birth, acts)
    ensures Live(birth, acts).row.lastResultAt == LastResultAt(acts)
  {
    if acts != [] {
      var prior, act := acts[..|acts| - 1], acts[|acts| - 1];
      LastResultIsDated(birth, prior);
      ActDatesResult(Live(birth, prior).row, act);
    }
  }

  lemma ActDatesResult(row: Target, act: Act)
    requires Legal(row, act)
    ensures Acted(row, act).row.lastResultAt == if act.Result? then Some(act.at) else row.lastResultAt
  {
  }

  // ---- the counters are trailing runs ----

  function Streak(acts: seq<Act>, ok: bool): nat {
    if acts == [] then 0
    else
      var last := acts[|acts| - 1];
      if last.Result? && last.res.ok == ok then Streak(acts[..|acts| - 1], ok) + 1 else 0
  }

  /** What a streak means: that many acts in a row, at the very end, are results
      with that answer, and no longer run is. */
  lemma {:induction false} StreakMeans(acts: seq<Act>, ok: bool)
    ensures Streak(acts, ok) <= |acts|
    ensures forall i :: |acts| - Streak(acts, ok) <= i < |acts| ==> acts[i].Result? && acts[i].res.ok == ok
    ensures Streak(acts, ok) < |acts| ==>
              var stop := acts[|acts| - Streak(acts, ok) - 1];
              stop.Move? || stop.res.ok != ok
  {
    if acts != [] {
      StreakMeans(acts[..|acts| - 1], ok);
    }
  }

  lemma ActCounts(row: Target, act: Act)
    requires Shaped(row) && Legal(row, act)
    ensures var next := Acted(row, act).row;
            if act.Move? then next.oks == 0 && next.fails == 0
            else next.oks == (if act.res.ok then row.oks + 1 else 0) && next.fails == (if act.res.ok then 0 else row.fails + 1)
  {
  }

  lemma {:induction false} CountersAreStreaks(birth: Target, acts: seq<Act>)
    requires Newborn(birth) && Lived(birth, acts)
    ensures Live(birth, acts).row.oks == Streak(acts, true)
    ensures Live(birth, acts).row.fails == Streak(acts, false)
  {
    if acts != [] {
      var prior := acts[..|acts| - 1];
      CountersAreStreaks(birth, prior);
      LifeIsShaped(birth, prior);
      ActCounts(Live(birth, prior).row, acts[|acts| - 1]);
    }
  }

  /** A target announced DOWN, other than out of FLAPPING, has just failed
      DownAfter times in a row. */
  lemma DownFollowsFailures(birth: Target, acts: seq<Act>, act: Act)
    requires Newborn(birth) && Lived(birth, acts + [act]) && act.Result?
    ensures forall ev <- Acted(Live(birth, acts).row, act).events ::
              ev.to == Down && !ev.silent && ev.from != Flapping ==>
                Streak(acts + [act], false) >= act.th.downAfter
  {
    LiveExtends(birth, acts, act);
    CountersAreStreaks(birth, acts + [act]);
    DownTakesFailures(Live(birth, acts).row, act);
  }

  /** A target announced UP from DOWN has just succeeded UpAfter times in a row; from
      UNKNOWN one success is enough. */
  lemma UpFollowsSuccesses(birth: Target, acts: seq<Act>, act: Act)
    requires Newborn(birth) && Lived(birth, acts + [act]) && act.Result?
    ensures forall ev <- Acted(Live(birth, acts).row, act).events ::
              ev.to == Up && !ev.silent && ev.from != Flapping ==>
                Streak(acts + [act], true) >= if ev.from == Down then act.th.upAfter else 1
  {
    LiveExtends(birth, acts, act);
    CountersAreStreaks(birth, acts + [act]);
    UpTakesSuccesses(Live(birth, acts).row, act);
  }

  lemma UpTakesSuccesses(row: Target, act: Act)
    requires act.Result?
    ensures forall ev <- Acted(row, act).events ::
              ev.to == Up && !ev.silent && ev.from != Flapping ==>
                Acted(row, act).row.oks >= if ev.from == Down then act.th.upAfter else 1
  {
  }

  lemma DownTakesFailures(row: Target, act: Act)
    requires act.Result?
    ensures forall ev <- Acted(row, act).events ::
              ev.to == Down && !ev.silent && ev.from != Flapping ==> Acted(row, act).row.fails >= act.th.downAfter
  {
  }

  // ---- the flip window ----

  /** Every act used the same window and hold. */
  ghost predicate Uniform(acts: seq<Act>, th: Thresholds) {
    forall a <- acts :: a.Result? ==> a.th == th
  }

  ghost predicate Ordered(acts: seq<Act>) {
    forall i, j :: 0 <= i < j < |acts| ==> acts[i].at <= acts[j].at
  }

  predicate IsFlip(tr: Transition) {
    IsUpDown(tr.from) && (IsUpDown(tr.to) || tr.to == Flapping)
  }

  predicate LeavesFlapping(tr: Transition) {
    tr.from == Flapping && IsUpDown(tr.to)
  }

  /** Times of every flip filed since a hold was last served, unpruned. */
  function FlipTimes(log: seq<Filed>): seq<int> {
    if log == [] then []
    else
      var f := log[|log| - 1];
      if LeavesFlapping(f.tr) then []
      else if IsFlip(f.tr) then FlipTimes(log[..|log| - 1]) + [f.at]
      else FlipTimes(log[..|log| - 1])
  }

  lemma FlipTimesAppend(log: seq<Filed>, f: Filed)
    ensures FlipTimes(log + [f]) == TimesOf(FlipTimes(log), f.tr, f.at)
  {
    assert (log + [f])[..|log|] == log;
  }

  /** The flips no older than a window before the latest one. */
  function Within(times: seq<int>, window: int): seq<int> {
    if times == [] then [] else After(times, times[|times| - 1] - window)
  }

  lemma AfterAppend(times: seq<int>, t: int, cutoff: int)
    ensures After(times + [t], cutoff) == After(times, cutoff) + (if t > cutoff then [t] else [])
  {
    assert (times + [t])[..|times|] == times;
  }

  lemma {:induction false} AfterAfter(times: seq<int>, early: int, late: int)
    requires early <= late
    ensures After(After(times, early), late) == After(times, late)
  {
    if times != [] {
      var init, last := times[..|times| - 1], times[|times| - 1];
      AfterAfter(init, early, late);
      if last > early {
        AfterAppend(After(init, early), last, late);
      } else {
        assert After(times, early) == After(init, early);
        assert After(times, late) == After(init, late);
      }
    }
  }

  /** Pruning at each flip keeps exactly what pruning the whole history would. */
  lemma RecordedIsWithin(times: seq<int>, now: int, window: int)
    requires window > 0 && (times != [] ==> times[|times| - 1] <= now)
    ensures Recorded(Within(times, window), now, window) == Within(times + [now], window)
  {
    var cutoff := now - window;
    AfterAppend(times, now, cutoff);
    assert Within(times + [now], window) == After(times, cutoff) + [now];
    if times != [] {
      AfterAfter(times, times[|times| - 1] - window, cutoff);
      assert After(Within(times, window), cutoff) == After(times, cutoff);
    }
  }

  /** What the flip machinery of a row says about its log. */
  ghost predicate Windowed(life: Life, th: Thresholds, now: int) {
    WindowedBy(life.row, FlipTimes(life.log), th, now)
  }

  ghost predicate WindowedBy(row: Target, times: seq<int>, th: Thresholds, now: int) {
    && row.flips == Within(times, th.flapMs)
    && (times != [] ==> times[|times| - 1] <= now)
    && (row.state == Flapping ==> times != [] && row.flappingUntil == Some(times[|times| - 1] + th.holdMs))
  }

  /** How the transitions of one act move a row's flip window and hold. */
  ghost predicate Flips(row: Target, evs: seq<Transition>, next: Target, th: Thresholds, now: int) {
    && (match |evs|
        case 0 => next.flips == row.flips && (next.state == Flapping ==> row.state == Flapping && next.flappingUntil == row.flappingUntil)
        case 1 =>
          next.flips == if LeavesFlapping(evs[0]) then [] else if IsFlip(evs[0]) then Recorded(row.flips, now, th.flapMs) else row.flips
        case 2 =>
          && LeavesFlapping(evs[0]) && !LeavesFlapping(evs[1])
          && next.flips == if IsFlip(evs[1]) then Recorded([], now, th.flapMs) else []
        case _ => false)
    && (evs != [] && next.state == Flapping ==> IsFlip(evs[|evs| - 1]) && next.flappingUntil == Some(now + th.holdMs))
  }

  lemma ActFlips(row: Target, act: Act, th: Thresholds)
    requires Shaped(row) && Legal(row, act) && (act.Result? ==> act.th == th)
    ensures Flips(row, Acted(row, act).events, Acted(row, act).row, th, act.at)
  {
    if act.Result? {
      StepFlips(row, act.th, act.res, act.at);
    }
  }

  lemma StepFlips(row: Target, th: Thresholds, res: Outcome, now: int)
    requires Shaped(row) && row.state != Paused
    ensures Flips(row, Step(row, th, res, now).events, Step(row, th, res, now).row, th, now)
  {
  }

  function TimesOf(times: seq<int>, tr: Transition, at: int): seq<int> {
    if LeavesFlapping(tr) then [] else if IsFlip(tr) then times + [at] else times
  }

  function TimesOfAll(times: seq<int>, evs: seq<Transition>, at: int): seq<int> {
    match |evs|
    case 0 => times
    case 1 => TimesOf(times, evs[0], at)
    case _ => TimesOf(TimesOf(times, evs[0], at), evs[1], at)
  }

  lemma FlipTimesStamped(log: seq<Filed>, evs: seq<Transition>, at: int)
    requires |evs| <= 2
    ensures FlipTimes(log + Stamped(evs, at)) == TimesOfAll(FlipTimes(log), evs, at)
  {
    StampedTwo(log, evs, at);
    if |evs| >= 1 {
      FlipTimesAppend(log, Filed(at, evs[0]));
    }
    if |evs| == 2 {
      FlipTimesAppend(log + [Filed(at, evs[0])], Filed(at, evs[1]));
    }
  }

  lemma FlipsKeepWindow(row: Target, times: seq<int>, evs: seq<Transition>, next: Target, th: Thresholds, now: int)
    requires Flips(row, evs, next, th, now) && WindowedBy(row, times, th, now)
    ensures WindowedBy(next, TimesOfAll(times, evs, now), th, now)
  {
    if |evs| == 1 {
      OneKeepsWindow(row.flips, times, evs[0], th, now);
    } else if |evs| == 2 {
      OneKeepsWindow([], [], evs[1], th, now);
    }
  }

  /** One transition moves the window column as it moves the history. */
  lemma OneKeepsWindow(flips: seq<int>, times: seq<int>, ev: Transition, th: Thresholds, now: int)
    requires flips == Within(times, th.flapMs) && (times != [] ==> times[|times| - 1] <= now)
    ensures var later := TimesOf(times, ev, now);
            && (if LeavesFlapping(ev) then [] else if IsFlip(ev) then Recorded(flips, now, th.flapMs) else flips) == Within(later, th.flapMs)
            && (later != [] ==> later[|later| - 1] <= now)
            && (IsFlip(ev) && !LeavesFlapping(ev) ==> later != [] && later[|later| - 1] == now)
  {
    RecordedIsWithin(times, now, th.flapMs);
  }

  /** The pruned window column is the full flip history seen through the window,
      and while FLAPPING the hold ends one hold after the last flip. */
  lemma {:induction false} WindowIsHistory(birth: Target, acts: seq<Act>, th: Thresholds, now: int)
    requires Newborn(birth) && Lived(birth, acts) && Uniform(acts, th) && Ordered(acts)
    requires acts != [] ==> acts[|acts| - 1].at <= now
    ensures Windowed(Live(birth, acts), th, now)
  {
    if acts != [] {
      var prior, act := acts[..|acts| - 1], acts[|acts| - 1];
      var before := Live(birth, prior);
      WindowIsHistory(birth, prior, th, act.at);
      LifeIsShaped(birth, prior);
      ActFlips(before.row, act, th);
      var evs := Acted(before.row, act).events;
      FlipTimesStamped(before.log, evs, act.at);
      FlipsKeepWindow(before.row, FlipTimes(before.log), evs, Live(birth, acts).row, th, act.at);
    }
  }

  lemma FlipEntersByCount(before: Life, act: Act, th: Thresholds)
    requires Shaped(before.row) && Legal(before.row, act) && (act.Result? ==> act.th == th)
    requires Windowed(before, th, act.at)
    ensures var step := Acted(before.row, act);
            forall ev <- step.events :: IsFlip(ev) && !ev.silent ==>
              (ev.to == Flapping <==> |step.row.flips| >= th.flapN)
  {
  }

  /** A flip outside FLAPPING turns into FLAPPING exactly when it is the FlapN-th
      one inside the window. */
  lemma FlappingIsFlapN(birth: Target, acts: seq<Act>, act: Act, th: Thresholds)
    requires Newborn(birth) && Lived(birth, acts + [act]) && Uniform(acts + [act], th) && Ordered(acts + [act])
    ensures forall ev <- Acted(Live(birth, acts).row, act).events ::
              IsFlip(ev) && !ev.silent ==>
                (ev.to == Flapping <==> |Within(FlipTimes(Live(birth, acts + [act]).log), th.flapMs)| >= th.flapN)
  {
    ActInOrder(acts, act, th);
    LiveExtends(birth, acts, act);
    WindowIsHistory(birth, acts, th, act.at);
    WindowIsHistory(birth, acts + [act], th, act.at);
    LifeIsShaped(birth, acts);
    FlipEntersByCount(Live(birth, acts), act, th);
  }

  lemma ActInOrder(acts: seq<Act>, act: Act, th: Thresholds)
    requires Uniform(acts + [act], th) && Ordered(acts + [act])
    ensures Uniform(acts, th) && Ordered(acts)
    ensures acts != [] ==> acts[|acts| - 1].at <= act.at
    ensures act.Result? ==> act.th == th
  {
    var all := acts + [act];
    assert all[|acts|] == act;
    assert forall i :: 0 <= i < |acts| ==> acts[i] == all[i];
  }

  /** FLAPPING is left by a result exactly when a whole hold has passed without a
      flip, whatever that result says. */
  lemma FlappingNeedsWholeHold(birth: Target, acts: seq<Act>, act: Act, th: Thresholds)
    requires Newborn(birth) && Lived(birth, acts + [act]) && Uniform(acts + [act], th) && Ordered(acts + [act])
    requires act.Result? && Live(birth, acts).row.state == Flapping
    ensures FlipTimes(Live(birth, acts).log) != []
    ensures var times := FlipTimes(Live(birth, acts).log);
            (exists ev <- Acted(Live(birth, acts).row, act).events :: LeavesFlapping(ev))
            <==> act.at >= times[|times| - 1] + th.holdMs
  {
    ActInOrder(acts, act, th);
    LiveExtends(birth, acts, act);
    WindowIsHistory(birth, acts, th, act.at);
    LifeIsShaped(birth, acts);
    LeavesWhenServed(Live(birth, acts).row, act);
  }

  lemma LeavesWhenServed(row: Target, act: Act)
    requires Shaped(row) && row.state == Flapping && act.Result?
    ensures (exists ev <- Acted(row, act).events :: LeavesFlapping(ev)) <==> HoldServed(row, act.at)
  {
    if HoldServed(row, act.at) {
      assert LeavesFlapping(Acted(row, act).events[0]);
    }
  }

  // ---- what a move leaves in the window ----

  /** Outside FLAPPING fewer than FlapN flips are on record. */
  predicate Quiet(t: Target, th: Thresholds) {
    t.state != Flapping ==> |t.flips| < th.flapN
  }

  /** A result that is about to flip the row between UP and DOWN. */
  predicate FlipsNow(row: Target, act: Act) {
    act.Result? && IsUpDown(row.state) && Wanted(Counted(row, act.res.ok, act.at), act.th, act.res.ok) != row.state
  }

  /** Whatever the thresholds were before, the row an act leaves is quiet under those
      of now exactly unless its window was already full under them and the act is
      either a move out of FLAPPING, which does not clear the window, or outside
      FLAPPING and no flip, which does not look at it. */
  lemma QuietAfter(row: Target, act: Act, th: Thresholds)
    requires Shaped(row) && Legal(row, act) && (act.Result? ==> act.th == th)
    ensures Quiet(Acted(row, act).row, th) <==>
            !(|row.flips| >= th.flapN && if row.state == Flapping then act.Move? else !FlipsNow(row, act))
  {
  }

  /** So under thresholds that stay what they were, results keep a row quiet, and a
      move breaks it exactly when it takes a row out of FLAPPING with a full window. */
  lemma QuietUnlessMovedFull(row: Target, act: Act, th: Thresholds)
    requires Shaped(row) && Legal(row, act) && Quiet(row, th) && (act.Result? ==> act.th == th)
    ensures Quiet(Acted(row, act).row, th) <==> !(act.Move? && row.state == Flapping && |row.flips| >= th.flapN)
  {
    QuietAfter(row, act, th);
  }

  /** A lowered FlapN fills the window with no move at all. */
  lemma LoweredFlapNFillsTheWindow(birth: Target)
    requires Newborn(birth)
    ensures var before: Thresholds := Knobs(1, 1, 3, MINUTE, MINUTE);
            var after: Thresholds := Knobs(1, 1, 2, MINUTE, MINUTE);
            var acts := [Act.Result(before, Outcome(true, NoReason), 0), Act.Result(before, Outcome(false, HttpError), 1),
                         Act.Result(before, Outcome(true, NoReason), 2)];
            var again := Act.Result(after, Outcome(true, NoReason), 3);
            && Lived(birth, acts) && Quiet(Live(birth, acts).row, before)
            && Legal(Live(birth, acts).row, again) && !Quiet(Acted(Live(birth, acts).row, again).row, after)
  {
    var th: Thresholds := Knobs(1, 1, 3, MINUTE, MINUTE);
    var up := Act.Result(th, Outcome(true, NoReason), 0);
    var down := Act.Result(th, Outcome(false, HttpError), 1);
    var back := Act.Result(th, Outcome(true, NoReason), 2);
    LiveThrice(birth, up, down, back);
    var first := Acted(birth, up).row;
    assert first.state == Up && first.fails == 0 && first.flips == [];
    var second := Acted(first, down).row;
    assert second.state == Down && second.oks == 0 && second.flips == [1];
    FlipsBack(second, th);
  }

  lemma FlipsBack(row: Target, th: Thresholds)
    requires row.state == Down && row.oks == 0 && row.flips == [1] && th == Knobs(1, 1, 3, MINUTE, MINUTE)
    ensures var next := Acted(row, Act.Result(th, Outcome(true, NoReason), 2)).row; next.state == Up && next.flips == [1, 2]
  {
    assert [1][..0] == [];
  }

  lemma LiveThrice(birth: Target, one: Act, two: Act, three: Act)
    ensures Live(birth, [one]).row == Acted(birth, one).row
    ensures Live(birth, [one, two]).row == Acted(Acted(birth, one).row, two).row
    ensures Live(birth, [one, two, three]).row == Acted(Acted(Acted(birth, one).row, two).row, three).row
    ensures Lived(birth, [one, two, three]) <==>
            Legal(birth, one) && Legal(Acted(birth, one).row, two) && Legal(Acted(Acted(birth, one).row, two).row, three)
  {
    LiveExtends(birth, [], one);
    assert [] + [one] == [one];
    LiveExtends(birth, [one], two);
    assert [one] + [two] == [one, two];
    LiveExtends(birth, [one, two], three);
    assert [one, two] + [three] == [one, two, three];
  }

  lemma {:induction false} ResultsAloneStayQuiet(birth: Target, acts: seq<Act>, th: Thresholds)
    requires Newborn(birth) && Lived(birth, acts) && Uniform(acts, th) && forall a <- acts :: a.Result?
    ensures Quiet(Live(birth, acts).row, th)
  {
    if acts != [] {
      var prior, act := acts[..|acts| - 1], acts[|acts| - 1];
      assert act in acts && forall a <- prior :: a in acts;
      ResultsAloneStayQuiet(birth, prior, th);
      LifeIsShaped(birth, prior);
      QuietUnlessMovedFull(Live(birth, prior).row, act, th);
    }
  }

  /** UP with a full window: a row that flapped, lost its mon-client and came back. */
  lemma FullWindowOutlivesAMove(birth: Target)
    requires Newborn(birth)
    ensures var th: Thresholds := Knobs(1, 1, 1, MINUTE, MINUTE);
            var acts := [Act.Result(th, Outcome(true, NoReason), 0), Act.Result(th, Outcome(false, HttpError), 1),
                         Move(Unknown, MonClientOffline, 2), Act.Result(th, Outcome(true, NoReason), 3)];
            && Lived(birth, acts)
            && Live(birth, acts).row.state == Up && |Live(birth, acts).row.flips| >= th.flapN
  {
    var th: Thresholds := Knobs(1, 1, 1, MINUTE, MINUTE);
    var up := Act.Result(th, Outcome(true, NoReason), 0);
    var down := Act.Result(th, Outcome(false, HttpError), 1);
    var gone := Move(Unknown, MonClientOffline, 2);
    var back := Act.Result(th, Outcome(true, NoReason), 3);
    LiveThrice(birth, up, down, gone);
    var first := Acted(birth, up).row;
    assert first.state == Up && first.fails == 0 && first.flips == [];
    FlapsAtOnce(first, th);
    var third := Acted(Acted(first, down).row, gone).row;
    assert third.state == Unknown && third.flips == [1];
    LiveExtends(birth, [up, down, gone], back);
    assert [up, down, gone] + [back] == [up, down, gone, back];
    ComesBackUp(third, th);
  }

  lemma ComesBackUp(row: Target, th: Thresholds)
    requires row.state == Unknown && row.flips == [1]
    ensures var next := Acted(row, Act.Result(th, Outcome(true, NoReason), 3)).row; next.state == Up && next.flips == [1]
  {
  }

  lemma FlapsAtOnce(row: Target, th: Thresholds)
    requires row.state == Up && row.fails == 0 && row.flips == [] && th.downAfter == 1 && th.flapN == 1
    ensures var next := Acted(row, Act.Result(th, Outcome(false, HttpError), 1)).row;
            next.state == Flapping && next.flips == [1]
  {
  }

  // ---- lives that break the two laws of FLAPPING ----

  /** ok, fail, fail, ok under DownAfter 2, UpAfter 2 and FlapN 1. */
  const FLAPPED: Thresholds := Knobs(2, 2, 1, MINUTE, MINUTE)

  function FlappedActs(): seq<Act> {
    [Act.Result(FLAPPED, Outcome(true, NoReason), 0), Act.Result(FLAPPED, Outcome(false, HttpError), 1),
     Act.Result(FLAPPED, Outcome(false, HttpError), 2), Act.Result(FLAPPED, Outcome(true, NoReason), 3)]
  }

  /** They leave a row FLAPPING after one success, with its hold running. */
  lemma FlappedOnOneSuccess(birth: Target)
    requires Newborn(birth)
    ensures var row := Live(birth, FlappedActs()).row;
            && Lived(birth, FlappedActs())
            && row.state == Flapping && row.oks == 1 && row.fails == 0 && row.flappingUntil == Some(2 + MINUTE)
  {
    var acts := FlappedActs();
    var up, fail, down, ok := acts[0], acts[1], acts[2], acts[3];
    LiveThrice(birth, up, fail, down);
    var first := Acted(birth, up).row;
    assert first.state == Up && first.fails == 0 && first.flips == [];
    var second := Acted(first, fail).row;
    assert second.state == Up && second.fails == 1 && second.flips == [];
    FlapsOnTheSecond(second);
    LiveExtends(birth, [up, fail, down], ok);
    assert [up, fail, down] + [ok] == acts;
    StaysFlapping(Acted(second, down).row);
  }

  lemma FlapsOnTheSecond(row: Target)
    requires row.state == Up && row.fails == 1 && row.oks == 0 && row.flips == []
    ensures var next := Acted(row, FlappedActs()[2]).row;
            next.state == Flapping && next.fails == 2 && next.oks == 0 && next.flappingUntil == Some(2 + MINUTE)
  {
  }

  lemma StaysFlapping(row: Target)
    requires row.state == Flapping && row.fails == 2 && row.oks == 0 && row.flappingUntil == Some(2 + MINUTE)
    ensures var next := Acted(row, FlappedActs()[3]).row;
            next.state == Flapping && next.fails == 0 && next.oks == 1 && next.flappingUntil == Some(2 + MINUTE)
  {
  }

  /** Then a failure flips it into UP, and says so with the failure's reason. */
  lemma FailureFlipsIntoUp(birth: Target)
    requires Newborn(birth)
    ensures var fail := Act.Result(FLAPPED, Outcome(false, HttpError), 4);
            && Lived(birth, FlappedActs()) && Legal(Live(birth, FlappedActs()).row, fail)
            && exists ev <- Acted(Live(birth, FlappedActs()).row, fail).events :: ev.to == Up && ev.reason == HttpError
  {
    FlappedOnOneSuccess(birth);
    var row := Live(birth, FlappedActs()).row;
    var evs := Step(row, FLAPPED, Outcome(false, HttpError), 4).events;
    assert evs[0].to == Up && evs[0].reason == HttpError;
  }

  /** Or the hold is served, and it is announced DOWN on a streak of successes. */
  lemma HoldEndsDownOnSuccesses(birth: Target)
    requires Newborn(birth)
    ensures var late := Act.Result(FLAPPED, Outcome(true, NoReason), 2 + MINUTE);
            && Lived(birth, FlappedActs()) && Legal(Live(birth, FlappedActs()).row, late)
            && Streak(FlappedActs(), false) == 0
            && exists ev <- Acted(Live(birth, FlappedActs()).row, late).events :: ev.to == Down && !ev.silent && ev.from == Flapping
  {
    FlappedOnOneSuccess(birth);
    var row := Live(birth, FlappedActs()).row;
    var evs := Step(row, FLAPPED, Outcome(true, NoReason), 2 + MINUTE).events;
    assert evs[0].to == Down && !evs[0].silent && evs[0].from == Flapping;
  }

  // ---- the state under FLAPPING ----

  /** The UP or DOWN a row is underneath, replayed from its log; None once an
      entry contradicts it. */
  function Underneath(log: seq<Filed>): Option<TargetState> {
    if log == [] then Some(Unknown)
    else
      var before := Underneath(log[..|log| - 1]);
      var tr := log[|log| - 1].tr;
      if before == None then None
      else if tr.silent then (if tr.from == before.value then Some(tr.to) else None)
      else if LeavesFlapping(tr) then (if tr.to == before.value then before else None)
      else if tr.to == Flapping then Some(if tr.from == Up then Down else Up)
      else Some(tr.to)
  }

  lemma UnderneathAppend(log: seq<Filed>, f: Filed)
    ensures Underneath(log + [f]) ==
            var before := Underneath(log);
            if before == None then None
            else if f.tr.silent then (if f.tr.from == before.value then Some(f.tr.to) else None)
            else if LeavesFlapping(f.tr) then (if f.tr.to == before.value then before else None)
            else if f.tr.to == Flapping then Some(if f.tr.from == Up then Down else Up)
            else Some(f.tr.to)
  {
    assert (log + [f])[..|log|] == log;
  }

  function Under(row: Target, th: Thresholds): TargetState {
    if row.state == Flapping then Derived(row, th) else row.state
  }

  ghost predicate Unders(under: TargetState, evs: seq<Transition>, next: TargetState) {
    match |evs|
    case 0 => next == under
    case 1 =>
      if evs[0].silent then evs[0].from == under && evs[0].to == next
      else if LeavesFlapping(evs[0]) then evs[0].to == under == next
      else if evs[0].to == Flapping then next == (if evs[0].from == Up then Down else Up)
      else evs[0].to == next
    case 2 =>
      && !evs[0].silent && LeavesFlapping(evs[0]) && evs[0].to == under
      && !evs[1].silent && !LeavesFlapping(evs[1])
      && next == if evs[1].to != Flapping then evs[1].to else if evs[1].from == Up then Down else Up
    case _ => false
  }

  lemma ActUnders(row: Target, act: Act, th: Thresholds)
    requires Shaped(row) && Legal(row, act) && (act.Result? ==> act.th == th)
    ensures Unders(Under(row, th), Acted(row, act).events, Under(Acted(row, act).row, th))
  {
  }

  lemma UndersContinueLog(log: seq<Filed>, under: TargetState, evs: seq<Transition>, next: TargetState, at: int)
    requires Unders(under, evs, next) && Underneath(log) == Some(under)
    ensures Underneath(log + Stamped(evs, at)) == Some(next)
  {
    StampedTwo(log, evs, at);
    if |evs| >= 1 {
      UnderneathAppend(log, Filed(at, evs[0]));
    }
    if |evs| == 2 {
      UnderneathAppend(log + [Filed(at, evs[0])], Filed(at, evs[1]));
    }
  }

  /** The silent flips chain, and FLAPPING is left to the state they lead to. */
  lemma {:induction false} SilentFlipsChain(birth: Target, acts: seq<Act>, th: Thresholds)
    requires Newborn(birth) && Lived(birth, acts) && Uniform(acts, th)
    ensures Underneath(Live(birth, acts).log) == Some(Under(Live(birth, acts).row, th))
  {
    if acts != [] {
      var prior := acts[..|acts| - 1];
      SilentFlipsChain(birth, prior, th);
      LifeIsShaped(birth, prior);
      var before, act := Live(birth, prior), acts[|acts| - 1];
      ActUnders(before.row, act, th);
      UndersContinueLog(before.log, Under(before.row, th), Acted(before.row, act).events, Under(Live(birth, acts).row, th), act.at);
    }
  }

  /** Results and liveness moves never end PAUSED: only a config move does. */
  lemma OnlyConfigEndsPause(birth: Target, acts: seq<Act>, act: Act)
    requires Lived(birth, acts + [act])
    requires Live(birth, acts).row.state == Paused && Live(birth, acts + [act]).row.state != Paused
    ensures act == Move(Unknown, ConfigEnabled, act.at)
  {
    LiveExtends(birth, acts, act);
  }
}
