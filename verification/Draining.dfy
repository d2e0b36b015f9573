/** From wherever the service stands, how many polls bring in the rest of the log: exactly that many. */
module Draining {
  import opened Base
  import opened Tables
  import opened Replay
  import opened Events
  import opened Log
  import opened Machine
  import opened Poll
  import opened CatchUp
  import opened PollRuns

  /** Where a page ends that may hold `room` events: just before the event that does not fit. */
  function PageEnd(log: seq<LogEntry>, at: nat, room: nat): (end: nat)
    requires at <= |log|
    ensures at <= end <= |log|
    decreases |log| - at
  {
    if at == |log| || (log[at].isEvent && room == 0) then at
    else PageEnd(log, at + 1, if log[at].isEvent then room - 1 else room)
  }

  lemma CountSplit(log: seq<LogEntry>, a: nat, b: nat, c: nat)
    requires a <= b <= c <= |log|
    ensures EventCount(log[a..c]) == EventCount(log[a..b]) + EventCount(log[b..c])
  {
    assert log[a..c] == log[a..b] + log[b..c];
    EventCountAppend(log[a..b], log[b..c]);
  }

  function Least(a: nat, b: nat): nat { if a < b then a else b }

  /** Such a page holds as many events as fit, and all of the log exactly when they all fit. */
  lemma {:induction false} PageIsFull(log: seq<LogEntry>, at: nat, room: nat)
    requires at <= |log|
    ensures EventCount(log[at..PageEnd(log, at, room)]) == Least(room, EventCount(log[at..]))
    ensures PageEnd(log, at, room) == |log| <==> EventCount(log[at..]) <= room
    decreases |log| - at
  {
    var end := PageEnd(log, at, room);
    if at == |log| {
      assert log[at..end] == [] && log[at..] == [];
    } else {
      assert log[at..][0] == log[at] && log[at..][1..] == log[at + 1..];
      if log[at].isEvent && room == 0 {
        assert log[at..end] == [];
      } else {
        PageIsFull(log, at + 1, if log[at].isEvent then room - 1 else room);
        assert log[at..end][0] == log[at] && log[at..end][1..] == log[at + 1..end];
      }
    }
  }

  /** A poll that is given a full page, or all there is. */
  function FullFetch(log: seq<LogEntry>, latest: u32, at: nat): Step
    requires at <= |log|
  {
    var end := PageEnd(log, at, PAGE_LIMIT);
    Fetch(latest, at, end - at, Some(end), latest)
  }

  /** Idle, and the next request resolves to `at`: its cursor, or the bootstrap point. */
  predicate StandsAt(s: State, latest: u32, at: nat) {
    s.worker.Idle?
    && ResolvesTo(s.log, RequestFor(s.cursor, latest), at)
    && (s.origin.Some? && s.cursor.token.None? ==> NothingBetween(s.log, s.origin.value, at))
    && (s.origin.None? ==> Causal(s.seed, Flatten(s.log[at..])))
  }

  /** Where the indexed part of the log begins once that request was made. */
  function StartOf(s: State, at: nat): nat {
    if s.cursor.token.Some? && s.origin.Some? then s.origin.value else at
  }

  lemma FetchIsFaithful(s: State, step: Step, latest: u32)
    requires step.Fetch? && Enabled(s, step) && Inv(s) && StandsAt(s, latest, step.at)
    ensures SteadyStart(s, step) && CausalLog(Do(s, step)) && Do(s, step).origin == Some(StartOf(s, step.at))
  {
    hide Causal, Flatten, ReadyAt, ValidLog, PartWayThrough, PageFits, ResolvesTo, RequestFor, NothingBetween;
    if s.origin.Some? && s.cursor.token.None? { SameRest(s.log, s.origin.value, step.at); }
    FetchResumes(s, step);
    FetchInside(s, step);
  }

  lemma FetchInside(s: State, step: Step)
    requires step.Fetch? && Enabled(s, step)
    ensures step.at <= |s.log|
  {
  }

  /** One full poll. */
  lemma FullPoll(s: State, latest: u32, at: nat) returns (steps: seq<Step>)
    requires Inv(s) && StandsAt(s, latest, at)
    ensures FaithfulSchedule(s, steps) && Schedule(s, steps) && Commits(steps) == 1
    ensures var u := Run(s, steps);
      && Inv(u) && u.log == s.log && u.seed == s.seed && u.origin == Some(StartOf(s, at))
      && u.cursor.token == Some(PageEnd(s.log, at, PAGE_LIMIT)) && StandsAt(u, latest, u.cursor.token.value)
  {
    hide Causal, Flatten, ReadyAt, ProcessPage, FaithfulSchedule, Schedule, Run, WellPlanned, OnlyEvents, PageEnd,
         StartLedger;
    var fetch := FullFetch(s.log, latest, at);
    PageIsFull(s.log, at, PAGE_LIMIT);
    assert s.log[at..][..0] == [];
    assert Enabled(s, fetch);
    FetchIsFaithful(s, fetch, latest);
    steps := PollIsASchedule(s, fetch, true);
    FaithfulRun(s, steps);
  }

  /** After `k` full polls exactly min(100 k, pending) more events are behind, and all of them exactly when they fit. */
  lemma {:induction false} FullPolls(s: State, latest: u32, at: nat, k: nat) returns (steps: seq<Step>)
    requires Inv(s) && StandsAt(s, latest, at) && k > 0
    ensures FaithfulSchedule(s, steps) && Schedule(s, steps) && Commits(steps) == k
    ensures var u := Run(s, steps);
      && Inv(u) && u.worker.Idle? && u.log == s.log && u.seed == s.seed && u.origin == Some(StartOf(s, at))
      && u.cursor.token.Some? && at <= Position(u) <= |s.log|
      && EventCount(s.log[at..Position(u)])
         == (if 100 * k <= EventCount(s.log[at..]) then 100 * k else EventCount(s.log[at..]))
      && (Position(u) == |s.log| <==> EventCount(s.log[at..]) <= 100 * k)
    decreases k
  {
    hide Causal, Flatten, FaithfulSchedule, Schedule, Run, Inv, EventCount, Commits, ResolvesTo;
    var first := FullPoll(s, latest, at);
    var mid := PageEnd(s.log, at, PAGE_LIMIT);
    PageIsFull(s.log, at, PAGE_LIMIT);
    assert s.log[at..|s.log|] == s.log[at..] && s.log[mid..|s.log|] == s.log[mid..];
    CountSplit(s.log, at, mid, |s.log|);
    if k == 1 {
      steps := first;
    } else {
      var v := Run(s, first);
      var rest := FullPolls(v, latest, mid, k - 1);
      RunAppend(s, first, rest);
      FaithfulAppend(s, first, rest);
      CommitsAppend(first, rest);
      steps := first + rest;
      CountSplit(s.log, at, mid, Position(Run(v, rest)));
    }
  }

  /** `c` stored cursors since position `start` (or since the bootstrap) have brought in at most 100 c events. */
  predicate Paced(s: State, start: Option<nat>, c: nat) {
    ValidLog(s.log)
    && (start.Some? ==> s.cursor.token.Some?)
    && (s.cursor.token.Some? ==>
          && s.origin.Some? && Anchor(s, start) <= s.cursor.token.value <= |s.log|
          && EventCount(s.log[Anchor(s, start)..s.cursor.token.value]) <= PAGE_LIMIT * c)
    && (s.worker.Busy? ==>
          && s.origin.Some? && s.worker.from == Position(s)
          && s.worker.from + |s.worker.events| <= |s.log|
          && s.worker.events == s.log[s.worker.from..s.worker.from + |s.worker.events|]
          && EventCount(s.worker.events) <= PAGE_LIMIT
          && (s.worker.advance.Some? ==> s.worker.advance.value == s.worker.from + |s.worker.events|))
  }

  function Anchor(s: State, start: Option<nat>): nat {
    if start.Some? then start.value else if s.origin.Some? then s.origin.value else 0
  }

  lemma AppendIsPaced(s: State, more: seq<LogEntry>, start: Option<nat>, c: nat)
    requires Paced(s, start, c) && Enabled(s, Append(more))
    ensures Paced(Do(s, Append(more)), start, c)
  {
    hide EventCount, WellPlanned;
    if s.cursor.token.Some? {
      var a, b := Anchor(s, start), s.cursor.token.value;
      assert (s.log + more)[a..b] == s.log[a..b];
    }
  }

  lemma CommitIsPaced(s: State, start: Option<nat>, c: nat)
    requires Paced(s, start, c) && Enabled(s, CommitCursor)
    ensures Paced(Do(s, CommitCursor), start, c + 1)
  {
    hide EventCount, WellPlanned;
    var w := s.worker;
    var a, end := Anchor(s, start), w.from + |w.events|;
    if w.events != [] { assert w.events[|w.events| - 1] == s.log[end - 1]; }
    if s.cursor.token.Some? {
      CountSplit(s.log, a, w.from, end);
    } else {
      assert s.log[a..end] == w.events;
    }
  }

  lemma FetchIsPaced(s: State, step: Step, start: Option<nat>, c: nat)
    requires Paced(s, start, c) && step.Fetch? && Enabled(s, step)
    ensures Paced(Do(s, step), start, c)
  {
    hide EventCount, WellPlanned, StartLedger;
  }

  lemma OtherStepIsPaced(s: State, step: Step, start: Option<nat>, c: nat)
    requires Paced(s, start, c) && Enabled(s, step) && !step.Append? && !step.Fetch? && !step.CommitCursor?
    ensures Paced(Do(s, step), start, c)
  {
    hide EventCount, ValidLog, Do, Enabled;
    SamePlace(s, step);
  }

  /** Such a step moves neither the log nor the cursor, and stays on its page or leaves it. */
  lemma SamePlace(s: State, step: Step)
    requires Enabled(s, step) && !step.Append? && !step.Fetch? && !step.CommitCursor?
    ensures var u := Do(s, step);
      && u.log == s.log && u.cursor == s.cursor && u.origin == s.origin
      && (u.worker.Busy? ==> s.worker.Busy? && u.worker == s.worker.(done := u.worker.done, task := u.worker.task))
  {
    hide Apply, Fails, HooksOf, IsParty;
  }

  lemma StepIsPaced(s: State, step: Step, start: Option<nat>, c: nat)
    requires Paced(s, start, c) && Enabled(s, step)
    ensures Paced(Do(s, step), start, c + Commits([step]))
  {
    hide Paced, Do, Enabled;
    assert Commits([step]) == (if step.CommitCursor? then 1 else 0) by { assert [step][1..] == []; }
    match step
    case Append(more) => AppendIsPaced(s, more, start, c);
    case Fetch(_, _, _, _, _) => FetchIsPaced(s, step, start, c);
    case CommitCursor => CommitIsPaced(s, start, c);
    case _ => OtherStepIsPaced(s, step, start, c);
  }

  lemma {:induction false} RunIsPaced(s: State, steps: seq<Step>, start: Option<nat>, c: nat)
    requires Paced(s, start, c) && Schedule(s, steps)
    ensures Paced(Run(s, steps), start, c + Commits(steps))
    decreases |steps|
  {
    hide Paced, Do, Enabled;
    if steps == [] {
    } else {
      StepIsPaced(s, steps[0], start, c);
      assert steps == [steps[0]] + steps[1..];
      CommitsAppend([steps[0]], steps[1..]);
      RunIsPaced(Do(s, steps[0]), steps[1..], start, c + Commits([steps[0]]));
    }
  }

  /** Where the next commit continues from, before anything else happens. */
  function Started(s: State): Option<nat> { s.cursor.token }

  /** A page that was fetched holds no more events than asked for. */
  predicate PageWithinLimit(s: State) { s.worker.Busy? ==> EventCount(s.worker.events) <= PAGE_LIMIT }

  lemma {:induction false} PagesStayWithinLimit(s: State, steps: seq<Step>)
    requires PageWithinLimit(s) && Schedule(s, steps)
    ensures PageWithinLimit(Run(s, steps))
    decreases |steps|
  {
    hide Do, Enabled, PageWithinLimit;
    if steps == [] {
    } else {
      StepWithinLimit(s, steps[0]);
      PagesStayWithinLimit(Do(s, steps[0]), steps[1..]);
    }
  }

  lemma StepWithinLimit(s: State, step: Step)
    requires PageWithinLimit(s) && Enabled(s, step)
    ensures PageWithinLimit(Do(s, step))
  {
    hide EventCount, Apply, Fails, HooksOf, IsParty;
  }

  /** Where a faithful run can be. */
  predicate Reachable(s: State) { Inv(s) && PageWithinLimit(s) }

  /** Every faithful run from the migrated database is at such a place. */
  lemma FaithfulRunsReach(log: seq<LogEntry>, steps: seq<Step>)
    requires ValidLog(log) && FaithfulSchedule(Fresh(log), steps)
    ensures Schedule(Fresh(log), steps) && Reachable(Run(Fresh(log), steps))
  {
    FaithfulRun(Fresh(log), steps);
    PagesStayWithinLimit(Fresh(log), steps);
  }

  lemma InvIsPaced(s: State)
    requires Reachable(s)
    ensures Paced(s, Started(s), 0)
  {
    hide Exec, Causal, Fold, Flatten, PartWayThrough, WellPlanned, RowsWithin, EventCount, TaskFits;
    if s.origin.Some? { ReadyNow(s); }
    if s.cursor.token.Some? {
      assert s.log[s.cursor.token.value..s.cursor.token.value] == [];
      NoEvents();
    }
  }

  lemma NoEvents()
    ensures EventCount([]) == 0
  {
  }

  /**
   * No schedule from a reachable state, lossy or not, brings in more than 100 events a stored cursor,
   * counted from the cursor it started with, or from its own last bootstrap if there was none.
   */
  lemma CommitsNeeded(s: State, steps: seq<Step>)
    requires Reachable(s) && Schedule(s, steps)
    ensures var u := Run(s, steps);
            u.cursor.token.Some? ==>
              && Anchor(u, Started(s)) <= u.cursor.token.value <= |u.log|
              && EventCount(u.log[Anchor(u, Started(s))..u.cursor.token.value]) <= 100 * Commits(steps)
  {
    hide Inv, EventCount, Run, Schedule, Commits;
    InvIsPaced(s);
    RunIsPaced(s, steps, Started(s), 0);
  }

  predicate GotThere(s: State, end: nat) { s.cursor.token.Some? && s.cursor.token.value >= end }

  /** What a process that died resumes from. */
  lemma AfterCrash(s: State)
    requires Inv(s)
    ensures Inv(Do(s, Crash)) && FaithfulSchedule(s, [Crash]) && Schedule(s, [Crash])
    ensures Run(s, [Crash]) == s.(worker := Idle, pending := {}) && Commits([Crash]) == 0
  {
    hide Inv, Causal, Flatten;
    AbandonKeeps(s, Crash);
    assert [Crash][1..] == [];
    InvIsCausal(s);
  }

  lemma InvIsCausal(s: State)
    requires Inv(s)
    ensures CausalLog(s)
  {
    hide CausalLog, ReadyAt, PartWayThrough, PageFits, ValidLog;
  }

  /**
   * Catching up is always possible, at an exact price.  From every state of a faithful run, in the
   * middle of an event or not, some faithful schedule stores exactly ceil(n / 100) cursors for the n
   * events from the stored position on and ends idle at the end of the log with the tables of an
   * uninterrupted run; and any schedule that gets there stores at least as many.
   */
  lemma CatchingUpCosts(s: State, latest: u32, at: nat, other: seq<Step>) returns (steps: seq<Step>)
    requires Reachable(s) && StandsAt(s.(worker := Idle), latest, at)
    requires Schedule(s, other)
    ensures FaithfulSchedule(s, steps) && Schedule(s, steps)
    ensures var n := EventCount(s.log[at..]);
            Commits(steps) == if n == 0 then 1 else (n + 99) / 100
    ensures var u := Run(s, steps);
      && u.log == s.log && u.seed == s.seed && u.origin == Some(StartOf(s, at))
      && u.worker.Idle? && u.cursor.token == Some(|s.log|)
      && u.origin.value <= |s.log| && u.tables == Fold(s.seed, s.log, u.origin.value, |s.log|)
    ensures var v := Run(s, other);
            GotThere(v, |s.log|) && Anchor(v, Started(s)) <= at && EventCount(s.log[at..]) > 0 ==>
              Commits(other) >= Commits(steps)
  {
    hide Inv, Causal, Flatten, EventCount, Run, Schedule, FaithfulSchedule, Commits, Fold;
    AfterCrash(s);
    var idle := Run(s, [Crash]);
    var n := EventCount(s.log[at..]);
    StandsWithoutPending(s, latest, at);
    var rest := FullPolls(idle, latest, at, if n == 0 then 1 else (n + 99) / 100);
    RunAppend(s, [Crash], rest);
    FaithfulAppend(s, [Crash], rest);
    CommitsAppend([Crash], rest);
    steps := [Crash] + rest;
    CaughtUp(Run(s, steps));
    CommitsNeeded(s, other);
    var v := Run(s, other);
    if GotThere(v, |s.log|) && Anchor(v, Started(s)) <= at && n > 0 {
      LogsGrow(s, other);
      EventsAmong(s.log, v.log, Anchor(v, Started(s)), at, v.cursor.token.value);
    }
  }

  lemma StandsWithoutPending(s: State, latest: u32, at: nat)
    requires StandsAt(s.(worker := Idle), latest, at)
    ensures StandsAt(s.(worker := Idle, pending := {}), latest, at)
  {
    hide ResolvesTo, Causal, Flatten;
  }

  /** Idle at the end of the log, the tables are the fold of the log. */
  lemma CaughtUp(s: State)
    requires Inv(s) && s.worker.Idle? && s.origin.Some? && Position(s) == |s.log|
    ensures s.origin.value <= |s.log| && s.tables == Fold(s.seed, s.log, s.origin.value, |s.log|)
  {
    hide Causal, Fold, RowsWithin;
    assert s.log[|s.log|..] == [];
  }

  lemma {:induction false} LogsGrow(s: State, steps: seq<Step>)
    requires Schedule(s, steps)
    ensures s.log <= Run(s, steps).log
    decreases |steps|
  {
    hide Do, Enabled;
    if steps == [] {
    } else {
      LogGrows(s, steps[0]);
      LogsGrow(Do(s, steps[0]), steps[1..]);
    }
  }

  lemma LogGrows(s: State, step: Step)
    requires Enabled(s, step)
    ensures s.log <= Do(s, step).log
  {
    hide Apply, Fails, HooksOf;
  }

  lemma EventsAmong(log: seq<LogEntry>, longer: seq<LogEntry>, a: nat, at: nat, end: nat)
    requires log <= longer && a <= at <= |log| <= end <= |longer|
    ensures EventCount(longer[a..end]) >= EventCount(log[at..])
  {
    hide EventCount;
    CountSplit(longer, a, at, end);
    CountSplit(longer, at, |log|, end);
    assert longer[at..|log|] == log[at..];
  }

  /** A stored cursor never moves back, and moves forward with every page that covers anything, events or not. */
  lemma CommitsMoveForward(s: State)
    requires Inv(s) && Enabled(s, CommitCursor)
    ensures var u := Do(s, CommitCursor);
      && u.origin.Some? && u.origin == s.origin
      && Position(u) == Position(s) + |s.worker.events| <= |s.log|
      && (s.worker.events != [] ==> |u.log| - Position(u) < |s.log| - Position(s))
  {
    hide ReadyAt, ValidLog, PageFits, PartWayThrough, CausalLog, NextCursor;
    PageFacts(s);
    CommitAdvances(s);
    PageIsOnLog(s);
  }
}
