/** Milestones and disputes agree at the event boundaries of logs and of runs: exactly when. */
module Agreements {
  import opened Tables
  import opened Replay
  import opened Events
  import opened Log
  import opened Machine
  import opened RowRules
  import opened Safety
  import opened Traces
  import opened CatchUp

  // ----- along a log -----

  /** In one run over the log, the event at `i` resolves a dispute nobody raised, on a milestone that is there. */
  predicate UnraisedAt(log: seq<LogEntry>, origin: nat, i: nat)
    requires origin <= i < |log|
  {
    log[i].success && ResolvesNothing(Fold(EMPTY, log, origin, i), log[i].plan)
  }

  lemma {:induction false} ConsistentRun(t: Tables, ss: seq<Statement>)
    requires Consistent(t) && forall s <- ss :: WellFormed(s)
    ensures Consistent(Exec(t, ss))
    decreases |ss|
  {
    hide Consistent, WellFormed, Apply;
    if ss == [] {
    } else {
      assert ss[0] in ss;
      ConsistentKept(t, ss[0]);
      ConsistentRun(Apply(t, ss[0]), ss[1..]);
    }
  }

  lemma FoldStep(log: seq<LogEntry>, origin: nat, i: nat)
    requires origin <= i < |log|
    ensures Fold(EMPTY, log, origin, i + 1) == Exec(Fold(EMPTY, log, origin, i), Work(log[i]))
  {
    hide Exec, Work;
    FoldSplit(EMPTY, log, origin, i, i + 1);
    assert log[i..i + 1] == [log[i]] && [log[i]][1..] == [];
    assert Flatten([log[i]]) == Work(log[i]) + [] == Work(log[i]);
  }

  lemma {:induction false} FoldIsConsistent(log: seq<LogEntry>, origin: nat, n: nat)
    requires ValidLog(log) && origin <= n <= |log|
    ensures Consistent(Fold(EMPTY, log, origin, n))
    decreases n
  {
    hide Consistent, WellFormed, Fold;
    if n == origin {
      FoldOfNothing(log, origin);
    } else {
      FoldIsConsistent(log, origin, n - 1);
      FoldStep(log, origin, n - 1);
      ConsistentRun(Fold(EMPTY, log, origin, n - 1), Work(log[n - 1]));
    }
  }

  lemma FoldOfNothing(log: seq<LogEntry>, origin: nat)
    requires origin <= |log|
    ensures Fold(EMPTY, log, origin, origin) == EMPTY && Consistent(EMPTY) && Agreement(EMPTY)
  {
    assert log[origin..origin] == [];
  }

  /** One event of the log, from tables that agree. */
  lemma LogStepAgrees(log: seq<LogEntry>, origin: nat, i: nat)
    requires ValidLog(log) && origin <= i < |log| && Agreement(Fold(EMPTY, log, origin, i))
    ensures Agreement(Fold(EMPTY, log, origin, i + 1)) <==> !UnraisedAt(log, origin, i)
  {
    hide Exec, Agreement, Consistent, WellPlanned, ResolvesNothing, Fold;
    FoldStep(log, origin, i);
    FoldIsConsistent(log, origin, i);
    if log[i].success {
      EventKeepsAgreement(Fold(EMPTY, log, origin, i), log[i].plan);
    } else {
      NothingRun(Fold(EMPTY, log, origin, i));
    }
  }

  lemma NothingRun(t: Tables)
    ensures Exec(t, []) == t
  {
  }

  lemma {:induction false} AgreesUpTo(log: seq<LogEntry>, origin: nat, n: nat)
    requires ValidLog(log) && origin <= n <= |log|
    requires forall i | origin <= i < n :: !UnraisedAt(log, origin, i)
    ensures Agreement(Fold(EMPTY, log, origin, n))
    decreases n
  {
    hide Agreement, UnraisedAt, Fold;
    if n == origin {
      FoldOfNothing(log, origin);
    } else {
      AgreesUpTo(log, origin, n - 1);
      LogStepAgrees(log, origin, n - 1);
    }
  }

  /** The tables of a log agree after each of its events if, and only if, no event resolves what was never raised. */
  lemma LogsAgree(log: seq<LogEntry>, origin: nat)
    requires ValidLog(log) && origin <= |log|
    ensures (forall n | origin <= n <= |log| :: Agreement(Fold(EMPTY, log, origin, n)))
       <==> (forall i | origin <= i < |log| :: !UnraisedAt(log, origin, i))
  {
    hide Agreement, UnraisedAt, Fold;
    if forall i | origin <= i < |log| :: !UnraisedAt(log, origin, i) {
      forall n | origin <= n <= |log| ensures Agreement(Fold(EMPTY, log, origin, n)) { AgreesUpTo(log, origin, n); }
    } else {
      var i :| origin <= i < |log| && UnraisedAt(log, origin, i);
      if Agreement(Fold(EMPTY, log, origin, i)) { LogStepAgrees(log, origin, i); }
      assert !Agreement(Fold(EMPTY, log, origin, i)) || !Agreement(Fold(EMPTY, log, origin, i + 1));
    }
  }

  /** Crashes and replays included: a faithful run that is idle at the end of such a log agrees. */
  lemma CaughtUpTablesAgree(log: seq<LogEntry>, steps: seq<Step>)
    requires ValidLog(log) && FaithfulSchedule(Fresh(log), steps)
    ensures Schedule(Fresh(log), steps)
    ensures var s := Run(Fresh(log), steps);
            s.origin.Some? && s.worker.Idle? && Position(s) == |s.log| && s.origin.value <= |s.log|
            && (forall i | s.origin.value <= i < |s.log| :: !UnraisedAt(s.log, s.origin.value, i))
            ==> Agreement(s.tables)
  {
    hide Agreement, UnraisedAt, Fold;
    AlwaysCatchesUp(log, steps);
    FaithfulRun(Fresh(log), steps);
    var s := Run(Fresh(log), steps);
    if s.origin.Some? && s.origin.value <= |s.log|
       && forall i | s.origin.value <= i < |s.log| :: !UnraisedAt(s.log, s.origin.value, i) {
      AgreesUpTo(s.log, s.origin.value, |s.log|);
    }
  }

  // ----- along a run -----

  /** The worker is not inside an event. */
  predicate Between(s: State) { s.worker.Idle? || s.worker.task.None? }

  /** A crash or a lost SQL call with statements of the event still to run. */
  predicate Interrupts(s: State, step: Step) {
    (step.Crash? || step.TransientError?) && !Between(s) && s.worker.task.value.todo != []
  }

  predicate Calm(s: State, steps: seq<Step>)
    requires Schedule(s, steps)
  {
    forall k | 0 <= k < |steps| :: !Interrupts(At(s, steps, k), steps[k])
  }

  /** At step `k` an event begins that resolves a dispute nobody raised. */
  predicate BeginsUnraised(s: State, steps: seq<Step>, k: nat)
    requires Schedule(s, steps) && k < |steps|
  {
    var u := At(s, steps, k);
    && steps[k] == BeginEvent && u.worker.Busy? && u.worker.done < |u.worker.events|
    && u.worker.events[u.worker.done].success
    && ResolvesNothing(u.tables, u.worker.events[u.worker.done].plan)
  }

  /** Only the last statement of a plan can fail. */
  lemma FailureIsAtTheEnd(t: Tables, plan: Plan, ran: seq<Statement>, todo: seq<Statement>)
    requires WellPlanned(plan) && plan.statements == ran + todo && todo != [] && Fails(Exec(t, ran), todo[0])
    ensures |todo| == 1 && Exec(t, plan.statements) == Exec(t, ran)
  {
    hide WellFormed;
    var ss := plan.statements;
    assert ss[|ran|] == todo[0] && ss[|ran|] in ss;
    if todo[0].UpsertMilestone? {
      assert ran[0] == ss[0];
      ExecKeepsRows(Apply(t, ss[0]), ran[1..]);
      assert false;
    }
    assert ss == ran + [todo[0]];
    ExecSnoc(t, ran, todo[0]);
  }

  lemma StepBetween(s: State, step: Step)
    requires Enabled(s, step) && Between(s)
    ensures Do(s, step).tables == s.tables
  {
    hide Apply, Fails, HooksOf;
  }

  /** A step that ends an event without an interruption runs nothing, and at most one failing statement was left. */
  lemma StepOutOfEvent(s: State, step: Step)
    requires Enabled(s, step) && !Between(s) && Between(Do(s, step)) && !Interrupts(s, step)
    ensures Do(s, step).tables == s.tables
    ensures var todo := s.worker.task.value.todo; todo != [] ==> Fails(s.tables, todo[0])
  {
    hide Apply, Fails, HooksOf;
  }

  /** The event that a worker is inside of is one of the log's. */
  lemma PlansAreGood(log: seq<LogEntry>, steps: seq<Step>, k: nat)
    requires ValidLog(log) && Schedule(Fresh(log), steps) && k <= |steps|
    ensures var u := At(Fresh(log), steps, k);
      && Consistent(u.tables)
      && (u.worker.Busy? && u.worker.done < |u.worker.events| ==> WellPlanned(u.worker.events[u.worker.done].plan))
  {
    hide Consistent, WellPlanned, HooksOwned, OutboxBacked, TaskOnPlan, InOrder;
    FreshIsSafe(log);
    RunSplit(Fresh(log), steps, k);
    RunIsSafe(Fresh(log), steps[..k]);
    var u := At(Fresh(log), steps, k);
    if u.worker.Busy? && u.worker.done < |u.worker.events| {
      assert u.log[u.worker.from + u.worker.done] == u.worker.events[u.worker.done];
    }
  }

  /** Between the begin and the end of an event exactly its statements took effect. */
  lemma EventRan(log: seq<LogEntry>, steps: seq<Step>, k: nat) returns (a: nat)
    requires ValidLog(log) && Schedule(Fresh(log), steps) && Calm(Fresh(log), steps) && k < |steps|
    requires !Between(At(Fresh(log), steps, k)) && Between(At(Fresh(log), steps, k + 1))
    ensures a < k && InEventSince(Fresh(log), steps, a, k)
    ensures var u := At(Fresh(log), steps, a);
            At(Fresh(log), steps, k + 1).tables == Exec(u.tables, u.worker.events[u.worker.done].plan.statements)
  {
    hide Do, Enabled, Exec, WellPlanned, Consistent, Fails, At;
    var s := Fresh(log);
    a := EventHasBegun(s, steps, k);
    var u, v := At(s, steps, a), At(s, steps, k);
    var plan, todo := u.worker.events[u.worker.done].plan, v.worker.task.value.todo;
    AtStep(s, steps, k);
    StepOutOfEvent(v, steps[k]);
    PlansAreGood(log, steps, a);
    TablesAreRan(s, steps, a);
    TablesAreRan(s, steps, k);
    RanSplits(Ran(s, steps, k), todo, Ran(s, steps, a), plan.statements, a, k, s, steps);
    var ran := plan.statements[..|plan.statements| - |todo|];
    ExecAppend(s.tables, Ran(s, steps, a), ran);
    assert plan.statements == ran + todo;
    if todo != [] {
      FailureIsAtTheEnd(u.tables, plan, ran, todo);
    } else {
      assert ran == plan.statements;
    }
  }

  lemma RanSplits(now: seq<Statement>, todo: seq<Statement>, before: seq<Statement>, plan: seq<Statement>,
                  a: nat, k: nat, s: State, steps: seq<Step>)
    requires Schedule(s, steps) && a <= k <= |steps| && now == Ran(s, steps, k) && before == Ran(s, steps, a)
    requires now + todo == before + plan
    ensures |todo| <= |plan| && now == before + plan[..|plan| - |todo|] && plan[|plan| - |todo|..] == todo
  {
    hide Ran, Executes, At;
    RanGrows(s, steps, a, k);
    var all := now + todo;
    assert all[..|now|] == now && all[|now|..] == todo;
    assert |now| >= |before|;
    assert all[|before|..] == plan;
  }

  lemma {:induction false} RanGrows(s: State, steps: seq<Step>, a: nat, k: nat)
    requires Schedule(s, steps) && a <= k <= |steps|
    ensures |Ran(s, steps, a)| <= |Ran(s, steps, k)|
  {
    hide Executes, At;
    if a == k {
    } else {
      RanGrows(s, steps, a, k - 1);
      AtStep(s, steps, k - 1);
    }
  }

  /** A whole event, seen from its two boundaries. */
  lemma WholeEventAgrees(log: seq<LogEntry>, steps: seq<Step>, k: nat) returns (a: nat)
    requires ValidLog(log) && Schedule(Fresh(log), steps) && Calm(Fresh(log), steps) && k < |steps|
    requires !Between(At(Fresh(log), steps, k)) && Between(At(Fresh(log), steps, k + 1))
    ensures a < k && InEventSince(Fresh(log), steps, a, k) && Between(At(Fresh(log), steps, a))
    ensures Agreement(At(Fresh(log), steps, a).tables) ==>
              (Agreement(At(Fresh(log), steps, k + 1).tables) <==> !BeginsUnraised(Fresh(log), steps, a))
  {
    hide Do, Enabled, Exec, WellPlanned, Consistent, At, Agreement, ResolvesNothing, Ran, Calm;
    a := EventRan(log, steps, k);
    PlansAreGood(log, steps, a);
    var u := At(Fresh(log), steps, a);
    if Agreement(u.tables) { EventKeepsAgreement(u.tables, u.worker.events[u.worker.done].plan); }
  }

  lemma FreshIsSafe(log: seq<LogEntry>)
    requires ValidLog(log)
    ensures Safe(Fresh(log)) && Agreement(EMPTY)
  {
  }

  lemma {:induction false} BoundaryAgrees(log: seq<LogEntry>, steps: seq<Step>, k: nat)
    requires ValidLog(log) && Schedule(Fresh(log), steps) && Calm(Fresh(log), steps) && k <= |steps|
    requires forall j | 0 <= j < |steps| :: !BeginsUnraised(Fresh(log), steps, j)
    requires Between(At(Fresh(log), steps, k))
    ensures Agreement(At(Fresh(log), steps, k).tables)
  {
    hide Do, Enabled, Agreement, Calm, BeginsUnraised, InEventSince, Between;
    if k == 0 {
      FreshIsSafe(log);
      assert steps[..0] == [];
    } else {
      AtStep(Fresh(log), steps, k - 1);
      var u := At(Fresh(log), steps, k - 1);
      if Between(u) {
        StepBetween(u, steps[k - 1]);
        BoundaryAgrees(log, steps, k - 1);
      } else {
        var a := WholeEventAgrees(log, steps, k - 1);
        BoundaryAgrees(log, steps, a);
      }
    }
  }

  /** The first boundary after a point. */
  lemma {:induction false} NextBoundary(s: State, steps: seq<Step>, k: nat) returns (m: nat)
    requires Schedule(s, steps) && k <= |steps| && !Between(At(s, steps, k)) && Between(At(s, steps, |steps|))
    ensures k <= m < |steps| && Between(At(s, steps, m + 1))
    ensures forall j | k <= j <= m :: !Between(At(s, steps, j))
    decreases |steps| - k
  {
    hide Between, At;
    if Between(At(s, steps, k + 1)) { m := k; } else { m := NextBoundary(s, steps, k + 1); }
  }

  /** An event that resolves the unraised breaks agreement at one of its two boundaries. */
  lemma UnraisedBreaks(log: seq<LogEntry>, steps: seq<Step>, k: nat) returns (m: nat)
    requires ValidLog(log) && Schedule(Fresh(log), steps) && Calm(Fresh(log), steps) && k < |steps|
    requires Between(At(Fresh(log), steps, |steps|)) && BeginsUnraised(Fresh(log), steps, k)
    ensures m <= |steps| && Between(At(Fresh(log), steps, m)) && !Agreement(At(Fresh(log), steps, m).tables)
  {
    hide Agreement, Calm, ResolvesNothing, At, Enabled, Do;
    var s := Fresh(log);
    AtStep(s, steps, k);
    SuccessBegins(At(s, steps, k), steps[k]);
    var end := NextBoundary(s, steps, k + 1);
    var a := WholeEventAgrees(log, steps, end);
    assert a == k;
    m := if Agreement(At(s, steps, k).tables) then end + 1 else k;
  }

  lemma SuccessBegins(s: State, step: Step)
    requires Enabled(s, step) && step == BeginEvent && s.worker.events[s.worker.done].success
    ensures Between(s) && !Between(Do(s, step))
  {
  }

  /**
   * A run whose events are not interrupted, ending between events: the tables agree at every event
   * boundary if, and only if, no event of the run resolves a dispute nobody raised.  Events that fail
   * on a foreign key, replays after failed commits, and crashes between events are all included.
   */
  lemma RunsAgree(log: seq<LogEntry>, steps: seq<Step>)
    requires ValidLog(log) && Schedule(Fresh(log), steps) && Calm(Fresh(log), steps)
    requires Between(Run(Fresh(log), steps))
    ensures (forall k | 0 <= k <= |steps| && Between(At(Fresh(log), steps, k)) ::
               Agreement(At(Fresh(log), steps, k).tables))
       <==> (forall k | 0 <= k < |steps| :: !BeginsUnraised(Fresh(log), steps, k))
  {
    hide Agreement, Calm, BeginsUnraised, Between, Enabled, Do, Schedule, Run;
    var s := Fresh(log);
    AtEnd(s, steps);
    if forall k | 0 <= k < |steps| :: !BeginsUnraised(s, steps, k) {
      forall k | 0 <= k <= |steps| && Between(At(s, steps, k)) ensures Agreement(At(s, steps, k).tables) {
        BoundaryAgrees(log, steps, k);
      }
    } else {
      var k :| 0 <= k < |steps| && BeginsUnraised(s, steps, k);
      var m := UnraisedBreaks(log, steps, k);
    }
  }

  lemma AtEnd(s: State, steps: seq<Step>)
    requires Schedule(s, steps)
    ensures At(s, steps, |steps|) == Run(s, steps)
  {
    hide Do, Enabled;
    assert steps[..|steps|] == steps;
  }
}
