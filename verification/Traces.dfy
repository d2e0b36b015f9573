/** What a schedule ran, in order, and the stretch of it that stands behind every notice. */
module Traces {
  import opened Base
  import opened Tables
  import opened Events
  import opened Machine

  lemma {:induction false} RunSplit(s: State, steps: seq<Step>, k: nat)
    requires Schedule(s, steps) && k <= |steps|
    ensures Schedule(s, steps[..k]) && Schedule(Run(s, steps[..k]), steps[k..])
    ensures Run(s, steps) == Run(Run(s, steps[..k]), steps[k..])
    decreases k
  {
    hide Do, Enabled;
    if k == 0 {
      assert steps[..0] == [] && steps[0..] == steps;
    } else {
      RunSplit(Do(s, steps[0]), steps[1..], k - 1);
      assert steps[..k][1..] == steps[1..][..k - 1] && steps[k..] == steps[1..][k - 1..];
    }
  }

  lemma RunLast(s: State, steps: seq<Step>)
    requires Schedule(s, steps) && steps != []
    ensures var n := |steps| - 1;
      && Schedule(s, steps[..n]) && Enabled(Run(s, steps[..n]), steps[n])
      && Run(s, steps) == Do(Run(s, steps[..n]), steps[n])
  {
    hide Do, Enabled;
    var n := |steps| - 1;
    RunSplit(s, steps, n);
    assert steps[n..] == [steps[n]] && [steps[n]][1..] == [];
  }

  /** The state before step `k`; after the last step, the final state. */
  function At(s: State, steps: seq<Step>, k: nat): State
    requires Schedule(s, steps) && k <= |steps|
  {
    RunSplit(s, steps, k);
    Run(s, steps[..k])
  }

  lemma AtStep(s: State, steps: seq<Step>, k: nat)
    requires Schedule(s, steps) && k < |steps|
    ensures Enabled(At(s, steps, k), steps[k]) && At(s, steps, k + 1) == Do(At(s, steps, k), steps[k])
  {
    hide Do, Enabled;
    RunSplit(s, steps, k + 1);
    RunLast(s, steps[..k + 1]);
    assert steps[..k + 1][..k] == steps[..k];
  }

  /** The statement a step executes, if it executes one. */
  function Executes(s: State, step: Step): seq<Statement>
    requires Enabled(s, step)
  {
    if step.ExecStatement? && !Fails(s.tables, s.worker.task.value.todo[0]) then [s.worker.task.value.todo[0]] else []
  }

  /** The statements executed before step `k`, in order. */
  function Ran(s: State, steps: seq<Step>, k: nat): seq<Statement>
    requires Schedule(s, steps) && k <= |steps|
  {
    if k == 0 then []
    else
      AtStep(s, steps, k - 1);
      Ran(s, steps, k - 1) + Executes(At(s, steps, k - 1), steps[k - 1])
  }

  /** The tables are what the executed statements make of the first ones; nothing else writes them. */
  lemma {:induction false} TablesAreRan(s: State, steps: seq<Step>, k: nat)
    requires Schedule(s, steps) && k <= |steps|
    ensures At(s, steps, k).tables == Exec(s.tables, Ran(s, steps, k))
  {
    if k == 0 {
      assert steps[..0] == [];
    } else {
      AtStep(s, steps, k - 1);
      TablesAreRan(s, steps, k - 1);
      StepExecutes(At(s, steps, k - 1), steps[k - 1]);
      ExecAppend(s.tables, Ran(s, steps, k - 1), Executes(At(s, steps, k - 1), steps[k - 1]));
    }
  }

  lemma StepExecutes(s: State, step: Step)
    requires Enabled(s, step)
    ensures Do(s, step).tables == Exec(s.tables, Executes(s, step))
  {
    hide Apply, Fails, HooksOf;
    if Executes(s, step) != [] { assert Executes(s, step)[1..] == []; }
  }

  /** At step `a` the worker begins the event it is in the middle of at step `k`. */
  predicate InEventSince(s: State, steps: seq<Step>, a: nat, k: nat)
    requires Schedule(s, steps) && a < k <= |steps|
  {
    var u, v := At(s, steps, a), At(s, steps, k);
    && steps[a] == BeginEvent
    && u.worker.Busy? && u.worker.task.None? && u.worker.done < |u.worker.events|
    && v.worker.Busy? && v.worker.task.Some?
    && v.worker == u.worker.(task := v.worker.task)
    && (forall j | a < j <= k :: At(s, steps, j).worker.Busy? && At(s, steps, j).worker.task.Some?)
    && var event, task := u.worker.events[u.worker.done], v.worker.task.value;
    && event.success && task.id == event.id && task.finish == event.plan.finish
    && Ran(s, steps, k) + task.todo == Ran(s, steps, a) + event.plan.statements
  }

  /** One step inside an event: the event goes on, and what it has left to run shrinks by what ran. */
  lemma StepInsideEvent(s: State, step: Step)
    requires Enabled(s, step) && s.worker.Busy? && s.worker.task.Some?
    requires Do(s, step).worker.Busy? && Do(s, step).worker.task.Some?
    ensures var task, task' := s.worker.task.value, Do(s, step).worker.task.value;
      && Do(s, step).worker == s.worker.(task := Some(task'))
      && task'.id == task.id && task'.finish == task.finish && Executes(s, step) + task'.todo == task.todo
  {
    hide Apply, Fails, HooksOf;
  }

  lemma StepIntoEvent(s: State, step: Step)
    requires Enabled(s, step) && (s.worker.Idle? || s.worker.task.None?)
    requires Do(s, step).worker.Busy? && Do(s, step).worker.task.Some?
    ensures step == BeginEvent && s.worker.Busy? && s.worker.done < |s.worker.events|
    ensures var event, task := s.worker.events[s.worker.done], Do(s, step).worker.task.value;
      && Do(s, step).worker == s.worker.(task := Some(task))
      && event.success && task == Task(event.id, event.plan.statements, event.plan.finish)
  {
    hide Apply, Fails, HooksOf;
  }

  /** Whoever is in the middle of an event began it, and has run exactly the part that is not left. */
  lemma {:induction false} EventHasBegun(s: State, steps: seq<Step>, k: nat) returns (a: nat)
    requires s.worker.Idle? && Schedule(s, steps) && k <= |steps|
    requires At(s, steps, k).worker.Busy? && At(s, steps, k).worker.task.Some?
    ensures a < k && InEventSince(s, steps, a, k)
  {
    hide Do, Enabled, Executes;
    assert steps[..0] == [];
    if k == 0 {
      assert false;
    } else {
      AtStep(s, steps, k - 1);
      var u := At(s, steps, k - 1);
      if u.worker.Busy? && u.worker.task.Some? {
        a := EventHasBegun(s, steps, k - 1);
        StepInsideEvent(u, steps[k - 1]);
        EventGoesOn(s, steps, a, k);
      } else {
        a := k - 1;
        StepIntoEvent(u, steps[k - 1]);
        BeginRunsNothing(u, steps[k - 1]);
      }
    }
  }

  lemma BeginRunsNothing(s: State, step: Step)
    requires Enabled(s, step) && step == BeginEvent
    ensures Executes(s, step) == []
  {
  }

  lemma EventGoesOn(s: State, steps: seq<Step>, a: nat, k: nat)
    requires Schedule(s, steps) && a < k - 1 < |steps| && InEventSince(s, steps, a, k - 1)
    requires At(s, steps, k).worker.Busy? && At(s, steps, k).worker.task.Some?
    requires Enabled(At(s, steps, k - 1), steps[k - 1])
    requires var u, v := At(s, steps, k - 1).worker, At(s, steps, k).worker;
      && v == u.(task := v.task)
      && v.task.value.id == u.task.value.id && v.task.value.finish == u.task.value.finish
      && Executes(At(s, steps, k - 1), steps[k - 1]) + v.task.value.todo == u.task.value.todo
    ensures InEventSince(s, steps, a, k)
  {
    hide Do, Enabled, Executes, At;
    var ran, ex := Ran(s, steps, k - 1), Executes(At(s, steps, k - 1), steps[k - 1]);
    var todo := At(s, steps, k).worker.task.value.todo;
    assert (ran + ex) + todo == ran + (ex + todo);
  }

  /** The steps that stand behind a notice. */
  predicate NoticeRun(s: State, steps: seq<Step>, n: Notice, i: nat, a: nat, b: nat)
    requires Schedule(s, steps)
  {
    a < b < |steps|
    && steps[a] == BeginEvent && steps[b] == FinishEvent(true)
    && InEventSince(s, steps, a, b)
    && var u, v := At(s, steps, a), At(s, steps, b);
       var event := u.worker.events[u.worker.done];
    && event.id == n.id && event.plan.finish == Notify(n.escrow, n.name)
    && Ran(s, steps, b) == Ran(s, steps, a) + event.plan.statements
    && |v.outbox| == i && At(s, steps, b + 1).outbox == v.outbox + [n]
    && n.targets == HooksOf(v.hooks, n.escrow)
  }

  lemma StepOutbox(s: State, step: Step)
    requires Enabled(s, step)
    ensures Do(s, step).outbox == s.outbox
         || (step == FinishEvent(true) && s.worker.task.value.finish.Notify?
             && Do(s, step).outbox == s.outbox + [NoticeOf(s.hooks, s.worker.task.value.id,
                                                           s.worker.task.value.finish)])
  {
    hide Apply, Fails, HooksOf;
  }

  /**
   * In every run, lost calls and crashes included, behind every notice there is a stretch of the
   * schedule that began its event, executed exactly the event's statements in order with none failing,
   * and ended by enqueuing it for the webhooks its escrow had at that moment.
   */
  lemma {:induction false} NoticesFollowTheirStatements(s: State, steps: seq<Step>, k: nat, i: nat)
      returns (a: nat, b: nat)
    requires s.worker.Idle? && Schedule(s, steps) && k <= |steps|
    requires |s.outbox| <= i < |At(s, steps, k).outbox|
    ensures b < k && NoticeRun(s, steps, At(s, steps, k).outbox[i], i, a, b)
  {
    hide Do, Enabled, Executes, HooksOf;
    assert steps[..0] == [];
    if k == 0 {
      assert false;
    } else {
      AtStep(s, steps, k - 1);
      var u := At(s, steps, k - 1);
      StepOutbox(u, steps[k - 1]);
      if i < |u.outbox| {
        a, b := NoticesFollowTheirStatements(s, steps, k - 1, i);
      } else {
        FinishNeedsTask(u, steps[k - 1]);
        b := k - 1;
        a := EventHasBegun(s, steps, b);
        assert Ran(s, steps, b) + [] == Ran(s, steps, b);
      }
    }
  }

  lemma FinishNeedsTask(s: State, step: Step)
    requires Enabled(s, step) && step.FinishEvent?
    ensures s.worker.Busy? && s.worker.task.Some? && s.worker.task.value.todo == []
  {
  }
}
