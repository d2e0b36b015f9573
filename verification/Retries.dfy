/** Lost SQL calls do no harm in an attempt whose cursor is never stored: the retry absorbs whatever it left. */
module Retries {
  import opened Tables
  import opened Replay
  import opened Events
  import opened Log
  import opened Machine
  import opened CatchUp
  import opened Disorder

  /** The inserts of each row in the indexed log agree in content. */
  predicate AgreedLog(s: State) {
    s.origin.Some? ==> s.origin.value <= |s.log| && AgreedContents(Flatten(s.log[s.origin.value..]))
  }

  /** Whether the attempt in progress has lost a statement. */
  function HasLost(lost: bool, s: State, step: Step): bool {
    if step.Crash? || step.CommitFails? then false else lost || LosesWork(s, step)
  }

  /** SQL calls may fail anywhere, but an attempt that lost a statement never stores its cursor. */
  predicate ForgivingSchedule(s: State, steps: seq<Step>, lost: bool)
    decreases |steps|
  {
    steps == []
    || (Enabled(s, steps[0]) && !(lost && steps[0].CommitCursor?) && SteadyStart(s, steps[0])
        && CausalLog(Do(s, steps[0])) && AgreedLog(Do(s, steps[0]))
        && ForgivingSchedule(Do(s, steps[0]), steps[1..], HasLost(lost, s, steps[0])))
  }

  /** In an attempt that lost something, the tables can still be caught up from where the attempt began. */
  predicate LostInv(s: State) {
    ValidLog(s.log) && CausalLog(s)
    && (s.cursor.token.None? ==> s.cursor == NO_CURSOR)
    && s.origin.Some? && s.worker.Busy? && s.worker.from == Position(s)
    && ReadyAt(s.tables, s.seed, s.log, s.origin.value, s.worker.from)
    && PageFits(s.tables, s.log, s.worker)
  }

  predicate RetryInv(s: State, lost: bool) {
    AgreedLog(s) && if lost then LostInv(s) else Inv(s)
  }

  lemma WorkIsInLog(log: seq<LogEntry>, at: nat, i: nat, p: Statement)
    requires at <= i < |log| && p in Work(log[i])
    ensures p in Flatten(log[at..])
  {
    hide Work, Flatten;
    FlattenSplit(log, at, i, |log|);
    assert log[at..|log|] == log[at..] && log[i..|log|] == log[i..];
    FlattenFrom(log, i);
  }

  lemma TailAgrees(log: seq<LogEntry>, origin: nat, at: nat)
    requires origin <= at <= |log| && AgreedContents(Flatten(log[origin..]))
    ensures AgreedContents(Flatten(log[at..]))
  {
    hide Flatten, AgreeOnContent;
    FlattenSplit(log, origin, at, |log|);
    assert log[origin..|log|] == log[origin..] && log[at..|log|] == log[at..];
  }

  /** Any one statement of the rest of the log may run: the database stays ready where it was. */
  lemma ReadyAfterAny(t: Tables, seed: Tables, log: seq<LogEntry>, origin: nat, at: nat, p: Statement)
    requires ReadyAt(t, seed, log, origin, at) && Causal(seed, Flatten(log[origin..]))
    requires AgreedContents(Flatten(log[origin..])) && p in Flatten(log[at..])
    ensures ReadyAt(Apply(t, p), seed, log, origin, at)
  {
    hide Exec, Flatten, Causal, Fold, Apply, AgreedContents;
    var rest := Flatten(log[at..]);
    CausalFromReady(t, seed, log, origin, at);
    TailAgrees(log, origin, at);
    var k :| 0 <= k < |rest| && rest[k] == p;
    OneAbsorbed(t, rest, k);
    ApplyKeepsRows(t, p);
    RowsWithinTransitive(Fold(seed, log, origin, at), t, Apply(t, p));
  }

  /** Losing a statement: what was exact becomes merely ready. */
  lemma LosingKeeps(s: State)
    requires Inv(s) && LosesWork(s, TransientError) && Enabled(s, TransientError)
    ensures LostInv(Do(s, TransientError))
  {
    hide ReadyAt, Exec, Flatten, Causal, PartWayThrough, ValidLog, TaskFits;
    ReadyNow(s);
  }

  /** Inside an attempt that lost something, an event can begin or end without running anything. */
  lemma LostMoves(s: State, step: Step)
    requires LostInv(s) && Enabled(s, step) && (step.BeginEvent? || step.FinishEvent? || step.TransientError?)
    ensures LostInv(Do(s, step))
  {
    hide ReadyAt, Causal, ValidLog, HooksOf, Flatten;
  }

  lemma LostExec(s: State)
    requires LostInv(s) && AgreedLog(s) && Enabled(s, ExecStatement)
    ensures LostInv(Do(s, ExecStatement))
  {
    hide ReadyAt, Causal, ValidLog, Apply, Fails, AgreedContents, TaskFits, Flatten;
    var w := s.worker;
    var event, task := w.events[w.done], w.task.value;
    if !Fails(s.tables, task.todo[0]) {
      TodoIsWork(s.tables, event, task);
      assert event == s.log[w.from + w.done];
      WorkIsInLog(s.log, w.from, w.from + w.done, task.todo[0]);
      ReadyAfterAny(s.tables, s.seed, s.log, s.origin.value, w.from, task.todo[0]);
      TaskFitsAfter(s.tables, event, task);
    }
  }

  lemma TodoIsWork(t: Tables, event: LogEntry, task: Task)
    requires TaskFits(t, event, task) && task.todo != []
    ensures task.todo[0] in Work(event)
  {
    var ss := event.plan.statements;
    assert ss[|ss| - |task.todo|] == task.todo[0];
  }

  lemma LostAppend(s: State, more: seq<LogEntry>)
    requires LostInv(s) && Enabled(s, Append(more)) && CausalLog(Do(s, Append(more)))
    ensures LostInv(Do(s, Append(more)))
  {
    hide ReadyAt, Causal, CausalLog, WellPlanned, TaskFits;
    ReadyAfterAppend(s.tables, s.seed, s.log, more, s.origin.value, s.worker.from);
  }

  /** Abandoning the attempt: the database is ready at the old position, and the loss forgotten. */
  lemma LostAbandon(s: State, step: Step)
    requires LostInv(s) && Enabled(s, step) && (step.Crash? || step.CommitFails?)
    ensures Inv(Do(s, step))
  {
    hide ReadyAt, Causal, ValidLog, PageFits;
  }

  lemma LostRequest(s: State, step: Step)
    requires LostInv(s) && Enabled(s, step)
    requires step.CheckRegistration? || step.InsertWebhook? || step.DeleteWebhook?
    ensures LostInv(Do(s, step))
  {
    hide ReadyAt, Causal, ValidLog, PageFits, HooksOf, IsParty;
  }

  lemma LostStep(s: State, step: Step)
    requires LostInv(s) && AgreedLog(s) && Enabled(s, step) && !step.CommitCursor? && CausalLog(Do(s, step))
    ensures if step.Crash? || step.CommitFails? then Inv(Do(s, step)) else LostInv(Do(s, step))
  {
    hide Inv, CausalLog, Do, AgreedLog, ReadyAt, PageFits, ValidLog;
    match step
    case Append(more) => LostAppend(s, more);
    case BeginEvent => LostMoves(s, step);
    case FinishEvent(_) => LostMoves(s, step);
    case TransientError => LostMoves(s, step);
    case ExecStatement => LostExec(s);
    case Crash => LostAbandon(s, step);
    case CommitFails => LostAbandon(s, step);
    case CheckRegistration(_) => LostRequest(s, step);
    case InsertWebhook(_, _, _) => LostRequest(s, step);
    case DeleteWebhook(_, _) => LostRequest(s, step);
    case Fetch(_, _, _, _, _) => BusyDoesNotFetch(s, step);
    case FetchFails => BusyDoesNotFetch(s, step);
  }

  lemma BusyDoesNotFetch(s: State, step: Step)
    requires s.worker.Busy? && (step.Fetch? || step.FetchFails?)
    ensures !Enabled(s, step)
  {
  }

  lemma RetryStep(s: State, step: Step, lost: bool)
    requires RetryInv(s, lost) && Enabled(s, step) && !(lost && step.CommitCursor?) && SteadyStart(s, step)
    requires CausalLog(Do(s, step)) && AgreedLog(Do(s, step))
    ensures RetryInv(Do(s, step), HasLost(lost, s, step))
  {
    hide Inv, LostInv, CausalLog, Do, Enabled, AgreedLog, SteadyStart;
    if lost {
      LostStep(s, step);
    } else if LosesWork(s, step) {
      LosingKeeps(s);
    } else {
      StepKeepsInv(s, step);
    }
  }

  lemma {:induction false} RetryRun(s: State, steps: seq<Step>, lost: bool)
    requires RetryInv(s, lost) && ForgivingSchedule(s, steps, lost)
    ensures Schedule(s, steps) && Run(s, steps).seed == s.seed
    ensures RetryInv(Run(s, steps), false) || RetryInv(Run(s, steps), true)
    decreases |steps|
  {
    hide RetryInv, HasLost, Do, Enabled, CausalLog, AgreedLog, SteadyStart;
    if steps == [] {
    } else {
      SeedStays(s, steps[0]);
      RetryStep(s, steps[0], lost);
      RetryRun(Do(s, steps[0]), steps[1..], HasLost(lost, s, steps[0]));
    }
  }

  /**
   * The catch-up theorem with lost SQL calls, as long as no attempt that lost a statement stores its
   * cursor: crashed before, or failing to store it.  From the stored cursor the tables can be caught up
   * at every moment, and idle at the end of the log they are those of an uninterrupted run.
   */
  lemma AbandonedLossesAreHarmless(log: seq<LogEntry>, steps: seq<Step>)
    requires ValidLog(log) && ForgivingSchedule(Fresh(log), steps, false)
    ensures Schedule(Fresh(log), steps)
    ensures var s := Run(Fresh(log), steps);
            s.origin.Some? ==>
              && s.origin.value <= Position(s) <= |s.log|
              && Exec(s.tables, Flatten(s.log[Position(s)..])) == Fold(EMPTY, s.log, s.origin.value, |s.log|)
    ensures var s := Run(Fresh(log), steps);
            s.origin.Some? && s.worker.Idle? && Position(s) == |s.log| ==>
              s.tables == Fold(EMPTY, s.log, s.origin.value, |s.log|)
  {
    hide ForgivingSchedule, Causal, CausalLog, ValidLog, AgreedLog, Flatten;
    FreshIsReady(log);
    RetryRun(Fresh(log), steps, false);
    var s := Run(Fresh(log), steps);
    if s.origin.Some? {
      ReadyEitherWay(s);
      if s.worker.Idle? && Position(s) == |s.log| { NothingLeft(s.tables, s.log); }
    }
  }

  lemma FreshIsReady(log: seq<LogEntry>)
    requires ValidLog(log)
    ensures RetryInv(Fresh(log), false)
  {
  }

  lemma ReadyEitherWay(s: State)
    requires (RetryInv(s, false) || RetryInv(s, true)) && s.origin.Some?
    ensures ReadyAt(s.tables, s.seed, s.log, s.origin.value, Position(s))
  {
    hide ReadyAt, Inv, CausalLog, ValidLog, PageFits, AgreedLog;
    if RetryInv(s, false) { ReadyNow(s); }
  }

  lemma NothingLeft(t: Tables, log: seq<LogEntry>)
    ensures Exec(t, Flatten(log[|log|..])) == t
  {
    assert log[|log|..] == [];
  }
}
