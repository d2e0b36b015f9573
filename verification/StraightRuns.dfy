/** Runs that never go back: their tables are the log's statements minus the tails that lost SQL calls cut off. */
module StraightRuns {
  import opened Base
  import opened Tables
  import opened Replay
  import opened ReplayCuts
  import opened Healing
  import opened Events
  import opened Log
  import opened Machine
  import opened Traces
  import opened CatchUp

  /** Nothing makes the indexer go back over a page. */
  predicate Straight(steps: seq<Step>) {
    forall p <- steps :: !p.Crash? && !p.CommitFails?
  }

  /** How much of the current event has run. */
  function RanOfTask(w: Worker): nat
    requires w.Busy? && w.task.Some?
  {
    if w.done < |w.events| && |w.task.value.todo| <= |w.events[w.done].plan.statements|
    then |w.events[w.done].plan.statements| - |w.task.value.todo|
    else 0
  }

  /** The log positions whose events lost their tail in one step, and how many statements they ran. */
  function LossOf(s: State, step: Step): map<nat, nat> {
    if LosesWork(s, step) then map[s.worker.from + s.worker.done := RanOfTask(s.worker)] else map[]
  }

  function Losses(s: State, steps: seq<Step>, k: nat): map<nat, nat>
    requires Schedule(s, steps) && k <= |steps|
  {
    if k == 0 then map[] else Losses(s, steps, k - 1) + LossOf(At(s, steps, k - 1), steps[k - 1])
  }

  /** The statements of the entry at `i`, up to where it was cut. */
  function Part(log: seq<LogEntry>, i: nat, lost: map<nat, nat>): seq<Statement>
    requires i < |log|
  {
    if i in lost && lost[i] <= |Work(log[i])| then Work(log[i])[..lost[i]] else Work(log[i])
  }

  /** The log's statements from `a` to `b`, minus the lost tails. */
  function Trimmed(log: seq<LogEntry>, a: nat, b: nat, lost: map<nat, nat>): seq<Statement>
    requires a <= b <= |log|
    decreases b
  {
    if a == b then [] else Trimmed(log, a, b - 1, lost) + Part(log, b - 1, lost)
  }

  /** Positions from `b` on, and growth of the log, are of no account. */
  lemma {:induction false} TrimmedDependsOnPast(log: seq<LogEntry>, longer: seq<LogEntry>, a: nat, b: nat,
                                                lost: map<nat, nat>, more: map<nat, nat>)
    requires a <= b <= |log| && log <= longer
    requires forall i | a <= i < b :: (i in lost <==> i in more) && (i in lost ==> lost[i] == more[i])
    ensures Trimmed(log, a, b, lost) == Trimmed(longer, a, b, more)
    decreases b
  {
    hide Work;
    if a == b {
    } else {
      TrimmedDependsOnPast(log, longer, a, b - 1, lost, more);
      assert log[b - 1] == longer[b - 1];
    }
  }

  lemma {:induction false} TrimmedOfNothing(log: seq<LogEntry>, a: nat, b: nat, lost: map<nat, nat>)
    requires a <= b <= |log| && forall i | a <= i < b :: i !in lost
    ensures Trimmed(log, a, b, lost) == Flatten(log[a..b])
    decreases b
  {
    hide Work, Flatten;
    if a == b {
      assert log[a..b] == [];
      FlattenNothing();
    } else {
      TrimmedOfNothing(log, a, b - 1, lost);
      FlattenSplit(log, a, b - 1, b);
      FlattenOne(log, b - 1);
    }
  }

  lemma FlattenNothing()
    ensures Flatten([]) == []
  {
  }

  lemma FlattenOne(log: seq<LogEntry>, i: nat)
    requires i < |log|
    ensures Flatten(log[i..i + 1]) == Work(log[i])
  {
    hide Work;
    assert log[i..i + 1] == [log[i]] && [log[i]][1..] == [];
    assert Work(log[i]) + [] == Work(log[i]);
  }

  /** The next position the worker has not dealt with. */
  function Next(s: State): nat
    requires s.origin.Some?
  {
    if s.worker.Busy? then s.worker.from + s.worker.done else Position(s)
  }

  /** The part of the current event that has run. */
  function Current(s: State): seq<Statement> {
    if s.worker.Busy? && s.worker.task.Some? && s.worker.done < |s.worker.events|
       && |s.worker.task.value.todo| <= |s.worker.events[s.worker.done].plan.statements|
    then s.worker.events[s.worker.done].plan.statements[..RanOfTask(s.worker)]
    else []
  }

  /** Where a straight run stands. */
  predicate OnTrack(s: State, lost: map<nat, nat>) {
    ValidLog(s.log)
    && (s.origin.None? ==> s.worker.Idle?)
    && (s.worker.Idle? && s.cursor.token.None? ==> s.tables == EMPTY && lost == map[])
    && (s.cursor.token.Some? ==> s.origin.Some?)
    && (s.origin.Some? ==>
          && s.origin.value <= Next(s) <= |s.log|
          && (forall i <- lost :: s.origin.value <= i < Next(s))
          && (s.worker.Busy? ==> s.worker.from == Position(s) && PageFits(s.tables, s.log, s.worker))
          && s.tables == Exec(EMPTY, Trimmed(s.log, s.origin.value, Next(s), lost) + Current(s)))
  }

  lemma StillFits(s: State)
    requires s.worker.Busy? && PageFits(s.tables, s.log, s.worker) && s.worker.done < |s.worker.events|
    ensures PageFits(s.tables, s.log, EndEvent(s).worker)
    ensures s.worker.from + |s.worker.events| <= |s.log|
  {
    hide TaskFits;
  }

  /** The current entry is over, having run as much of it as `lost` says. */
  lemma EntryIsBehind(s: State, s': State, lost: map<nat, nat>, lost': map<nat, nat>)
    requires OnTrack(s, lost) && s.worker.Busy? && s.origin.Some? && s.worker.done < |s.worker.events|
    requires s' == s.(outbox := s'.outbox, worker := s.worker.(task := None, done := s.worker.done + 1))
    requires lost' == lost || (exists n :: lost' == lost + map[Next(s) := n])
    requires s.tables == Exec(EMPTY, Trimmed(s.log, s.origin.value, Next(s), lost) + Part(s.log, Next(s), lost'))
    ensures OnTrack(s', lost')
  {
    hide Exec, ValidLog, PageFits, Part;
    StillFits(s);
    var o, i := s.origin.value, Next(s);
    TrimmedDependsOnPast(s.log, s.log, o, i, lost, lost');
    assert Trimmed(s.log, o, i + 1, lost') == Trimmed(s.log, o, i, lost) + Part(s.log, i, lost');
    assert Current(s') == [] && Trimmed(s.log, o, i + 1, lost') + [] == Trimmed(s.log, o, i + 1, lost');
    assert Next(s') == i + 1;
  }

  lemma WholeTask(s: State, lost: map<nat, nat>)
    requires OnTrack(s, lost) && s.worker.Busy? && s.worker.task.Some?
    ensures s.origin.Some? && s.worker.done < |s.worker.events| && s.origin.value <= Next(s) < |s.log|
            && Next(s) !in lost
    ensures s.worker.events[s.worker.done] == s.log[Next(s)] && TaskFits(s.tables, s.log[Next(s)], s.worker.task.value)
    ensures WellPlanned(s.log[Next(s)].plan)
    ensures Work(s.log[Next(s)]) == s.log[Next(s)].plan.statements
    ensures Current(s) == Work(s.log[Next(s)])[..|Work(s.log[Next(s)])| - |s.worker.task.value.todo|]
  {
    hide Exec, WellPlanned;
  }

  lemma BeginOnTrack(s: State, lost: map<nat, nat>)
    requires OnTrack(s, lost) && Enabled(s, BeginEvent)
    ensures OnTrack(Do(s, BeginEvent), lost)
  {
    hide Exec, WellPlanned, Trimmed, Work, Part;
    assert s.worker.events[s.worker.done] == s.log[Next(s)];
    if s.log[Next(s)].success {
      assert Current(Do(s, BeginEvent)) == [] == Current(s);
    } else {
      SkipIsBehind(s, lost);
    }
  }

  lemma SkipIsBehind(s: State, lost: map<nat, nat>)
    requires OnTrack(s, lost) && Enabled(s, BeginEvent) && s.origin.Some? && Next(s) < |s.log|
             && !s.log[Next(s)].success
    requires s.worker.events[s.worker.done] == s.log[Next(s)]
    ensures OnTrack(Do(s, BeginEvent), lost)
  {
    hide Exec, WellPlanned, Trimmed, TaskFits;
    assert Part(s.log, Next(s), lost) == [] == Current(s);
    EntryIsBehind(s, Do(s, BeginEvent), lost, lost);
  }

  lemma FailureOnTrack(s: State, lost: map<nat, nat>)
    requires OnTrack(s, lost) && Enabled(s, ExecStatement) && Fails(s.tables, s.worker.task.value.todo[0])
    ensures OnTrack(Do(s, ExecStatement), lost)
  {
    hide Exec, WellPlanned, Apply, Fails, OnTrack, Trimmed, TaskFits, Work, Current;
    WholeTask(s, lost);
    var i := Next(s);
    var todo, work := s.worker.task.value.todo, Work(s.log[i]);
    TaskTail(s, lost);
    FailureEndsPlan(s.tables, s.log[i], s.worker.task.value);
    FailureIsNoOp(s.tables, todo[0]);
    var before := Trimmed(s.log, s.origin.value, i, lost);
    assert work == Current(s) + [todo[0]];
    assert before + work == (before + Current(s)) + [todo[0]];
    ExecSnoc(EMPTY, before + Current(s), todo[0]);
    EntryIsBehind(s, Do(s, ExecStatement), lost, lost);
  }

  lemma TaskTail(s: State, lost: map<nat, nat>)
    requires OnTrack(s, lost) && s.worker.Busy? && s.worker.task.Some?
    ensures s.origin.Some? && s.origin.value <= Next(s) < |s.log|
    ensures var work, todo := Work(s.log[Next(s)]), s.worker.task.value.todo;
      && |todo| <= |work| && work == Current(s) + todo
    ensures s.tables == Exec(EMPTY, Trimmed(s.log, s.origin.value, Next(s), lost) + Current(s))
  {
    hide Exec, WellPlanned;
    WholeTask(s, lost);
  }

  lemma ExecOnTrack(s: State, lost: map<nat, nat>)
    requires OnTrack(s, lost) && Enabled(s, ExecStatement) && !Fails(s.tables, s.worker.task.value.todo[0])
    ensures OnTrack(Do(s, ExecStatement), lost)
  {
    hide Exec, WellPlanned, Apply, Fails, Trimmed, TaskFits;
    WholeTask(s, lost);
    var s' := Do(s, ExecStatement);
    var i, task := Next(s), s.worker.task.value;
    TaskFitsAfter(s.tables, s.log[i], task);
    TaskTail(s, lost);
    var before := Trimmed(s.log, s.origin.value, i, lost);
    NextCurrent(s, s', lost);
    assert before + Current(s') == (before + Current(s)) + [task.todo[0]];
    ExecSnoc(EMPTY, before + Current(s), task.todo[0]);
  }

  lemma NextCurrent(s: State, s': State, lost: map<nat, nat>)
    requires OnTrack(s, lost) && Enabled(s, ExecStatement) && s.worker.task.value.todo != []
    requires s'.worker == s.worker.(task := Some(s.worker.task.value.(todo := s.worker.task.value.todo[1..])))
    ensures Current(s') == Current(s) + [s.worker.task.value.todo[0]]
  {
    hide Exec, WellPlanned, Trimmed;
    WholeTask(s, lost);
    var work, todo := Work(s.log[Next(s)]), s.worker.task.value.todo;
    TaskTail(s, lost);
    assert work[|work| - |todo|] == todo[0];
  }

  /** An event that ends with everything run. */
  lemma FinishOnTrack(s: State, s': State, lost: map<nat, nat>)
    requires OnTrack(s, lost) && s.worker.Busy? && s.worker.task.Some? && s.worker.task.value.todo == []
    requires s' == EndEvent(s).(outbox := s'.outbox)
    ensures OnTrack(s', lost)
  {
    hide Exec, WellPlanned, OnTrack, Trimmed;
    WholeTask(s, lost);
    TaskTail(s, lost);
    assert Current(s) + [] == Current(s);
    EntryIsBehind(s, s', lost, lost);
  }

  /** An event that a lost SQL call cuts off. */
  lemma LossOnTrack(s: State, lost: map<nat, nat>)
    requires OnTrack(s, lost) && LosesWork(s, TransientError)
    ensures OnTrack(Do(s, TransientError), lost + LossOf(s, TransientError))
  {
    hide Exec, WellPlanned, OnTrack, Trimmed, TaskFits, Work, Apply, Fails;
    WholeTask(s, lost);
    TaskTail(s, lost);
    var i, n := Next(s), RanOfTask(s.worker);
    var lost' := lost + map[i := n];
    assert Part(s.log, i, lost') == Current(s);
    EntryIsBehind(s, Do(s, TransientError), lost, lost');
  }

  lemma FetchOnTrack(s: State, step: Step, lost: map<nat, nat>)
    requires OnTrack(s, lost) && step.Fetch? && Enabled(s, step)
    ensures OnTrack(Do(s, step), lost)
  {
    hide Exec, WellPlanned, StartLedger;
    FetchResumes(s, step);
    var u := Do(s, step);
    assert Current(u) == [];
    if s.cursor.token.None? {
      ExecNothing(EMPTY);
      assert Trimmed(u.log, u.origin.value, Next(u), lost) + Current(u) == [];
    } else {
      assert Next(u) == Next(s) && Current(s) == [];
    }
    FreshPage(u);
  }

  lemma CommitOnTrack(s: State, lost: map<nat, nat>)
    requires OnTrack(s, lost) && Enabled(s, CommitCursor)
    ensures OnTrack(Do(s, CommitCursor), lost)
  {
    hide Exec, WellPlanned, TaskFits, NextCursor;
    CommitAdvances(s);
    NothingCommitted(s);
    if s.worker.events == [] && s.cursor.token.None? { FirstPageEmpty(s, lost); }
  }

  lemma NothingCommitted(s: State)
    requires s.worker.Busy?
    ensures NextCursor(s.worker.advance, s.worker.events).None? ==> s.worker.events == []
  {
  }

  /** Before anything is committed, only the fetched page can have written anything. */
  lemma FirstPageEmpty(s: State, lost: map<nat, nat>)
    requires OnTrack(s, lost) && Enabled(s, CommitCursor) && s.worker.events == [] && s.cursor.token.None?
    ensures s.tables == EMPTY && lost == map[]
  {
    hide WellPlanned;
    assert s.origin.value == Next(s);
    assert Trimmed(s.log, s.origin.value, Next(s), lost) + Current(s) == [];
    assert forall i :: i !in lost;
  }

  lemma AppendOnTrack(s: State, more: seq<LogEntry>, lost: map<nat, nat>)
    requires OnTrack(s, lost) && Enabled(s, Append(more))
    ensures OnTrack(Do(s, Append(more)), lost)
  {
    hide Exec, WellPlanned, TaskFits;
    if s.origin.Some? {
      TrimmedDependsOnPast(s.log, s.log + more, s.origin.value, Next(s), lost, lost);
    }
  }

  lemma RequestOnTrack(s: State, step: Step, lost: map<nat, nat>)
    requires OnTrack(s, lost) && Enabled(s, step)
    requires step.FetchFails? || step.CheckRegistration? || step.InsertWebhook? || step.DeleteWebhook?
    ensures OnTrack(Do(s, step), lost)
  {
    hide Exec, ValidLog, PageFits, Trimmed, HooksOf, IsParty;
  }

  lemma OnlyErrorsLose(s: State, step: Step, lost: map<nat, nat>)
    requires !LosesWork(s, step)
    ensures lost + LossOf(s, step) == lost
  {
  }

  lemma StepOnTrack(s: State, step: Step, lost: map<nat, nat>)
    requires OnTrack(s, lost) && Enabled(s, step) && !step.Crash? && !step.CommitFails?
    ensures OnTrack(Do(s, step), lost + LossOf(s, step))
  {
    hide OnTrack, Do, Enabled, LossOf;
    if LosesWork(s, step) {
      LossOnTrack(s, lost);
    } else {
      OnlyErrorsLose(s, step, lost);
      QuietStepOnTrack(s, step, lost);
    }
  }

  lemma QuietStepOnTrack(s: State, step: Step, lost: map<nat, nat>)
    requires OnTrack(s, lost) && Enabled(s, step) && !step.Crash? && !step.CommitFails? && !LosesWork(s, step)
    ensures OnTrack(Do(s, step), lost)
  {
    hide OnTrack, Apply, Fails, HooksOf;
    match step
    case Append(more) => AppendOnTrack(s, more, lost);
    case Fetch(_, _, _, _, _) => FetchOnTrack(s, step, lost);
    case BeginEvent => BeginOnTrack(s, lost);
    case ExecStatement =>
      if Fails(s.tables, s.worker.task.value.todo[0]) { FailureOnTrack(s, lost); } else { ExecOnTrack(s, lost); }
    case FinishEvent(_) => FinishOnTrack(s, Do(s, step), lost);
    case TransientError => FinishOnTrack(s, Do(s, step), lost);
    case CommitCursor => CommitOnTrack(s, lost);
    case _ => RequestOnTrack(s, step, lost);
  }

  lemma {:induction false} RunOnTrack(log: seq<LogEntry>, steps: seq<Step>, k: nat)
    requires ValidLog(log) && Schedule(Fresh(log), steps) && Straight(steps) && k <= |steps|
    ensures OnTrack(At(Fresh(log), steps, k), Losses(Fresh(log), steps, k))
  {
    hide OnTrack, Do, Enabled, LossOf;
    var s := Fresh(log);
    if k == 0 {
      assert steps[..0] == [];
      FreshOnTrack(log);
    } else {
      RunOnTrack(log, steps, k - 1);
      AtStep(s, steps, k - 1);
      assert steps[k - 1] in steps;
      StepOnTrack(At(s, steps, k - 1), steps[k - 1], Losses(s, steps, k - 1));
    }
  }

  lemma FreshOnTrack(log: seq<LogEntry>)
    requires ValidLog(log)
    ensures OnTrack(Fresh(log), map[])
  {
  }

  /**
   * After any straight run with any lost SQL calls, between polls, the tables are exactly the log's
   * statements up to the stored position minus the lost tails.
   */
  lemma StraightRunsLoseOnlyTails(log: seq<LogEntry>, steps: seq<Step>)
    requires ValidLog(log) && Schedule(Fresh(log), steps) && Straight(steps)
    ensures var s := Run(Fresh(log), steps);
            s.worker.Idle? && s.origin.Some? ==>
              && s.origin.value <= Position(s) <= |s.log|
              && s.tables == Exec(EMPTY, Trimmed(s.log, s.origin.value, Position(s),
                                                 Losses(Fresh(log), steps, |steps|)))
  {
    hide Exec, Do, Enabled, ValidLog;
    RunOnTrack(log, steps, |steps|);
    assert steps[..|steps|] == steps;
    var s, lost := Run(Fresh(log), steps), Losses(Fresh(log), steps, |steps|);
    if s.worker.Idle? && s.origin.Some? {
      assert Trimmed(s.log, s.origin.value, Position(s), lost) + Current(s)
             == Trimmed(s.log, s.origin.value, Position(s), lost);
    }
  }

  /** A trimmed log with its one loss taken out. */
  lemma OneTail(log: seq<LogEntry>, origin: nat, p: nat, c: nat)
    requires origin <= p < |log| && c <= |Work(log[p])|
    ensures Trimmed(log, origin, |log|, map[p := c])
         == Flatten(log[origin..p]) + Work(log[p])[..c] + Flatten(log[p + 1..])
  {
    TrimmedOfNothing(log, origin, p, map[p := c]);
    TrimmedAfter(log, origin, p, |log|, map[p := c]);
    assert log[p + 1..|log|] == log[p + 1..];
  }

  lemma {:induction false} TrimmedAfter(log: seq<LogEntry>, origin: nat, p: nat, b: nat, lost: map<nat, nat>)
    requires origin <= p < b <= |log| && forall i | p < i < b :: i !in lost
    ensures Trimmed(log, origin, b, lost)
         == Trimmed(log, origin, p, lost) + Part(log, p, lost) + Flatten(log[p + 1..b])
    decreases b
  {
    hide Work, Flatten;
    if b == p + 1 {
      assert log[p + 1..b] == [];
      FlattenNothing();
      assert Trimmed(log, origin, b, lost) + [] == Trimmed(log, origin, b, lost);
    } else {
      TrimmedAfter(log, origin, p, b - 1, lost);
      FlattenSplit(log, p + 1, b - 1, b);
      FlattenOne(log, b - 1);
    }
  }

  /** The tables where the event at `p` was cut after `c` statements, and where it would have run to its end. */
  function AtLoss(log: seq<LogEntry>, origin: nat, p: nat, c: nat): Tables
    requires origin <= p < |log| && c <= |Work(log[p])|
  {
    Exec(Fold(EMPTY, log, origin, p), Work(log[p])[..c])
  }

  /**
   * When one lost SQL call matters.  A straight run that lost the tail of the event at `p` and is idle
   * at the end of the log agrees with the log if, and only if, every column on which the tables differ
   * is overwritten by a later event, as soon as they have the same rows: at once if the tail creates no
   * row, else once the lost rows have been created by later events.  A lost row that no later event
   * creates is missing for good.
   */
  lemma OneLossMatters(log: seq<LogEntry>, steps: seq<Step>, p: nat, c: nat)
    requires ValidLog(log) && Schedule(Fresh(log), steps) && Straight(steps)
    requires var s := Run(Fresh(log), steps);
      && s.worker.Idle? && s.origin.Some? && Position(s) == |s.log| && s.origin.value <= p < |s.log|
      && c <= |Work(s.log[p])| && Losses(Fresh(log), steps, |steps|) == map[p := c]
    ensures var s := Run(Fresh(log), steps);
            var t, u, rest := AtLoss(s.log, s.origin.value, p, c), Fold(EMPTY, s.log, s.origin.value, p + 1),
                Flatten(s.log[p + 1..]);
      && u == Exec(t, Work(s.log[p])[c..])
      && s.tables == Exec(t, rest) && Fold(EMPTY, s.log, s.origin.value, |s.log|) == Exec(u, rest)
      && (forall n | 0 <= n <= |rest| && SameKeys(Exec(t, rest[..n]), Exec(u, rest[..n])) ::
            (s.tables == Fold(EMPTY, s.log, s.origin.value, |s.log|)
             <==> Heals(Exec(t, rest[..n]), Exec(u, rest[..n]), rest[n..])))
      && (forall row | !IsThere(t, row) && IsThere(u, row) && (forall q <- rest :: !Creates(q, row)) ::
            s.tables != Fold(EMPTY, s.log, s.origin.value, |s.log|))
  {
    hide Exec, Flatten, Do, Enabled, Schedule, Run, Losses, Trimmed, Heals, IsThere, Creates, ValidLog, Work,
         RowsWithin;
    var s := Run(Fresh(log), steps);
    var o := s.origin.value;
    StraightRunsLoseOnlyTails(log, steps);
    OneTail(s.log, o, p, c);
    var t, u, rest := AtLoss(s.log, o, p, c), Fold(EMPTY, s.log, o, p + 1), Flatten(s.log[p + 1..]);
    ExecAppend(EMPTY, Flatten(s.log[o..p]) + Work(s.log[p])[..c], rest);
    ExecAppend(EMPTY, Flatten(s.log[o..p]), Work(s.log[p])[..c]);
    FoldSplit(EMPTY, s.log, o, p + 1, |s.log|);
    FoldSplit(EMPTY, s.log, o, p, p + 1);
    FlattenOne(s.log, p);
    assert Work(s.log[p])[..c] + Work(s.log[p])[c..] == Work(s.log[p]);
    ExecAppend(Fold(EMPTY, s.log, o, p), Work(s.log[p])[..c], Work(s.log[p])[c..]);
    assert s.log[p + 1..|s.log|] == s.log[p + 1..];
    forall n | 0 <= n <= |rest| && SameKeys(Exec(t, rest[..n]), Exec(u, rest[..n]))
      ensures Exec(t, rest) == Exec(u, rest) <==> Heals(Exec(t, rest[..n]), Exec(u, rest[..n]), rest[n..])
    {
      HealsFrom(t, u, rest, n);
    }
    forall row | !IsThere(t, row) && IsThere(u, row) && (forall q <- rest :: !Creates(q, row))
      ensures s.tables != Fold(EMPTY, s.log, o, |s.log|)
    {
      MissingRowsDoNotHeal(t, u, rest, row);
    }
  }

  /**
   * When any number of lost SQL calls matter.  A straight run whose losses all lie before `q` and that is
   * idle at the end of the log agrees with the log if, and only if, every difference between the log
   * trimmed up to `q` and the log itself up to `q` heals in what follows.
   */
  lemma LossesMatter(log: seq<LogEntry>, steps: seq<Step>, q: nat)
    requires ValidLog(log) && Schedule(Fresh(log), steps) && Straight(steps)
    requires var s := Run(Fresh(log), steps);
      && s.worker.Idle? && s.origin.Some? && Position(s) == |s.log| && s.origin.value <= q <= |s.log|
      && forall i <- Losses(Fresh(log), steps, |steps|) :: i < q
    ensures var s := Run(Fresh(log), steps);
            var o, rest := s.origin.value, Flatten(s.log[q..]);
            var t, u := Exec(EMPTY, Trimmed(s.log, o, q, Losses(Fresh(log), steps, |steps|))), Fold(EMPTY, s.log, o, q);
      && s.tables == Exec(t, rest) && Fold(EMPTY, s.log, o, |s.log|) == Exec(u, rest)
      && (forall n | 0 <= n <= |rest| && SameKeys(Exec(t, rest[..n]), Exec(u, rest[..n])) ::
            (s.tables == Fold(EMPTY, s.log, o, |s.log|)
             <==> Heals(Exec(t, rest[..n]), Exec(u, rest[..n]), rest[n..])))
      && (forall row | IsThere(t, row) != IsThere(u, row) && (forall p <- rest :: !Creates(p, row)) ::
            s.tables != Fold(EMPTY, s.log, o, |s.log|))
  {
    hide Exec, Flatten, Do, Enabled, Schedule, Run, Losses, Trimmed, Heals, IsThere, Creates, ValidLog, RowsWithin;
    var s, lost := Run(Fresh(log), steps), Losses(Fresh(log), steps, |steps|);
    var o, rest := s.origin.value, Flatten(s.log[q..]);
    StraightRunsLoseOnlyTails(log, steps);
    TrimmedThenWhole(s.log, o, q, |s.log|, lost);
    assert s.log[q..|s.log|] == s.log[q..];
    ExecAppend(EMPTY, Trimmed(s.log, o, q, lost), rest);
    FoldSplit(EMPTY, s.log, o, q, |s.log|);
    DifferenceMatters(Exec(EMPTY, Trimmed(s.log, o, q, lost)), Fold(EMPTY, s.log, o, q), rest);
  }

  lemma {:induction false} TrimmedThenWhole(log: seq<LogEntry>, a: nat, q: nat, b: nat, lost: map<nat, nat>)
    requires a <= q <= b <= |log| && forall i <- lost :: i < q
    ensures Trimmed(log, a, b, lost) == Trimmed(log, a, q, lost) + Flatten(log[q..b])
    decreases b
  {
    hide Work, Flatten;
    if b == q {
      assert log[q..b] == [];
      FlattenNothing();
      assert Trimmed(log, a, q, lost) + [] == Trimmed(log, a, q, lost);
    } else {
      TrimmedThenWhole(log, a, q, b - 1, lost);
      FlattenSplit(log, q, b - 1, b);
      FlattenOne(log, b - 1);
    }
  }
}
