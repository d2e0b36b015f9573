/** Catching up, escrow by escrow: what is lost of one escrow does not keep the others from converging. */
module PerEscrow {
  import opened Base
  import opened Tables
  import opened Replay
  import opened Events
  import opened Log
  import opened Isolation
  import opened Machine
  import opened CatchUp
  import opened RowRules
  import opened Safety

  predicate Concerns(plan: Plan, x: EscrowId) {
    plan.statements != [] && plan.statements[0].Escrow() == x
  }

  /** The log as seen from one escrow: other escrows' events are there but have nothing to run. */
  function SeenEntry(e: LogEntry, x: EscrowId): LogEntry {
    if Concerns(e.plan, x) then e else e.(plan := Plan([], Ignore))
  }

  function SeenLog(log: seq<LogEntry>, x: EscrowId): (seen: seq<LogEntry>)
    ensures |seen| == |log| && forall i | 0 <= i < |log| :: seen[i] == SeenEntry(log[i], x)
  {
    seq(|log|, i requires 0 <= i < |log| => SeenEntry(log[i], x))
  }

  function SeenTask(w: Worker, x: EscrowId): Option<Task>
    requires w.Busy?
  {
    if w.task.Some? && w.done < |w.events| && !Concerns(w.events[w.done].plan, x)
    then Some(Task(w.task.value.id, [], Ignore))
    else w.task
  }

  function SeenWorker(w: Worker, x: EscrowId): Worker {
    if w.Idle? then Idle
    else Busy(w.from, SeenLog(w.events, x), w.advance, w.latest, w.done, SeenTask(w, x), Slice(w.base, x), 0)
  }

  /** The service as seen from one escrow, webhooks aside. */
  function Seen(s: State, x: EscrowId): State {
    State(Slice(s.tables, x), map[], s.cursor, [], {}, SeenWorker(s.worker, x), SeenLog(s.log, x), s.origin,
          Slice(s.seed, x))
  }

  // ----- the log as seen from one escrow -----

  lemma SeenIsValid(log: seq<LogEntry>, x: EscrowId)
    requires ValidLog(log)
    ensures ValidLog(SeenLog(log, x))
  {
    hide WellPlanned;
    NothingIsWellPlanned();
  }

  lemma SeenSlice(log: seq<LogEntry>, a: nat, b: nat, x: EscrowId)
    requires a <= b <= |log|
    ensures SeenLog(log, x)[a..b] == SeenLog(log[a..b], x)
  {
  }

  lemma SeenAppend(log: seq<LogEntry>, more: seq<LogEntry>, x: EscrowId)
    ensures SeenLog(log + more, x) == SeenLog(log, x) + SeenLog(more, x)
  {
  }

  /** What an entry is seen to run is what it runs on that escrow. */
  lemma SeenWork(e: LogEntry, x: EscrowId)
    requires WellPlanned(e.plan)
    ensures Work(SeenEntry(e, x)) == About(Work(e), x)
  {
    hide WellFormed;
    var ss := e.plan.statements;
    if e.success {
      if Concerns(e.plan, x) { AboutOwn(ss, x); } else { AboutNone(ss, x); }
    }
  }

  lemma {:induction false} SeenFlatten(log: seq<LogEntry>, x: EscrowId)
    requires forall e <- log :: WellPlanned(e.plan)
    ensures Flatten(SeenLog(log, x)) == About(Flatten(log), x)
    decreases |log|
  {
    hide WellPlanned, Work, About;
    if log == [] {
      AboutNothing(x);
    } else {
      assert log[0] in log;
      SeenWork(log[0], x);
      assert SeenLog(log, x)[1..] == SeenLog(log[1..], x);
      SeenFlatten(log[1..], x);
      AboutAppend(Work(log[0]), Flatten(log[1..]), x);
    }
  }

  lemma AboutNothing(x: EscrowId)
    ensures About([], x) == []
  {
  }

  lemma SeenTail(log: seq<LogEntry>, a: nat, b: nat, x: EscrowId)
    requires ValidLog(log) && a <= b <= |log|
    ensures Flatten(SeenLog(log, x)[a..b]) == About(Flatten(log[a..b]), x)
  {
    hide WellPlanned, Flatten, About;
    SeenSlice(log, a, b, x);
    SeenFlatten(log[a..b], x);
  }

  lemma {:induction false} SeenCount(log: seq<LogEntry>, x: EscrowId)
    ensures EventCount(SeenLog(log, x)) == EventCount(log)
    decreases |log|
  {
    if log == [] {
    } else {
      assert SeenLog(log, x)[1..] == SeenLog(log[1..], x);
      SeenCount(log[1..], x);
    }
  }

  // ----- steps as seen from one escrow -----

  /** The step does not lose statements of this escrow. */
  predicate Spares(s: State, step: Step, x: EscrowId) {
    LosesWork(s, step) && s.worker.done < |s.worker.events| ==> !Concerns(s.worker.events[s.worker.done].plan, x)
  }

  /** The part of the indexed log that names this escrow is causal. */
  predicate CausalFor(s: State, x: EscrowId) {
    s.origin.Some? ==> s.origin.value <= |s.log| && Causal(Slice(s.seed, x), About(Flatten(s.log[s.origin.value..]), x))
  }

  /** A bootstrap that is tried again may start elsewhere, as long as no statement on this escrow lies between. */
  predicate SparingStart(s: State, step: Step, x: EscrowId) {
    step.Fetch? && s.cursor.token.None? && s.origin.Some? ==>
      var a, b := s.origin.value, step.at;
      a <= |s.log| && b <= |s.log| && About(Flatten(if a <= b then s.log[a..b] else s.log[b..a]), x) == []
  }

  /** A schedule that is faithful as far as one escrow goes: other escrows may lose anything. */
  predicate SparingSchedule(s: State, steps: seq<Step>, x: EscrowId)
    decreases |steps|
  {
    steps == []
    || (Enabled(s, steps[0]) && Spares(s, steps[0], x) && SparingStart(s, steps[0], x)
        && CausalFor(Do(s, steps[0]), x)
        && SparingSchedule(Do(s, steps[0]), steps[1..], x))
  }

  lemma SeenCausal(s: State, x: EscrowId)
    requires ValidLog(s.log) && CausalFor(s, x)
    ensures CausalLog(Seen(s, x))
  {
    hide Flatten, About, Causal, WellPlanned;
    if s.origin.Some? {
      var o := s.origin.value;
      SeenTail(s.log, o, |s.log|, x);
      assert s.log[o..|s.log|] == s.log[o..];
      assert SeenLog(s.log, x)[o..|s.log|] == SeenLog(s.log, x)[o..];
    }
  }

  /** Statements of an escrow fail, or not, by its own rows alone. */
  lemma SeenFails(t: Tables, p: Statement, x: EscrowId)
    requires p.Escrow() == x
    ensures Fails(Slice(t, x), p) == Fails(t, p)
  {
  }

  /** Going from `s` to `u` looks, from the escrow, like no step or like this one. */
  predicate Shows(s: State, u: State, x: EscrowId, steps: seq<Step>) {
    (steps == [] && Seen(u, x) == Seen(s, x))
    || (|steps| == 1 && Enabled(Seen(s, x), steps[0]) && !LosesWork(Seen(s, x), steps[0])
        && SteadyStart(Seen(s, x), steps[0]) && Do(Seen(s, x), steps[0]) == Seen(u, x))
  }

  lemma SteadyIsSeen(s: State, step: Step, x: EscrowId)
    requires SparingStart(s, step, x) && ValidLog(s.log)
    ensures SteadyStart(Seen(s, x), step)
  {
    hide Flatten, About, ValidLog;
    if step.Fetch? && s.cursor.token.None? && s.origin.Some? {
      var a, b := s.origin.value, step.at;
      SeenTail(s.log, if a <= b then a else b, if a <= b then b else a, x);
    }
  }

  lemma FetchShows(s: State, step: Step, x: EscrowId)
    requires step.Fetch? && Enabled(s, step) && SparingStart(s, step, x) && ValidLog(s.log)
    ensures Shows(s, Do(s, step), x, [step])
  {
    SteadyIsSeen(s, step, x);
    FetchIsSeen(s, step, x);
  }

  lemma FetchIsSeen(s: State, step: Step, x: EscrowId)
    requires step.Fetch? && Enabled(s, step)
    ensures Enabled(Seen(s, x), step) && Do(Seen(s, x), step) == Seen(Do(s, step), x)
  {
    hide Slice, EventCount, SeenEntry, RequestFor;
    SeenSlice(s.log, step.at, step.at + step.count, x);
    SeenCount(s.log[step.at..step.at + step.count], x);
    SeenLedgers(s.log, x);
  }

  lemma SeenLedgers(log: seq<LogEntry>, x: EscrowId)
    ensures forall i | 0 <= i < |log| ::
              SeenLog(log, x)[i].ledger == log[i].ledger && SeenLog(log, x)[i].isEvent == log[i].isEvent
              && SeenLog(log, x)[i].id == log[i].id && SeenLog(log, x)[i].success == log[i].success
  {
  }

  lemma AppendShows(s: State, more: seq<LogEntry>, x: EscrowId)
    requires Enabled(s, Append(more))
    ensures Shows(s, Do(s, Append(more)), x, [Append(SeenLog(more, x))])
  {
    hide Slice, WellPlanned;
    SeenAppend(s.log, more, x);
    SeenIsValid(s.log + more, x);
  }

  lemma BeginShows(s: State, x: EscrowId)
    requires Enabled(s, BeginEvent)
    ensures Shows(s, Do(s, BeginEvent), x, [BeginEvent])
  {
    hide Slice;
  }

  /** An event that is over, however it ended. */
  lemma EndShows(s: State, u: State, x: EscrowId)
    requires s.worker.Busy? && s.worker.task.Some? && s.worker.done < |s.worker.events|
    requires u == EndEvent(s).(outbox := u.outbox)
    requires Concerns(s.worker.events[s.worker.done].plan, x) ==> s.worker.task.value.todo == []
    ensures Shows(s, u, x, [FinishEvent(false)])
  {
    hide Slice, SeenEntry;
  }

  /** A failing statement of this escrow ends its event, seen from here too. */
  lemma OwnFailureShows(s: State, x: EscrowId)
    requires Safe(s) && Enabled(s, ExecStatement) && Fails(s.tables, s.worker.task.value.todo[0])
    requires Concerns(s.worker.events[s.worker.done].plan, x)
    ensures Shows(s, Do(s, ExecStatement), x, [ExecStatement])
  {
    hide Slice, SeenEntry, Fails, Apply, Consistent, HooksOwned, OutboxBacked, InOrder;
    OwnStatement(s, x);
    SeenFails(s.tables, s.worker.task.value.todo[0], x);
  }

  lemma OwnStatementShows(s: State, x: EscrowId)
    requires Safe(s) && Enabled(s, ExecStatement) && !Fails(s.tables, s.worker.task.value.todo[0])
    requires Concerns(s.worker.events[s.worker.done].plan, x)
    ensures Shows(s, Do(s, ExecStatement), x, [ExecStatement])
  {
    hide Slice, SeenEntry, Fails, Apply, Consistent, HooksOwned, OutboxBacked, InOrder;
    OwnStatement(s, x);
    SeenFails(s.tables, s.worker.task.value.todo[0], x);
    SliceStep(s.tables, s.worker.task.value.todo[0], x);
  }

  lemma OtherStatementShows(s: State, x: EscrowId)
    requires Safe(s) && Enabled(s, ExecStatement) && !Fails(s.tables, s.worker.task.value.todo[0])
    requires !Concerns(s.worker.events[s.worker.done].plan, x)
    ensures Shows(s, Do(s, ExecStatement), x, [])
  {
    hide Slice, SeenEntry, Fails, Apply, Consistent, HooksOwned, OutboxBacked, InOrder;
    OwnStatement(s, x);
    SliceStep(s.tables, s.worker.task.value.todo[0], x);
  }

  /** The statement about to run names the escrow its event concerns. */
  lemma OwnStatement(s: State, x: EscrowId)
    requires Safe(s) && s.worker.Busy? && s.worker.task.Some? && s.worker.task.value.todo != []
    ensures s.worker.done < |s.worker.events|
    ensures s.worker.task.value.todo[0].Escrow() == x <==> Concerns(s.worker.events[s.worker.done].plan, x)
  {
    hide WellFormed, Consistent, HooksOwned, OutboxBacked, InOrder, RowsThere;
    var w := s.worker;
    assert s.log[w.from + w.done] == w.events[w.done];
    var ss, todo := w.events[w.done].plan.statements, w.task.value.todo;
    assert ss[|ss| - |todo|] == todo[0] && todo[0] in ss;
  }

  lemma TaskIsInside(s: State)
    requires Safe(s) && s.worker.Busy? && s.worker.task.Some?
    ensures s.worker.done < |s.worker.events|
  {
    hide Consistent, HooksOwned, OutboxBacked, InOrder, ValidLog, TaskOnPlan;
  }

  lemma ExecShows(s: State, x: EscrowId) returns (steps: seq<Step>)
    requires Safe(s) && Enabled(s, ExecStatement)
    ensures Shows(s, Do(s, ExecStatement), x, steps)
  {
    hide Safe, Shows, Fails, Apply, Concerns;
    TaskIsInside(s);
    if Concerns(s.worker.events[s.worker.done].plan, x) {
      steps := [ExecStatement];
      if Fails(s.tables, s.worker.task.value.todo[0]) { OwnFailureShows(s, x); } else { OwnStatementShows(s, x); }
    } else if Fails(s.tables, s.worker.task.value.todo[0]) {
      steps := [FinishEvent(false)];
      EndShows(s, Do(s, ExecStatement), x);
    } else {
      steps := [];
      OtherStatementShows(s, x);
    }
  }

  lemma AttemptEndShows(s: State, step: Step, x: EscrowId)
    requires Enabled(s, step) && (step.FetchFails? || step.CommitCursor? || step.CommitFails? || step.Crash?)
    ensures Shows(s, Do(s, step), x, [step])
  {
    hide Slice, SeenEntry;
    if s.worker.Busy? { SeenLedgers(s.worker.events, x); }
  }

  lemma RequestShows(s: State, step: Step, x: EscrowId)
    requires Enabled(s, step) && (step.CheckRegistration? || step.InsertWebhook? || step.DeleteWebhook?)
    ensures Shows(s, Do(s, step), x, [])
  {
    hide Slice, SeenEntry;
  }

  lemma StepShows(s: State, step: Step, x: EscrowId) returns (steps: seq<Step>)
    requires Safe(s) && Enabled(s, step) && Spares(s, step, x) && SparingStart(s, step, x)
    ensures Shows(s, Do(s, step), x, steps)
  {
    hide Safe, Shows, Concerns, Apply, Fails, HooksOf, RequestFor, ResolvesTo, ValidLog;
    match step
    case Append(more) => AppendShows(s, more, x); steps := [Append(SeenLog(more, x))];
    case Fetch(_, _, _, _, _) => SafeIsValid(s); FetchShows(s, step, x); steps := [step];
    case BeginEvent => BeginShows(s, x); steps := [BeginEvent];
    case ExecStatement => steps := ExecShows(s, x);
    case FinishEvent(_) => TaskIsInside(s); EndShows(s, Do(s, step), x); steps := [FinishEvent(false)];
    case TransientError => TaskIsInside(s); EndShows(s, Do(s, step), x); steps := [FinishEvent(false)];
    case CheckRegistration(_) => RequestShows(s, step, x); steps := [];
    case InsertWebhook(_, _, _) => RequestShows(s, step, x); steps := [];
    case DeleteWebhook(_, _) => RequestShows(s, step, x); steps := [];
    case _ => AttemptEndShows(s, step, x); steps := [step];
  }

  /** Every sparing schedule is, as seen from the escrow, a faithful one. */
  lemma {:induction false} ScheduleShows(s: State, steps: seq<Step>, x: EscrowId) returns (seen: seq<Step>)
    requires Safe(s) && SparingSchedule(s, steps, x)
    ensures Schedule(s, steps) && Safe(Run(s, steps))
    ensures FaithfulSchedule(Seen(s, x), seen) && Schedule(Seen(s, x), seen)
    ensures Run(Seen(s, x), seen) == Seen(Run(s, steps), x)
    decreases |steps|
  {
    hide Safe, Do, Enabled, Spares, SparingStart, SteadyStart, CausalFor, CausalLog, LosesWork, Seen;
    if steps == [] {
      seen := [];
    } else {
      var u := Do(s, steps[0]);
      var first := StepShows(s, steps[0], x);
      StepIsSafe(s, steps[0]);
      SafeIsValid(u);
      SeenCausal(u, x);
      seen := ScheduleShows(u, steps[1..], x);
      if first == [] {
      } else {
        assert ([first[0]] + seen)[1..] == seen;
        seen := [first[0]] + seen;
      }
    }
  }

  lemma SafeIsValid(s: State)
    requires Safe(s)
    ensures ValidLog(s.log)
  {
    hide ValidLog;
  }

  lemma FreshIsSeen(log: seq<LogEntry>, x: EscrowId)
    requires ValidLog(log)
    ensures Seen(Fresh(log), x) == Fresh(SeenLog(log, x)) && Safe(Fresh(log))
  {
    assert Slice(EMPTY, x) == EMPTY;
  }

  /**
   * Convergence, one escrow at a time.  After any schedule in which no lost SQL call cuts an event of
   * this escrow, whatever other escrows lose, and as long as this escrow's own events are causal,
   * running its part of the log from the stored cursor on its rows gives its rows of the fold; idle at
   * the end of the log they are its rows of the fold.
   */
  lemma EachEscrowCatchesUp(log: seq<LogEntry>, steps: seq<Step>, x: EscrowId)
    requires ValidLog(log) && SparingSchedule(Fresh(log), steps, x)
    ensures Schedule(Fresh(log), steps)
    ensures var s := Run(Fresh(log), steps);
            s.origin.Some? ==>
              && s.origin.value <= Position(s) <= |s.log|
              && Exec(Slice(s.tables, x), About(Flatten(s.log[Position(s)..]), x))
                  == Slice(Fold(EMPTY, s.log, s.origin.value, |s.log|), x)
    ensures var s := Run(Fresh(log), steps);
            s.origin.Some? && s.worker.Idle? && Position(s) == |s.log| ==>
              Slice(s.tables, x) == Slice(Fold(EMPTY, s.log, s.origin.value, |s.log|), x)
  {
    hide Flatten, About, Exec, Slice, Run, Schedule, FaithfulSchedule, SparingSchedule, Safe, ValidLog;
    FreshIsSeen(log, x);
    SeenIsValid(log, x);
    var seen := ScheduleShows(Fresh(log), steps, x);
    AlwaysCatchesUp(SeenLog(log, x), seen);
    var s := Run(Fresh(log), steps);
    SafeIsValid(s);
    if s.origin.Some? {
      var o, p := s.origin.value, Position(s);
      SeenTail(s.log, p, |s.log|, x);
      SeenTail(s.log, o, |s.log|, x);
      assert s.log[p..|s.log|] == s.log[p..] && SeenLog(s.log, x)[p..|s.log|] == SeenLog(s.log, x)[p..];
      SliceOfRun(EMPTY, Flatten(s.log[o..|s.log|]), x);
      EmptySlice(x);
    }
  }

  lemma EmptySlice(x: EscrowId)
    ensures Slice(EMPTY, x) == EMPTY
  {
  }

  // ----- a causal log is causal for each escrow -----

  lemma MissingIsLocal(t: Tables, p: Statement)
    ensures Missing(Slice(t, p.Escrow()), p) == Missing(t, p)
  {
  }

  /** Where the statement at `i` of an escrow's own list stands in the whole list. */
  lemma {:induction false} AboutAt(ss: seq<Statement>, x: EscrowId, i: nat) returns (j: nat)
    requires i < |About(ss, x)|
    ensures j < |ss| && ss[j] == About(ss, x)[i] && ss[j].Escrow() == x && About(ss[..j], x) == About(ss, x)[..i]
    decreases |ss|
  {
    if ss[0].Escrow() == x && i == 0 {
      j := 0;
      assert ss[..0] == [] && About(ss, x)[..0] == [];
    } else {
      var skip := if ss[0].Escrow() == x then 1 else 0;
      var rest := About(ss[1..], x);
      assert About(ss, x) == (if skip == 1 then [ss[0]] else []) + rest;
      j := AboutAt(ss[1..], x, i - skip);
      assert ss[..j + 1][0] == ss[0] && ss[..j + 1][1..] == ss[1..][..j];
      j := j + 1;
    }
  }

  /** So the whole-log theorem is the special case of no losses at all. */
  lemma CausalForEach(ss: seq<Statement>, x: EscrowId)
    requires Causal(EMPTY, ss)
    ensures Causal(EMPTY, About(ss, x))
  {
    hide Exec, Missing, Slice;
    var own := About(ss, x);
    EmptySlice(x);
    forall i | 0 <= i < |own| && Missing(Exec(EMPTY, own[..i]), own[i]) ensures Missing(Exec(EMPTY, own), own[i]) {
      var j := AboutAt(ss, x, i);
      SliceOfRun(EMPTY, ss[..j], x);
      SliceOfRun(EMPTY, ss, x);
      MissingIsLocal(Exec(EMPTY, ss[..j]), ss[j]);
      MissingIsLocal(Exec(EMPTY, ss), ss[j]);
    }
  }
}
