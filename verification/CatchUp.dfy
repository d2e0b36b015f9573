/** The tables can always be caught up from the stored cursor, and every applied event is announced. */
module CatchUp {
  import opened Tables
  import opened Replay
  import opened Events
  import opened Log
  import opened Machine

  /** What the chain and the RPC guarantee: the indexed part of the log is causal. */
  predicate CausalLog(s: State) {
    s.origin.Some? ==> s.origin.value <= |s.log| && Causal(s.seed, Flatten(s.log[s.origin.value..]))
  }

  /** The entries between two positions, in either order, have no statements to run. */
  predicate NothingBetween(log: seq<LogEntry>, a: nat, b: nat) {
    a <= |log| && b <= |log| && Flatten(if a <= b then log[a..b] else log[b..a]) == []
  }

  /** A bootstrap that is tried again may start elsewhere, as long as no statement lies between. */
  predicate SteadyStart(s: State, step: Step) {
    step.Fetch? && s.cursor.token.None? && s.origin.Some? ==> NothingBetween(s.log, s.origin.value, step.at)
  }

  /** A schedule without lost statements or a start that slid past any, on a log that stays causal. */
  predicate FaithfulSchedule(s: State, steps: seq<Step>)
    decreases |steps|
  {
    steps == []
    || (Enabled(s, steps[0]) && !LosesWork(s, steps[0]) && SteadyStart(s, steps[0]) && CausalLog(Do(s, steps[0]))
        && FaithfulSchedule(Do(s, steps[0]), steps[1..]))
  }

  /** Where the next fetch resumes: the stored cursor, or the bootstrap point before the first commit. */
  function Position(s: State): nat
    requires s.origin.Some?
  {
    if s.cursor.token.Some? then s.cursor.token.value else s.origin.value
  }

  /** The tables of one uninterrupted run over the log between two positions. */
  function Fold(seed: Tables, log: seq<LogEntry>, a: nat, b: nat): Tables
    requires a <= b <= |log|
  {
    Exec(seed, Flatten(log[a..b]))
  }

  /** Running the log from `at` on these tables gives the fold of the whole log. */
  predicate ReadyAt(t: Tables, seed: Tables, log: seq<LogEntry>, origin: nat, at: nat) {
    origin <= at <= |log|
    && Exec(t, Flatten(log[at..])) == Fold(seed, log, origin, |log|)
    && RowsWithin(Fold(seed, log, origin, at), t)
  }

  /** Statements of the fetched page that have not run. */
  function Unrun(w: Worker): seq<Statement>
    requires w.Busy? && w.done <= |w.events| && (w.task.Some? ==> w.done < |w.events|)
  {
    if w.task.Some? then w.task.value.todo + Flatten(w.events[w.done + 1..]) else Flatten(w.events[w.done..])
  }

  predicate IsTail(todo: seq<Statement>, ss: seq<Statement>) {
    |todo| <= |ss| && forall j | 0 <= j < |todo| :: todo[j] == ss[|ss| - |todo| + j]
  }

  /** The task is the tail of its event's plan, and a created escrow is there for its milestones. */
  predicate TaskFits(t: Tables, event: LogEntry, task: Task) {
    var plan := event.plan;
    event.success
    && task.id == event.id
    && task.finish == plan.finish
    && IsTail(task.todo, plan.statements)
    && (|task.todo| < |plan.statements| && plan.statements[0].UpsertEscrow? ==> plan.statements[0].id in t.escrows)
  }

  predicate PageFits(t: Tables, log: seq<LogEntry>, w: Worker)
    requires w.Busy?
  {
    w.from + |w.events| <= |log|
    && w.events == log[w.from..w.from + |w.events|]
    && w.done <= |w.events|
    && (if w.advance.Some? then w.advance.value == w.from + |w.events|
        else w.events != [] ==> w.events[|w.events| - 1].isEvent)
    && (w.task.Some? ==> w.done < |w.events| && TaskFits(t, w.events[w.done], w.task.value))
  }

  /** The tables are those of the fetch plus the part of the page that has run. */
  predicate PartWayThrough(t: Tables, w: Worker)
    requires w.Busy? && w.done <= |w.events| && (w.task.Some? ==> w.done < |w.events|)
  {
    var page, unrun := Flatten(w.events), Unrun(w);
    |unrun| <= |page|
    && page[|page| - |unrun|..] == unrun
    && t == Exec(w.base, page[..|page| - |unrun|])
  }

  predicate Inv(s: State) {
    ValidLog(s.log)
    && CausalLog(s)
    && (s.cursor.token.None? ==> s.cursor == NO_CURSOR)
    && (s.origin.None? ==> s.tables == s.seed && s.worker.Idle? && s.cursor == NO_CURSOR)
    && (s.origin.Some? && s.worker.Idle? ==> ReadyAt(s.tables, s.seed, s.log, s.origin.value, Position(s)))
    && (s.worker.Busy? ==>
          && s.worker.from == Position(s)
          && ReadyAt(s.worker.base, s.seed, s.log, s.origin.value, s.worker.from)
          && PageFits(s.tables, s.log, s.worker)
          && PartWayThrough(s.tables, s.worker))
  }

  // ----- the fold of a log seen from a ready database -----

  lemma FlattenSplit(log: seq<LogEntry>, a: nat, b: nat, c: nat)
    requires a <= b <= c <= |log|
    ensures Flatten(log[a..c]) == Flatten(log[a..b]) + Flatten(log[b..c])
  {
    assert log[a..c] == log[a..b] + log[b..c];
    FlattenAppend(log[a..b], log[b..c]);
  }

  lemma FoldSplit(seed: Tables, log: seq<LogEntry>, a: nat, b: nat, c: nat)
    requires a <= b <= c <= |log|
    ensures Fold(seed, log, a, c) == Exec(Fold(seed, log, a, b), Flatten(log[b..c]))
  {
    hide Exec, Flatten, Causal, RowsWithin;
    FlattenSplit(log, a, b, c);
    ExecAppend(seed, Flatten(log[a..b]), Flatten(log[b..c]));
  }

  /** From a ready database the rest of the log is causal too. */
  lemma CausalFromReady(t: Tables, seed: Tables, log: seq<LogEntry>, origin: nat, at: nat)
    requires ReadyAt(t, seed, log, origin, at) && Causal(seed, Flatten(log[origin..]))
    ensures Causal(t, Flatten(log[at..]))
  {
    hide Exec, Flatten, Causal;
    FlattenSplit(log, origin, at, |log|);
    assert log[origin..|log|] == log[origin..] && log[at..|log|] == log[at..];
    CausalTail(seed, t, Flatten(log[origin..at]), Flatten(log[at..]));
  }

  /** A database that was ready stays ready, at the same position, after any part of the rest has run. */
  lemma ReadyAfterPart(t: Tables, seed: Tables, log: seq<LogEntry>, origin: nat, at: nat, cut: nat)
    requires ReadyAt(t, seed, log, origin, at) && Causal(seed, Flatten(log[origin..]))
    requires cut <= |Flatten(log[at..])|
    ensures ReadyAt(Exec(t, Flatten(log[at..])[..cut]), seed, log, origin, at)
  {
    hide Exec, Flatten, Causal, Fold;
    var rest := Flatten(log[at..]);
    CausalFromReady(t, seed, log, origin, at);
    PartialRunAbsorbed(t, rest, cut);
    ExecKeepsRows(t, rest[..cut]);
  }

  /** After a whole page the database is ready at the end of the page. */
  lemma ReadyAfterPage(t: Tables, seed: Tables, log: seq<LogEntry>, origin: nat, at: nat, end: nat)
    requires ReadyAt(t, seed, log, origin, at) && at <= end <= |log|
    ensures ReadyAt(Exec(t, Flatten(log[at..end])), seed, log, origin, end)
  {
    hide Exec, Flatten, Causal, RowsWithin;
    var page := Flatten(log[at..end]);
    FlattenSplit(log, at, end, |log|);
    assert log[at..|log|] == log[at..] && log[end..|log|] == log[end..];
    ExecAppend(t, page, Flatten(log[end..]));
    FoldSplit(seed, log, origin, at, end);
    ExecRowsMonotone(Fold(seed, log, origin, at), t, page);
  }

  /** Readiness survives growth of the log. */
  lemma ReadyAfterAppend(t: Tables, seed: Tables, log: seq<LogEntry>, more: seq<LogEntry>, origin: nat, at: nat)
    requires ReadyAt(t, seed, log, origin, at)
    ensures ReadyAt(t, seed, log + more, origin, at)
  {
    hide Exec, Flatten, Causal, RowsWithin;
    var longer := log + more;
    assert longer[at..] == log[at..] + more;
    FlattenAppend(log[at..], more);
    ExecAppend(t, Flatten(log[at..]), Flatten(more));
    assert longer[origin..|longer|] == log[origin..|log|] + more;
    FlattenAppend(log[origin..|log|], more);
    ExecAppend(seed, Flatten(log[origin..|log|]), Flatten(more));
    assert longer[origin..at] == log[origin..at];
  }

  lemma PageIsPrefix(s: State)
    requires s.worker.Busy? && PageFits(s.tables, s.log, s.worker)
    ensures Flatten(s.worker.events) <= Flatten(s.log[s.worker.from..])
  {
    hide Flatten, TaskFits;
    var w := s.worker;
    FlattenSplit(s.log, w.from, w.from + |w.events|, |s.log|);
    assert s.log[w.from..|s.log|] == s.log[w.from..];
  }

  /** The catch-up property itself, in whatever state the worker is. */
  lemma ReadyNow(s: State)
    requires Inv(s) && s.origin.Some?
    ensures ReadyAt(s.tables, s.seed, s.log, s.origin.value, Position(s))
  {
    hide Exec, Flatten, Causal, TaskFits, Fold;
    if s.worker.Busy? {
      var w := s.worker;
      var page, rest := Flatten(w.events), Flatten(s.log[w.from..]);
      PageIsPrefix(s);
      var cut := |page| - |Unrun(w)|;
      assert page[..cut] == rest[..cut];
      ReadyAfterPart(w.base, s.seed, s.log, s.origin.value, w.from, cut);
    }
  }

  // ----- every step keeps the invariant -----

  lemma AppendKeeps(s: State, step: Step)
    requires Inv(s) && step.Append? && Enabled(s, step) && CausalLog(Do(s, step))
    ensures Inv(Do(s, step))
  {
    hide Exec, Flatten, Causal, TaskFits, Fold, ReadyAt, PartWayThrough, WellPlanned;
    if s.origin.Some? {
      if s.worker.Idle? {
        ReadyAfterAppend(s.tables, s.seed, s.log, step.more, s.origin.value, Position(s));
      } else {
        ReadyAfterAppend(s.worker.base, s.seed, s.log, step.more, s.origin.value, s.worker.from);
      }
    }
  }

  /** A fetch resumes right after the stored cursor. */
  lemma FetchResumes(s: State, step: Step)
    requires step.Fetch? && Enabled(s, step)
    ensures s.cursor.token.Some? ==> step.at == s.cursor.token.value
  {
  }

  lemma EmptyIsReady(seed: Tables, log: seq<LogEntry>, at: nat)
    requires at <= |log|
    ensures ReadyAt(seed, seed, log, at, at)
  {
    hide WellPlanned;
    assert log[at..] == log[at..|log|] && log[at..at] == [];
  }

  /** At a fetch nothing of the page has run. */
  lemma FreshPage(s: State)
    requires s.worker.Busy? && s.worker.done == 0 && s.worker.task.None? && PageFits(s.tables, s.log, s.worker)
             && s.tables == s.worker.base
    ensures PartWayThrough(s.tables, s.worker)
  {
    hide Flatten, TaskFits;
    var w := s.worker;
    assert w.events[0..] == w.events;
    assert Flatten(w.events)[0..] == Flatten(w.events) && Flatten(w.events)[..0] == [];
  }

  /** Where nothing lies between, the rest of the log runs the same statements. */
  lemma SameRest(log: seq<LogEntry>, a: nat, b: nat)
    requires NothingBetween(log, a, b)
    ensures a <= |log| && b <= |log| && Flatten(log[a..]) == Flatten(log[b..])
  {
    hide Flatten;
    var lo, hi := if a <= b then a else b, if a <= b then b else a;
    FlattenSplit(log, lo, hi, |log|);
    assert log[lo..|log|] == log[lo..] && log[hi..|log|] == log[hi..];
    assert [] + Flatten(log[hi..]) == Flatten(log[hi..]);
  }

  /** Where nothing lies between, a database that is ready to start at one place is ready to start at the other. */
  lemma ReadyElsewhere(t: Tables, seed: Tables, log: seq<LogEntry>, origin: nat, at: nat)
    requires ReadyAt(t, seed, log, origin, origin) && NothingBetween(log, origin, at)
    ensures ReadyAt(t, seed, log, at, at)
  {
    hide Exec, Flatten, RowsWithin;
    SameRest(log, origin, at);
    assert log[origin..|log|] == log[origin..] && log[at..|log|] == log[at..];
    assert log[origin..origin] == [] && log[at..at] == [];
  }

  lemma FetchKeeps(s: State, step: Step)
    requires Inv(s) && step.Fetch? && Enabled(s, step) && SteadyStart(s, step) && CausalLog(Do(s, step))
    ensures Inv(Do(s, step))
  {
    hide ReadyAt, RequestFor, ResolvesTo, ValidLog, PartWayThrough, Flatten, Causal;
    FetchResumes(s, step);
    if s.origin.None? {
      EmptyIsReady(s.seed, s.log, step.at);
    } else if s.cursor.token.None? {
      ReadyElsewhere(s.tables, s.seed, s.log, s.origin.value, step.at);
    }
    FreshPage(Do(s, step));
  }

  /** Keeping the page, only the tables and the place inside the page may move. */
  lemma SamePage(s: State, s': State)
    requires Inv(s) && s.worker.Busy? && s'.worker.Busy?
    requires s'.cursor == s.cursor && s'.log == s.log && s'.origin == s.origin && s'.seed == s.seed
    requires s'.worker == s.worker.(done := s'.worker.done, task := s'.worker.task)
    requires PageFits(s'.tables, s'.log, s'.worker) && PartWayThrough(s'.tables, s'.worker)
    ensures Inv(s')
  {
    hide Causal, ReadyAt, Fold, Flatten, ValidLog, PageFits, PartWayThrough;
  }

  /** Starting an event, or passing over one, runs nothing. */
  lemma UnrunAtBegin(s: State)
    requires Enabled(s, BeginEvent)
    ensures Unrun(Do(s, BeginEvent).worker) == Unrun(s.worker)
  {
    hide Flatten;
    FlattenFrom(s.worker.events, s.worker.done);
  }

  lemma BeginKeeps(s: State)
    requires Inv(s) && Enabled(s, BeginEvent)
    ensures Inv(Do(s, BeginEvent))
  {
    hide Exec, Flatten, Inv, ReadyAt, ValidLog, WellPlanned, Unrun;
    PageFacts(s);
    UnrunAtBegin(s);
    SamePage(s, Do(s, BeginEvent));
  }

  lemma PageFacts(s: State)
    requires Inv(s) && s.worker.Busy?
    ensures s.origin.Some? && PageFits(s.tables, s.log, s.worker) && PartWayThrough(s.tables, s.worker)
            && ValidLog(s.log)
    ensures ReadyAt(s.worker.base, s.seed, s.log, s.origin.value, s.worker.from)
  {
    hide ReadyAt, PageFits, PartWayThrough, ValidLog, CausalLog;
  }

  /** Only the last statement of an event can fail. */
  lemma FailureIsLast(s: State)
    requires Enabled(s, ExecStatement) && Fails(s.tables, s.worker.task.value.todo[0])
    requires Inv(s)
    ensures |s.worker.task.value.todo| == 1
  {
    hide Inv, PartWayThrough, ReadyAt, WellPlanned;
    PageFacts(s);
    var w := s.worker;
    assert s.log[w.from + w.done] == w.events[w.done];
    FailureEndsPlan(s.tables, w.events[w.done], w.task.value);
  }

  lemma FailureEndsPlan(t: Tables, event: LogEntry, task: Task)
    requires WellPlanned(event.plan) && TaskFits(t, event, task) && task.todo != [] && Fails(t, task.todo[0])
    ensures |task.todo| == 1
  {
    hide WellFormed;
    var ss := event.plan.statements;
    assert ss[|ss| - |task.todo|] == task.todo[0];
    assert task.todo[0] in ss;
  }

  /** One statement further into the page. */
  lemma OneFurther(base: Tables, page: seq<Statement>, unrun: seq<Statement>)
    requires 0 < |unrun| <= |page| && page[|page| - |unrun|..] == unrun
    ensures page[|page| - |unrun[1..]|..] == unrun[1..]
    ensures Exec(base, page[..|page| - |unrun[1..]|]) == Apply(Exec(base, page[..|page| - |unrun|]), unrun[0])
  {
    hide Exec, Apply;
    var cut := |page| - |unrun|;
    assert page[cut] == unrun[0];
    assert page[..cut + 1] == page[..cut] + [unrun[0]];
    ExecSnoc(base, page[..cut], unrun[0]);
  }

  lemma FailedStatementKeeps(s: State)
    requires Enabled(s, ExecStatement) && Fails(s.tables, s.worker.task.value.todo[0])
    requires Inv(s)
    ensures Inv(Do(s, ExecStatement))
  {
    hide Exec, Flatten, Inv, TaskFits, Apply, Fails, ReadyAt, ValidLog;
    PageFacts(s);
    FailureIsLast(s);
    var w := s.worker;
    var todo := w.task.value.todo;
    FailureIsNoOp(s.tables, todo[0]);
    assert Unrun(w) == [todo[0]] + Flatten(w.events[w.done + 1..]);
    OneFurther(w.base, Flatten(w.events), Unrun(w));
    assert Unrun(w)[1..] == Flatten(w.events[w.done + 1..]);
    SamePage(s, Do(s, ExecStatement));
  }

  lemma FailureIsNoOp(t: Tables, s: Statement)
    requires Fails(t, s)
    ensures Apply(t, s) == t
  {
  }

  /** The task still fits after its next statement. */
  lemma TaskFitsAfter(t: Tables, event: LogEntry, task: Task)
    requires TaskFits(t, event, task) && task.todo != []
    ensures TaskFits(Apply(t, task.todo[0]), event, task.(todo := task.todo[1..]))
  {
    var ss := event.plan.statements;
    assert ss[|ss| - |task.todo|] == task.todo[0];
    assert ss[|ss| - |task.todo| + 1..] == task.todo[1..];
    ApplyKeepsRows(t, task.todo[0]);
  }

  lemma LandedStatementKeeps(s: State)
    requires Enabled(s, ExecStatement) && !Fails(s.tables, s.worker.task.value.todo[0])
    requires Inv(s)
    ensures Inv(Do(s, ExecStatement))
  {
    hide Exec, Flatten, TaskFits, Apply, Fails, Inv, ReadyAt, ValidLog;
    var w, s' := s.worker, Do(s, ExecStatement);
    PageFacts(s);
    TaskFitsAfter(s.tables, w.events[w.done], w.task.value);
    OneFurther(w.base, Flatten(w.events), Unrun(w));
    assert Unrun(s'.worker) == Unrun(w)[1..];
    SamePage(s, s');
  }

  lemma ExecKeeps(s: State)
    requires Inv(s) && Enabled(s, ExecStatement)
    ensures Inv(Do(s, ExecStatement))
  {
    hide Inv, Do;
    if Fails(s.tables, s.worker.task.value.todo[0]) { FailedStatementKeeps(s); } else { LandedStatementKeeps(s); }
  }

  /** Moving on from an event with nothing left to run. */
  lemma UnrunAtEnd(s: State)
    requires s.worker.Busy? && s.worker.task.Some? && s.worker.task.value.todo == []
             && s.worker.done < |s.worker.events|
    ensures Unrun(EndEvent(s).worker) == Unrun(s.worker)
  {
    hide Flatten;
  }

  lemma EndedPage(s: State)
    requires s.worker.Busy? && s.worker.task.Some? && s.worker.task.value.todo == []
    requires PageFits(s.tables, s.log, s.worker) && PartWayThrough(s.tables, s.worker)
    ensures PageFits(s.tables, s.log, EndEvent(s).worker) && PartWayThrough(s.tables, EndEvent(s).worker)
  {
    hide Exec, Flatten, TaskFits, Unrun;
    UnrunAtEnd(s);
  }

  lemma EndedEventKeeps(s: State, s': State)
    requires Inv(s) && s.worker.Busy? && s.worker.task.Some? && s.worker.task.value.todo == []
    requires s' == EndEvent(s).(outbox := s'.outbox)
    ensures Inv(s')
  {
    hide Inv, ReadyAt, ValidLog, PageFits, PartWayThrough;
    PageFacts(s);
    EndedPage(s);
    SamePage(s, s');
  }

  lemma FinishKeeps(s: State, step: Step)
    requires Inv(s) && (step.FinishEvent? || step.TransientError?) && Enabled(s, step) && !LosesWork(s, step)
    ensures Inv(Do(s, step))
  {
    hide Inv, HooksOf;
    EndedEventKeeps(s, Do(s, step));
  }

  /** After its last event the whole page has run. */
  lemma PageHasRun(s: State)
    requires Enabled(s, CommitCursor) && PageFits(s.tables, s.log, s.worker) && PartWayThrough(s.tables, s.worker)
    ensures s.tables == Exec(s.worker.base, Flatten(s.log[s.worker.from..s.worker.from + |s.worker.events|]))
  {
    hide Exec, Flatten;
    var w := s.worker;
    FlattenFrom(w.events, w.done);
    assert Flatten(w.events)[..|Flatten(w.events)|] == Flatten(w.events);
  }

  /** The cursor stored after a page is the end of the page. */
  lemma CommitAdvances(s: State)
    requires s.worker.Busy? && ValidLog(s.log) && PageFits(s.tables, s.log, s.worker)
    ensures var next := NextCursor(s.worker.advance, s.worker.events);
            if next.Some? then next.value == s.worker.from + |s.worker.events| else s.worker.events == []
  {
    hide WellPlanned, TaskFits;
    var w := s.worker;
    if w.events != [] { assert w.events[|w.events| - 1] == s.log[w.from + |w.events| - 1]; }
  }

  lemma CommitKeeps(s: State)
    requires Inv(s) && Enabled(s, CommitCursor)
    ensures Inv(Do(s, CommitCursor))
  {
    hide Exec, Causal, Fold, Flatten, ReadyAt, ValidLog, PageFits, PartWayThrough, NextCursor;
    var w := s.worker;
    PageFacts(s);
    PageHasRun(s);
    CommitAdvances(s);
    PageIsOnLog(s);
    ReadyAfterPage(w.base, s.seed, s.log, s.origin.value, w.from, w.from + |w.events|);
  }

  lemma PageIsOnLog(s: State)
    requires s.worker.Busy? && PageFits(s.tables, s.log, s.worker)
    ensures s.worker.from + |s.worker.events| <= |s.log|
  {
  }

  /** A crash, or a cursor that could not be stored, leaves a database that is ready at the old position. */
  lemma AbandonKeeps(s: State, step: Step)
    requires Inv(s) && (step.Crash? || step.CommitFails?) && Enabled(s, step)
    ensures Inv(Do(s, step))
  {
    if s.origin.Some? { ReadyNow(s); }
  }

  lemma RequestsKeep(s: State, step: Step)
    requires Inv(s) && Enabled(s, step)
    requires step.FetchFails? || step.CheckRegistration? || step.InsertWebhook? || step.DeleteWebhook?
    ensures Inv(Do(s, step))
  {
    hide Exec, Causal, ReadyAt, Fold, Flatten, ValidLog, HooksOf, PageFits, PartWayThrough;
  }

  lemma StepKeepsInv(s: State, step: Step)
    requires Inv(s) && Enabled(s, step) && !LosesWork(s, step) && SteadyStart(s, step) && CausalLog(Do(s, step))
    ensures Inv(Do(s, step))
  {
    hide Inv, CausalLog, Do, Enabled;
    match step
    case Append(_) => AppendKeeps(s, step);
    case Fetch(_, _, _, _, _) => FetchKeeps(s, step);
    case FetchFails => RequestsKeep(s, step);
    case BeginEvent => BeginKeeps(s);
    case ExecStatement => ExecKeeps(s);
    case FinishEvent(_) => FinishKeeps(s, step);
    case TransientError => FinishKeeps(s, step);
    case CommitCursor => CommitKeeps(s);
    case CommitFails => AbandonKeeps(s, step);
    case Crash => AbandonKeeps(s, step);
    case CheckRegistration(_) => RequestsKeep(s, step);
    case InsertWebhook(_, _, _) => RequestsKeep(s, step);
    case DeleteWebhook(_, _) => RequestsKeep(s, step);
  }

  lemma SeedStays(s: State, step: Step)
    requires Enabled(s, step)
    ensures Do(s, step).seed == s.seed
  {
    hide Apply, Fails, HooksOf;
  }

  lemma {:induction false} FaithfulRun(s: State, steps: seq<Step>)
    requires Inv(s) && FaithfulSchedule(s, steps)
    ensures Schedule(s, steps) && Inv(Run(s, steps)) && Run(s, steps).seed == s.seed
    decreases |steps|
  {
    hide Inv, Do, Enabled, CausalLog, SteadyStart, LosesWork;
    if steps == [] {
    } else {
      SeedStays(s, steps[0]);
      StepKeepsInv(s, steps[0]);
      FaithfulRun(Do(s, steps[0]), steps[1..]);
    }
  }

  /**
   * The run-level theorem.  After any schedule of statements, crashes, failed fetches, failed
   * commits, log growth, page sizes and webhook requests, running the log from the stored cursor
   * on the current tables gives what one run over the whole indexed log gives on an empty database.
   */
  lemma AlwaysCatchesUp(log: seq<LogEntry>, steps: seq<Step>)
    requires ValidLog(log) && FaithfulSchedule(Fresh(log), steps)
    ensures Schedule(Fresh(log), steps)
    ensures var s := Run(Fresh(log), steps);
            s.origin.Some? ==>
              && s.origin.value <= Position(s) <= |s.log|
              && Exec(s.tables, Flatten(s.log[Position(s)..])) == Fold(EMPTY, s.log, s.origin.value, |s.log|)
    ensures var s := Run(Fresh(log), steps);
            s.origin.Some? && s.worker.Idle? && Position(s) == |s.log| ==>
              s.tables == Fold(EMPTY, s.log, s.origin.value, |s.log|)
  {
    FaithfulRun(Fresh(log), steps);
    var s := Run(Fresh(log), steps);
    if s.origin.Some? { ReadyNow(s); }
  }
}
