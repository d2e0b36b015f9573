/** Two concrete runs that lose events for good: a failed SQL call, and a bootstrap that starts over later. */
module Losses {
  import opened Base
  import opened Tables
  import opened Events
  import opened Log
  import opened Isolation
  import opened Machine
  import opened CatchUp

  /** Dropping the statements of one escrow leaves every other escrow's rows as they would have been. */
  lemma LossStaysLocal(t: Tables, before: seq<Statement>, lost: seq<Statement>, after: seq<Statement>, x: EscrowId,
                       e: EscrowId)
    requires (forall s <- lost :: s.Escrow() == x) && e != x
    ensures Slice(Exec(t, before + lost + after), e) == Slice(Exec(t, before + after), e)
  {
    hide Exec, Slice;
    SliceOfRun(t, before + lost + after, e);
    SliceOfRun(t, before + after, e);
    AboutAppend(before + lost, after, e);
    AboutAppend(before, lost, e);
    AboutAppend(before, after, e);
    AboutNone(lost, e);
    assert About(before, e) + [] == About(before, e);
  }

  /** A created and then funded escrow. */
  function SampleLog(terms: EscrowTerms): seq<LogEntry> {
    [LogEntry(1, 7, true, true, Plan([UpsertEscrow(1, terms, "created", 7)], Notify(1, "escrow_created"))),
     LogEntry(2, 8, true, true, Plan([SetEscrowStatus(1, "funded", 8)], Notify(1, "escrow_funded")))]
  }

  const SAMPLE_TERMS: EscrowTerms := EscrowTerms("C", "G1", "G2", "G3", "T", 0, None, None, None, None)

  /** Both events fetched, the second one lost, and the cursor committed past it. */
  const LOSSY_STEPS: seq<Step> :=
    [Fetch(10, 0, 2, Some(2), 10), BeginEvent, ExecStatement, FinishEvent(true), BeginEvent, TransientError,
     CommitCursor]

  lemma SampleLogIsValid()
    ensures ValidLog(SampleLog(SAMPLE_TERMS))
  {
    var log := SampleLog(SAMPLE_TERMS);
    assert log[0].plan.statements == [UpsertEscrow(1, SAMPLE_TERMS, "created", 7)];
    assert log[1].plan.statements == [SetEscrowStatus(1, "funded", 8)];
  }

  const CREATE: Statement := UpsertEscrow(1, SAMPLE_TERMS, "created", 7)
  const FUND: Statement := SetEscrowStatus(1, "funded", 8)

  /** The state after the first event of the sample went through. */
  lemma FirstEvent() returns (s: State)
    ensures var log := SampleLog(SAMPLE_TERMS);
      && Schedule(Fresh(log), LOSSY_STEPS[..4]) && s == Run(Fresh(log), LOSSY_STEPS[..4])
      && s.tables == Apply(EMPTY, CREATE)
      && s.worker == Busy(0, log, Some(2), 10, 1, None, EMPTY, 0)
      && s.origin == Some(0) && s.log == log && s.cursor == NO_CURSOR
  {
    hide Apply, HooksOf, ResolvesTo, RequestFor;
    var log := SampleLog(SAMPLE_TERMS);
    var s0, steps := Fresh(log), LOSSY_STEPS[..4];
    StartsAt(10, 1, 0);
    assert log[0..2] == log;
    var s1 := Do(s0, steps[0]);
    var s2 := Do(s1, BeginEvent);
    var s3 := Do(s2, ExecStatement);
    s := Do(s3, FinishEvent(true));
    OneStep(s3, [FinishEvent(true)]);
    OneStep(s2, [ExecStatement, FinishEvent(true)]);
    OneStep(s1, [BeginEvent, ExecStatement, FinishEvent(true)]);
    assert steps == [Fetch(10, 0, 2, Some(2), 10), BeginEvent, ExecStatement, FinishEvent(true)];
    OneStep(s0, steps);
  }

  /** The second event is lost and the cursor committed. */
  lemma SecondEvent(s: State) returns (u: State)
    requires s.worker == Busy(0, SampleLog(SAMPLE_TERMS), Some(2), 10, 1, None, EMPTY, 0)
    ensures Schedule(s, LOSSY_STEPS[4..]) && u == Run(s, LOSSY_STEPS[4..])
    ensures u.tables == s.tables && u.worker.Idle? && u.cursor == Cursor(10, Some(2)) && u.log == s.log
            && u.origin == s.origin
  {
    hide Apply, HooksOf;
    var s1 := Do(s, BeginEvent);
    var s2 := Do(s1, TransientError);
    u := Do(s2, CommitCursor);
    OneStep(s2, [CommitCursor]);
    OneStep(s1, [TransientError, CommitCursor]);
    assert LOSSY_STEPS[4..] == [BeginEvent, TransientError, CommitCursor];
    OneStep(s, [BeginEvent, TransientError, CommitCursor]);
  }

  lemma OneStep(s: State, steps: seq<Step>)
    requires steps != [] && Enabled(s, steps[0])
    ensures Schedule(s, steps) == Schedule(Do(s, steps[0]), steps[1..])
    ensures Schedule(s, steps) ==> Run(s, steps) == Run(Do(s, steps[0]), steps[1..])
    ensures |steps| == 1 ==> Schedule(s, steps) && Run(s, steps) == Do(s, steps[0])
  {
    hide Do, Enabled;
  }

  lemma SampleFold()
    ensures Fold(EMPTY, SampleLog(SAMPLE_TERMS), 0, 2) == Apply(Apply(EMPTY, CREATE), FUND)
  {
    hide Apply;
    var log := SampleLog(SAMPLE_TERMS);
    assert log[0..2] == log && log[1..] == [log[1]] && [log[1]][1..] == [];
    assert Flatten(log) == [CREATE] + ([FUND] + []);
    assert Flatten(log) == [CREATE] + [FUND] && [CREATE][1..] == [];
    ExecSnoc(EMPTY, [CREATE], FUND);
  }

  /**
   * One lost statement is enough for the tables never to agree with the log: the cursor is at the
   * end, nothing is left to run, and the escrow still reads "created".
   */
  lemma LostEventsAreNotRecovered()
    ensures var log := SampleLog(SAMPLE_TERMS);
      && ValidLog(log) && Schedule(Fresh(log), LOSSY_STEPS)
      && var s := Run(Fresh(log), LOSSY_STEPS);
         s.worker.Idle? && s.origin == Some(0) && Position(s) == |s.log| && s.tables != Fold(EMPTY, s.log, 0, |s.log|)
  {
    hide Do, Enabled, ValidLog;
    SampleLogIsValid();
    var half := FirstEvent();
    var s := SecondEvent(half);
    RunAppend(Fresh(SampleLog(SAMPLE_TERMS)), LOSSY_STEPS[..4], LOSSY_STEPS[4..]);
    assert LOSSY_STEPS[..4] + LOSSY_STEPS[4..] == LOSSY_STEPS;
    SampleFold();
    assert Apply(EMPTY, CREATE).escrows[1].status == "created";
    assert Apply(Apply(EMPTY, CREATE), FUND).escrows[1].status == "funded";
    assert |"created"| == 7 && |"funded"| == 6;
  }

  // ----- a bootstrap that starts over later -----

  /**
   * A first page that was fetched but whose process died, and a second bootstrap much later: its
   * lookback window no longer reaches the first event.
   */
  const SLIDING_STEPS: seq<Step> :=
    [Fetch(10, 0, 2, Some(2), 10), Crash, Fetch(17_288, 1, 1, Some(2), 17_288), BeginEvent, ExecStatement,
     FinishEvent(true), CommitCursor]

  lemma FirstAttemptDies() returns (s: State)
    ensures var log := SampleLog(SAMPLE_TERMS);
      && Schedule(Fresh(log), SLIDING_STEPS[..2]) && s == Run(Fresh(log), SLIDING_STEPS[..2])
      && s == Fresh(log).(origin := Some(0))
  {
    hide ResolvesTo, RequestFor;
    var log := SampleLog(SAMPLE_TERMS);
    var s0, steps := Fresh(log), SLIDING_STEPS[..2];
    StartsAt(10, 1, 0);
    var s1 := Do(s0, steps[0]);
    s := Do(s1, Crash);
    OneStep(s1, [Crash]);
    assert steps == [Fetch(10, 0, 2, Some(2), 10), Crash];
    OneStep(s0, steps);
  }

  /** The position a bootstrap of the sample log resolves to. */
  lemma StartsAt(latest: u32, start: u32, at: nat)
    requires start == StartLedger(latest) && ((start <= 7 && at == 0) || (start == 8 && at == 1))
    ensures ResolvesTo(SampleLog(SAMPLE_TERMS), RequestFor(NO_CURSOR, latest), at)
  {
  }

  lemma SecondAttempt(s: State) returns (u: State)
    requires s == Fresh(SampleLog(SAMPLE_TERMS)).(origin := Some(0))
    ensures Schedule(s, SLIDING_STEPS[2..4]) && u == Run(s, SLIDING_STEPS[2..4])
    ensures u == s.(origin := Some(1),
                    worker := Busy(1, [s.log[1]], Some(2), 17_288, 0,
                                   Some(Task(2, [FUND], Notify(1, "escrow_funded"))), EMPTY, 0))
  {
    hide ResolvesTo, RequestFor;
    StartsAt(17_288, 8, 1);
    assert s.log[1..2] == [s.log[1]];
    var fetch := Fetch(17_288, 1, 1, Some(2), 17_288);
    var s1 := Do(s, fetch);
    u := Do(s1, BeginEvent);
    OneStep(s1, [BeginEvent]);
    assert SLIDING_STEPS[2..4] == [fetch, BeginEvent];
    OneStep(s, [fetch, BeginEvent]);
  }

  lemma FundAlone(s: State) returns (u: State)
    requires s.tables == EMPTY && s.log == SampleLog(SAMPLE_TERMS)
    requires s.worker == Busy(1, [s.log[1]], Some(2), 17_288, 0, Some(Task(2, [FUND], Notify(1, "escrow_funded"))),
                              EMPTY, 0)
    ensures Schedule(s, SLIDING_STEPS[4..]) && u == Run(s, SLIDING_STEPS[4..])
    ensures u.tables == Apply(EMPTY, FUND) && u.worker.Idle? && u.cursor == Cursor(17_288, Some(2)) && u.log == s.log
  {
    hide Apply, HooksOf, Fails;
    FundNeverFails();
    var s1 := Do(s, ExecStatement);
    var s2 := Do(s1, FinishEvent(true));
    u := Do(s2, CommitCursor);
    OneStep(s2, [CommitCursor]);
    OneStep(s1, [FinishEvent(true), CommitCursor]);
    assert SLIDING_STEPS[4..] == [ExecStatement, FinishEvent(true), CommitCursor];
    OneStep(s, [ExecStatement, FinishEvent(true), CommitCursor]);
  }

  lemma SlidingRun() returns (s: State)
    ensures var log := SampleLog(SAMPLE_TERMS);
      && Schedule(Fresh(log), SLIDING_STEPS) && s == Run(Fresh(log), SLIDING_STEPS)
      && s.tables == Apply(EMPTY, FUND) && s.worker.Idle? && s.cursor == Cursor(17_288, Some(2)) && s.log == log
  {
    hide Do, Enabled, Schedule, Run, Apply;
    var log := SampleLog(SAMPLE_TERMS);
    var a := FirstAttemptDies();
    var b := SecondAttempt(a);
    s := FundAlone(b);
    RunAppend(a, SLIDING_STEPS[2..4], SLIDING_STEPS[4..]);
    assert SLIDING_STEPS[2..4] + SLIDING_STEPS[4..] == SLIDING_STEPS[2..];
    RunAppend(Fresh(log), SLIDING_STEPS[..2], SLIDING_STEPS[2..]);
    assert SLIDING_STEPS[..2] + SLIDING_STEPS[2..] == SLIDING_STEPS;
  }

  lemma FundNeverFails()
    ensures forall t :: !Fails(t, FUND)
  {
  }

  /** No SQL call fails here, yet an event of the first page is never indexed: the cursor is past it. */
  lemma SlidingStartSkipsEvents()
    ensures var log := SampleLog(SAMPLE_TERMS);
      && ValidLog(log) && Schedule(Fresh(log), SLIDING_STEPS) && (forall p <- SLIDING_STEPS :: !Lossy(p))
      && var s := Run(Fresh(log), SLIDING_STEPS);
         s.worker.Idle? && s.cursor.token == Some(|s.log|) && s.tables != Fold(EMPTY, s.log, 0, |s.log|)
  {
    hide Do, Enabled, ValidLog;
    SampleLogIsValid();
    var s := SlidingRun();
    SampleFold();
    assert 1 in Apply(Apply(EMPTY, CREATE), FUND).escrows && 1 !in Apply(EMPTY, FUND).escrows;
  }
}
