/** Whatever happened before, from a stored cursor on a faithful indexer does exactly this; and when that is enough. */
module Restarts {
  import opened Base
  import opened Tables
  import opened Replay
  import opened Healing
  import opened Log
  import opened Machine
  import opened CatchUp
  import opened Safety

  /** The same state, with the indexing measured from here: from its stored cursor, on its own tables. */
  function Restarted(s: State): State {
    s.(seed := s.tables, origin := s.cursor.token)
  }

  /** The two states differ at most in what they are measured from. */
  predicate SameService(s: State, u: State) {
    u == s.(seed := u.seed, origin := u.origin)
  }

  lemma SameStep(s: State, u: State, step: Step)
    requires SameService(s, u) && Enabled(u, step)
    ensures Enabled(s, step) && SameService(Do(s, step), Do(u, step))
  {
    hide Apply, Fails, HooksOf, ResolvesTo, RequestFor, ValidLog, IsParty;
  }

  /** So what they are measured from does not matter to any run. */
  lemma {:induction false} SameRun(s: State, u: State, steps: seq<Step>)
    requires SameService(s, u) && Schedule(u, steps)
    ensures Schedule(s, steps) && SameService(Run(s, steps), Run(u, steps))
    decreases |steps|
  {
    hide SameService, Do, Enabled;
    if steps == [] {
    } else {
      SameStep(s, u, steps[0]);
      SameRun(Do(s, steps[0]), Do(u, steps[0]), steps[1..]);
    }
  }

  /** Any idle place is a place to start from. */
  lemma RestartIsReady(s: State)
    requires ValidLog(s.log) && s.worker.Idle? && CursorStarted(s.cursor) && CausalLog(Restarted(s))
    ensures Inv(Restarted(s))
  {
    hide Causal, Flatten, ValidLog, ReadyAt;
    if s.cursor.token.Some? { EmptyIsReady(s.tables, s.log, s.cursor.token.value); }
  }

  lemma {:induction false} OriginStays(s: State, steps: seq<Step>)
    requires Schedule(s, steps) && s.cursor.token.Some?
    ensures Run(s, steps).cursor.token.Some? && Run(s, steps).origin == s.origin
    decreases |steps|
  {
    hide Do, Enabled;
    if steps == [] {
    } else {
      OriginStaysOnce(s, steps[0]);
      OriginStays(Do(s, steps[0]), steps[1..]);
    }
  }

  lemma OriginStaysOnce(s: State, step: Step)
    requires Enabled(s, step) && s.cursor.token.Some?
    ensures Do(s, step).cursor.token.Some? && Do(s, step).origin == s.origin
  {
    hide Apply, Fails, HooksOf;
  }

  /** From an idle place on, a faithful indexer runs the rest of the log on the tables it found. */
  lemma RestartRuns(s: State, steps: seq<Step>)
    requires ValidLog(s.log) && s.worker.Idle? && CursorStarted(s.cursor) && CausalLog(Restarted(s))
    requires FaithfulSchedule(Restarted(s), steps)
    ensures Schedule(Restarted(s), steps) && Schedule(s, steps)
    ensures SameService(Run(s, steps), Run(Restarted(s), steps))
    ensures var v := Run(Restarted(s), steps);
      && (s.cursor.token.Some? ==> v.origin == s.cursor.token)
      && (v.origin.Some? && v.worker.Idle? && Position(v) == |v.log| ==>
            v.origin.value <= |v.log| && v.tables == Exec(s.tables, Flatten(v.log[v.origin.value..])))
  {
    hide Inv, CausalLog, Exec, Flatten, FaithfulSchedule, ValidLog;
    var r := Restarted(s);
    RestartIsReady(s);
    FaithfulRun(r, steps);
    SameRun(s, r, steps);
    if s.cursor.token.Some? { OriginStays(r, steps); }
    var v := Run(r, steps);
    if v.origin.Some? && v.worker.Idle? && Position(v) == |v.log| { EndOfLog(v); }
  }

  lemma EndOfLog(s: State)
    requires Inv(s) && s.origin.Some? && s.worker.Idle? && Position(s) == |s.log|
    ensures s.origin.value <= |s.log| && s.tables == Exec(s.seed, Flatten(s.log[s.origin.value..]))
  {
    hide Causal, RowsWithin, ValidLog;
    assert s.log[|s.log|..] == [] && s.log[s.origin.value..|s.log|] == s.log[s.origin.value..];
  }

  /**
   * What losses, crashes and slid bootstraps cost in the end, exactly.  Take any idle moment of any run,
   * and let the indexer be faithful from then on until it is idle at the end of the log.  With `at` the
   * position it resumed from, `t` the tables it found and `u` those of an uninterrupted run from `o` to
   * `at`: the tables agree with the log from `o` on if, and only if, the difference between `t` and `u`
   * heals in the rest of the log.
   */
  lemma AnyPastHealsExactly(log: seq<LogEntry>, before: seq<Step>, after: seq<Step>, o: nat)
    requires ValidLog(log) && Schedule(Fresh(log), before)
    requires var s := Run(Fresh(log), before);
      s.worker.Idle? && CausalLog(Restarted(s)) && FaithfulSchedule(Restarted(s), after)
    ensures var s := Run(Fresh(log), before);
      && Schedule(s, after) && Schedule(Restarted(s), after)
      && var final, v := Run(s, after), Run(Restarted(s), after);
      && SameService(final, v)
      && (s.cursor.token.Some? ==> v.origin == s.cursor.token)
      && (v.origin.Some? && v.worker.Idle? && Position(v) == |v.log| && o <= v.origin.value ==>
            && v.origin.value <= |final.log|
            && ComparedFrom(final, s.tables, o, v.origin.value))
  {
    hide Safe, CausalLog, FaithfulSchedule, ComparedFrom, Flatten, Exec, ValidLog;
    SafeStart(log);
    RunIsSafe(Fresh(log), before);
    var s := Run(Fresh(log), before);
    SafeCursor(s);
    RestartRuns(s, after);
    var v := Run(Restarted(s), after);
    if v.origin.Some? && v.worker.Idle? && Position(v) == |v.log| && o <= v.origin.value {
      Compare(Run(s, after), s.tables, o, v.origin.value);
    }
  }

  /**
   * The final tables are those found at `at` with the rest of the log run on them, and they agree with
   * the log from `o` on exactly when the difference at `at` heals.
   */
  ghost predicate ComparedFrom(final: State, t: Tables, o: nat, at: nat)
    requires o <= at <= |final.log|
  {
    var u, rest, whole := Fold(EMPTY, final.log, o, at), Flatten(final.log[at..]),
        Fold(EMPTY, final.log, o, |final.log|);
    && final.tables == Exec(t, rest) && whole == Exec(u, rest)
    && (forall n | 0 <= n <= |rest| && SameKeys(Exec(t, rest[..n]), Exec(u, rest[..n])) ::
          (final.tables == whole <==> Heals(Exec(t, rest[..n]), Exec(u, rest[..n]), rest[n..])))
    && (forall row | IsThere(t, row) != IsThere(u, row) && (forall q <- rest :: !Creates(q, row)) ::
          final.tables != whole)
  }

  lemma Compare(final: State, t: Tables, o: nat, at: nat)
    requires o <= at <= |final.log| && final.tables == Exec(t, Flatten(final.log[at..]))
    ensures ComparedFrom(final, t, o, at)
  {
    hide Exec, Flatten, Heals, IsThere, Creates, RowsWithin;
    FoldSplit(EMPTY, final.log, o, at, |final.log|);
    assert final.log[at..|final.log|] == final.log[at..];
    DifferenceMatters(t, Fold(EMPTY, final.log, o, at), Flatten(final.log[at..]));
  }

  lemma SafeStart(log: seq<LogEntry>)
    requires ValidLog(log)
    ensures Safe(Fresh(log))
  {
  }

  lemma SafeCursor(s: State)
    requires Safe(s)
    ensures ValidLog(s.log) && CursorStarted(s.cursor)
  {
    hide ValidLog;
  }

  /**
   * A slid bootstrap in particular.  Nothing was committed when the indexer, idle after any failed
   * attempts from `s.origin`, bootstraps again further on; from then on it is faithful.  What lay between
   * the two starting points is made good if, and only if, the difference between the tables the attempts
   * left and an uninterrupted run up to the new starting point heals in the rest of the log.
   */
  lemma SlidBootstrapMatters(log: seq<LogEntry>, before: seq<Step>, fetch: Step, after: seq<Step>)
    requires ValidLog(log) && Schedule(Fresh(log), before) && fetch.Fetch?
    requires var s := Run(Fresh(log), before);
      && s.worker.Idle? && s.cursor == NO_CURSOR && s.origin.Some? && s.origin.value <= fetch.at
      && FaithfulSchedule(Restarted(s), [fetch] + after)
      && Schedule(s, [fetch] + after)
      && var final := Run(s, [fetch] + after);
         final.worker.Idle? && final.cursor.token == Some(|final.log|) && final.origin == Some(fetch.at)
    ensures var s := Run(Fresh(log), before);
            var final := Run(s, [fetch] + after);
            fetch.at <= |final.log| && ComparedFrom(final, s.tables, s.origin.value, fetch.at)
  {
    hide Safe, CausalLog, FaithfulSchedule, ComparedFrom, Flatten, Exec, ValidLog, Schedule, Run, Do, Enabled;
    var s := Run(Fresh(log), before);
    var steps := [fetch] + after;
    NothingIndexed(s);
    AnyPastHealsExactly(log, before, steps, s.origin.value);
    FetchSetsOrigin(s, fetch, after);
  }

  lemma NothingIndexed(s: State)
    requires s.cursor == NO_CURSOR
    ensures CausalLog(Restarted(s)) && Restarted(s).origin.None?
  {
  }

  /** A bootstrap sets the origin whatever it was, so both runs have the same one. */
  lemma FetchSetsOrigin(s: State, fetch: Step, after: seq<Step>)
    requires s.cursor == NO_CURSOR && fetch.Fetch? && Schedule(Restarted(s), [fetch] + after)
             && Schedule(s, [fetch] + after)
    ensures Run(Restarted(s), [fetch] + after).origin == Run(s, [fetch] + after).origin
  {
    hide SameService;
    var steps := [fetch] + after;
    assert steps[1..] == after;
    var a, b := Do(s, fetch), Do(Restarted(s), fetch);
    assert a.origin == b.origin;
    SameOrigin(a, b, after);
  }

  lemma {:induction false} SameOrigin(s: State, u: State, steps: seq<Step>)
    requires u == s.(seed := u.seed) && Schedule(s, steps) && Schedule(u, steps)
    ensures Run(u, steps) == Run(s, steps).(seed := Run(u, steps).seed)
    decreases |steps|
  {
    hide Do, Enabled;
    if steps == [] {
    } else {
      SameOriginOnce(s, u, steps[0]);
      SameOrigin(Do(s, steps[0]), Do(u, steps[0]), steps[1..]);
    }
  }

  lemma SameOriginOnce(s: State, u: State, step: Step)
    requires u == s.(seed := u.seed) && Enabled(s, step) && Enabled(u, step)
    ensures Do(u, step) == Do(s, step).(seed := Do(u, step).seed)
  {
    hide Apply, Fails, HooksOf;
  }
}
