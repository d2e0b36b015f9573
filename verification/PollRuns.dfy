/** A poll of the running indexer is a schedule of the state machine. */
module PollRuns {
  import opened Base
  import opened Tables
  import opened Replay
  import opened Events
  import opened Log
  import opened Machine
  import opened CatchUp
  import opened Poll
  import Indexer

  /** Steps inside a page: nothing lost, and the log does not move. */
  predicate Quiet(steps: seq<Step>) {
    forall p <- steps :: p == BeginEvent || p == ExecStatement || p == FinishEvent(true)
  }

  lemma {:induction false} QuietIsFaithful(s: State, steps: seq<Step>)
    requires Quiet(steps) && Schedule(s, steps) && CausalLog(s)
    ensures FaithfulSchedule(s, steps)
    decreases |steps|
  {
    hide Causal, Flatten, Apply, Fails, HooksOf;
    if steps == [] {
    } else {
      assert steps[0] in steps;
      forall p <- steps[1..] ensures p == BeginEvent || p == ExecStatement || p == FinishEvent(true) {
        assert p in steps;
      }
      QuietIsFaithful(Do(s, steps[0]), steps[1..]);
    }
  }

  /** The state once the current event is over. */
  function AfterTask(s: State): State
    requires s.worker.Busy? && s.worker.task.Some?
  {
    var task := s.worker.task.value;
    var run := RunPlan(s.tables, task.todo);
    EndEvent(s.(
      tables := run.tables,
      outbox := if run.completed && task.finish.Notify? then s.outbox + [NoticeOf(s.hooks, task.id, task.finish)]
                else s.outbox))
  }

  lemma {:induction false} TaskRun(s: State) returns (steps: seq<Step>)
    requires s.worker.Busy? && s.worker.task.Some?
    ensures Quiet(steps) && Schedule(s, steps) && Run(s, steps) == AfterTask(s)
    decreases |s.worker.task.value.todo|
  {
    hide Apply, Fails, HooksOf;
    var todo := s.worker.task.value.todo;
    if todo == [] {
      steps := [FinishEvent(true)];
      RunOne(s, FinishEvent(true));
    } else if Fails(s.tables, todo[0]) {
      steps := [ExecStatement];
      RunOne(s, ExecStatement);
    } else {
      var rest := TaskRun(Do(s, ExecStatement));
      steps := [ExecStatement] + rest;
      RunFirst(s, ExecStatement, rest);
    }
  }

  lemma RunOne(s: State, step: Step)
    requires Enabled(s, step)
    ensures Schedule(s, [step]) && Run(s, [step]) == Do(s, step)
  {
    hide Do, Enabled;
    assert [step][1..] == [];
  }

  lemma RunFirst(s: State, step: Step, rest: seq<Step>)
    requires Enabled(s, step) && Schedule(Do(s, step), rest)
    ensures Schedule(s, [step] + rest) && Run(s, [step] + rest) == Run(Do(s, step), rest)
  {
    hide Do, Enabled;
    assert ([step] + rest)[1..] == rest;
  }

  /** The state after the rest of the page. */
  function AfterPage(s: State): State
    requires s.worker.Busy? && s.worker.done <= |s.worker.events|
  {
    var p := ProcessPage(Progress(s.tables, s.outbox), s.hooks, s.worker.events[s.worker.done..]);
    s.(tables := p.tables, outbox := p.outbox, worker := s.worker.(done := |s.worker.events|))
  }

  lemma {:induction false} PageRun(s: State) returns (steps: seq<Step>)
    requires s.worker.Busy? && s.worker.task.None? && s.worker.done <= |s.worker.events|
    ensures Quiet(steps) && Schedule(s, steps) && Run(s, steps) == AfterPage(s)
    decreases |s.worker.events| - s.worker.done
  {
    hide HooksOf, RunPlan;
    var w := s.worker;
    if w.done == |w.events| {
      steps := [];
      assert w.events[w.done..] == [];
    } else {
      assert w.events[w.done..][0] == w.events[w.done] && w.events[w.done..][1..] == w.events[w.done + 1..];
      var u := Do(s, BeginEvent);
      if w.events[w.done].success {
        var inside := TaskRun(u);
        var rest := PageRun(AfterTask(u));
        RunAppend(u, inside, rest);
        steps := [BeginEvent] + (inside + rest);
        RunFirst(s, BeginEvent, inside + rest);
      } else {
        var rest := PageRun(u);
        steps := [BeginEvent] + rest;
        RunFirst(s, BeginEvent, rest);
      }
    }
  }

  /** The state a poll leaves, in the terms of the indexer's own contract: from the events of the page alone. */
  function AfterPoll(s: State, fetch: Step, commits: bool): State
    requires fetch.Fetch? && Enabled(s, fetch)
  {
    var page := OnlyEvents(s.log[fetch.at..fetch.at + fetch.count]);
    var p := ProcessPage(Progress(s.tables, s.outbox), s.hooks, page);
    var next := NextCursor(fetch.advance, page);
    s.(tables := p.tables, outbox := p.outbox,
       origin := if s.cursor.token.None? then Some(fetch.at) else s.origin,
       cursor := if next.Some? && commits then Cursor(fetch.reported, next) else s.cursor)
  }

  lemma {:induction false} FaithfulAppend(s: State, a: seq<Step>, b: seq<Step>)
    requires FaithfulSchedule(s, a) && Schedule(s, a) && FaithfulSchedule(Run(s, a), b)
    ensures FaithfulSchedule(s, a + b)
    decreases |a|
  {
    hide CausalLog, Do, Enabled, LosesWork, SteadyStart;
    if a == [] {
      assert a + b == b;
    } else {
      assert (a + b)[0] == a[0] && (a + b)[1..] == a[1..] + b;
      FaithfulAppend(Do(s, a[0]), a[1..], b);
    }
  }

  /** Ending the attempt turns the state after the page into the state after the poll. */
  lemma AttemptEnds(s: State, fetch: Step, commits: bool)
    requires fetch.Fetch? && Enabled(s, fetch)
    requires ValidLog(s.log)
    ensures var paged := AfterPage(Do(s, fetch));
            var last := if commits then CommitCursor else CommitFails;
            Enabled(paged, last) && Do(paged, last) == AfterPoll(s, fetch, commits)
  {
    hide ProcessPage, ResolvesTo, RequestFor, WellPlanned, OnlyEvents, EventCount;
    var fetched := Do(s, fetch);
    var page := fetched.worker.events;
    assert page[0..] == page;
    if fetch.advance.None? && page != [] { assert page[|page| - 1] == s.log[fetch.at + fetch.count - 1]; }
    forall e <- page ensures e.success ==> e.isEvent { assert e in s.log; }
    PageIsItsEvents(Progress(s.tables, s.outbox), s.hooks, page, fetch.advance);
  }

  /** How many cursors a schedule stores. */
  function Commits(steps: seq<Step>): nat {
    if steps == [] then 0 else (if steps[0].CommitCursor? then 1 else 0) + Commits(steps[1..])
  }

  lemma {:induction false} CommitsAppend(a: seq<Step>, b: seq<Step>)
    ensures Commits(a + b) == Commits(a) + Commits(b)
    decreases |a|
  {
    if a == [] {
      assert a + b == b;
    } else {
      assert (a + b)[0] == a[0] && (a + b)[1..] == a[1..] + b;
      CommitsAppend(a[1..], b);
    }
  }

  lemma {:induction false} QuietCommitsNothing(steps: seq<Step>)
    requires Quiet(steps)
    ensures Commits(steps) == 0
  {
    if steps == [] {
    } else {
      assert steps[0] in steps;
      forall p <- steps[1..] ensures p == BeginEvent || p == ExecStatement || p == FinishEvent(true) {
        assert p in steps;
      }
      QuietCommitsNothing(steps[1..]);
    }
  }

  /** Every poll, its cursor stored or not, is a faithful schedule; so the run-level theorems cover it. */
  lemma PollIsASchedule(s: State, fetch: Step, commits: bool) returns (steps: seq<Step>)
    requires fetch.Fetch? && Enabled(s, fetch) && SteadyStart(s, fetch) && CausalLog(Do(s, fetch)) && ValidLog(s.log)
    ensures FaithfulSchedule(s, steps) && Schedule(s, steps) && Run(s, steps) == AfterPoll(s, fetch, commits)
    ensures Commits(steps) == if commits then 1 else 0
  {
    var fetched := Do(s, fetch);
    var inside := PageRun(fetched);
    QuietIsFaithful(fetched, inside);
    QuietCommitsNothing(inside);
    var paged := AfterPage(fetched);
    var last := if commits then CommitCursor else CommitFails;
    AttemptEnds(s, fetch, commits);
    steps := Assemble(s, fetch, inside, last);
  }

  lemma EndKeepsLog(s: State, last: Step)
    requires (last.CommitCursor? || last.CommitFails?) && Enabled(s, last)
    ensures Do(s, last).log == s.log && Do(s, last).origin == s.origin && Do(s, last).seed == s.seed
  {
  }

  lemma Assemble(s: State, fetch: Step, inside: seq<Step>, last: Step) returns (steps: seq<Step>)
    requires fetch.Fetch? && Enabled(s, fetch) && SteadyStart(s, fetch) && CausalLog(Do(s, fetch))
    requires Schedule(Do(s, fetch), inside) && FaithfulSchedule(Do(s, fetch), inside)
    requires var paged := Run(Do(s, fetch), inside);
             (last.CommitCursor? || last.CommitFails?) && Enabled(paged, last) && paged.log == Do(s, fetch).log
                 && paged.origin == Do(s, fetch).origin && paged.seed == Do(s, fetch).seed
    ensures FaithfulSchedule(s, steps) && Schedule(s, steps) && Run(s, steps) == Do(Run(Do(s, fetch), inside), last)
    ensures Commits(steps) == Commits(inside) + Commits([last])
  {
    hide Do, Causal, Flatten, Enabled;
    var fetched := Do(s, fetch);
    var paged := Run(fetched, inside);
    var tail := [last];
    RunOne(paged, last);
    assert tail[1..] == [];
    EndKeepsLog(paged, last);
    assert FaithfulSchedule(Do(paged, last), []);
    assert CausalLog(Do(paged, last));
    assert FaithfulSchedule(paged, tail);
    RunAppend(fetched, inside, tail);
    FaithfulAppend(fetched, inside, tail);
    steps := [fetch] + (inside + tail);
    RunFirst(s, fetch, inside + tail);
    assert steps[1..] == inside + tail;
    CommitsAppend(inside, tail);
  }

  /** The request of a fetch, and what its page does, as the indexer's contract puts them. */
  lemma PageOfFetch(s: State, fetch: Step, commits: bool, page: Page)
    requires fetch.Fetch? && Enabled(s, fetch)
    requires EntriesOf(page.events) == OnlyEvents(s.log[fetch.at..fetch.at + fetch.count])
    requires page.cursor == fetch.advance && page.latestLedger == fetch.reported
    ensures var c := s.cursor;
      RequestFor(c, fetch.latest) ==
        if c.token.Some? then Request(startLedger := None, cursor := c.token, limit := 100)
        else if c.lastLedger != 0 then Request(startLedger := None, cursor := None, limit := 100)
        else Request(startLedger := Some(if fetch.latest > 17_280 then fetch.latest - 17_280 else 1), cursor := None,
                     limit := 100)
    ensures var u := AfterPoll(s, fetch, commits);
      var next := if page.cursor.Some? then page.cursor
                  else if page.events != [] then Some(page.events[|page.events| - 1].id) else None;
      && Progress(u.tables, u.outbox) == ProcessPage(Progress(s.tables, s.outbox), s.hooks, EntriesOf(page.events))
      && u.cursor == (if next.Some? && commits then Cursor(lastLedger := page.latestLedger, token := next)
                      else s.cursor)
      && u == s.(tables := u.tables, outbox := u.outbox, cursor := u.cursor, origin := u.origin)
  {
    hide ProcessPage, PlanOf, OnlyEvents, EventCount, ResolvesTo;
    var entries := EntriesOf(page.events);
    if entries != [] { assert entries[|entries| - 1] == EntryOf(page.events[|page.events| - 1]); }
  }

  /** What the indexer's database and outbox share with a state of the machine. */
  predicate Shows(indexer: Indexer.Indexer, s: State)
    reads indexer, indexer.db
  {
    indexer.db.Rows() == s.tables && indexer.outbox == s.outbox && indexer.db.webhooks == s.hooks
    && indexer.db.cursor == s.cursor
  }

  /**
   * The running indexer takes the machine's step: answered with the events of a page the machine may fetch,
   * a poll leaves the database, the outbox and the cursor that the machine's poll leaves.
   */
  method PollEndsInAfterPoll(indexer: Indexer.Indexer, ghost s: State, ghost fetch: Step, latest: Option<u32>,
                             respond: Request -> Option<Page>, commits: bool, clock: RpcEvent -> i64)
    returns (r: Result<nat, PollError>)
    requires Shows(indexer, s) && fetch.Fetch? && Enabled(s, fetch)
    requires s.cursor == Cursor(0, None) ==> latest == Some(fetch.latest)
    requires match respond(RequestFor(s.cursor, fetch.latest))
             case Some(page) =>
               EntriesOf(page.events) == OnlyEvents(s.log[fetch.at..fetch.at + fetch.count])
               && page.cursor == fetch.advance && page.latestLedger == fetch.reported
             case None => false
    modifies indexer`outbox, indexer`deliveries, indexer.db`escrows, indexer.db`milestones, indexer.db`disputes,
             indexer.db`cursor
    ensures Shows(indexer, AfterPoll(s, fetch, commits))
  {
    hide ProcessPage, PlanOf, OnlyEvents, EventCount, ResolvesTo, AfterPoll, RequestFor;
    ghost var page := respond(RequestFor(s.cursor, fetch.latest)).value;
    PageOfFetch(s, fetch, commits, page);
    r := indexer.PollOnce(true, latest, respond, commits, clock);
  }
}
