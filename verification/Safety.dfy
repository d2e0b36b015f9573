/** What holds in every reachable state of every schedule, lost SQL calls included. */
module Safety {
  import opened Base
  import opened Tables
  import opened Events
  import opened Log
  import opened Replay
  import opened RowRules
  import opened Machine

  /** A stored or about-to-be-stored webhook belongs to a party of an escrow that is there. */
  predicate OwnedByParty(t: Tables, escrow: EscrowId, owner: string) {
    escrow in t.escrows && IsParty(t.escrows[escrow].terms, owner)
  }

  predicate HooksOwned(t: Tables, hooks: map<nat, Webhook>, pending: set<Registration>) {
    (forall id <- hooks :: OwnedByParty(t, hooks[id].escrow, hooks[id].owner) && IsHttp(hooks[id].url))
    && (forall r <- pending :: OwnedByParty(t, r.escrow, r.owner) && IsHttp(r.url))
  }

  /** A missing paging token means nothing was ever committed. */
  predicate CursorStarted(c: Cursor) { c.token.None? ==> c == NO_CURSOR }

  /** The rows a list of statements inserts are there. */
  predicate RowsThere(t: Tables, ss: seq<Statement>) {
    forall s <- ss | s.UpsertEscrow? || s.UpsertMilestone? || s.InsertDispute? :: Landed(t, s)
  }

  /** The worker is inside a page of the log, and inside the plan of one of its events. */
  predicate WorkerOnLog(s: State) {
    var w := s.worker;
    w.Busy? ==>
      && w.from + |w.events| <= |s.log|
      && w.events == s.log[w.from..w.from + |w.events|]
      && w.done <= |w.events|
      && (w.task.Some? ==> w.done < |w.events| && TaskOnPlan(s.tables, w.events[w.done], w.task.value))
  }

  predicate TaskOnPlan(t: Tables, event: LogEntry, task: Task) {
    var ss := event.plan.statements;
    event.success
    && task.id == event.id
    && task.finish == event.plan.finish
    && |task.todo| <= |ss|
    && task.todo == ss[|ss| - |task.todo|..]
    && RowsThere(t, ss[..|ss| - |task.todo|])
  }

  /** A notice is about an event of the log whose rows all exist. */
  predicate NoticeBacked(t: Tables, log: seq<LogEntry>, n: Notice) {
    0 < n.id <= |log|
    && log[n.id - 1].success
    && log[n.id - 1].plan.finish == Notify(n.escrow, n.name)
    && RowsThere(t, log[n.id - 1].plan.statements)
  }

  predicate OutboxBacked(t: Tables, log: seq<LogEntry>, outbox: seq<Notice>) {
    forall n <- outbox :: NoticeBacked(t, log, n)
  }

  /** Notices of the current attempt follow the order of the log. */
  predicate InOrder(s: State) {
    var w := s.worker;
    w.Busy? ==>
      && w.mark <= |s.outbox|
      && (forall i | w.mark <= i < |s.outbox| :: w.from < s.outbox[i].id <= w.from + w.done)
      && (forall i, j | w.mark <= i < j < |s.outbox| :: s.outbox[i].id < s.outbox[j].id)
  }

  predicate Safe(s: State) {
    ValidLog(s.log)
    && Consistent(s.tables)
    && HooksOwned(s.tables, s.hooks, s.pending)
    && CursorStarted(s.cursor)
    && WorkerOnLog(s)
    && OutboxBacked(s.tables, s.log, s.outbox)
    && InOrder(s)
  }

  lemma RowsStayThere(t: Tables, u: Tables, ss: seq<Statement>)
    requires RowsWithin(t, u) && RowsThere(t, ss)
    ensures RowsThere(u, ss)
  {
  }

  lemma OutboxStaysBacked(t: Tables, u: Tables, log: seq<LogEntry>, more: seq<LogEntry>, outbox: seq<Notice>)
    requires RowsWithin(t, u) && OutboxBacked(t, log, outbox)
    ensures OutboxBacked(u, log + more, outbox)
  {
    forall n <- outbox ensures NoticeBacked(u, log + more, n) {
      assert NoticeBacked(t, log, n);
      RowsStayThere(t, u, log[n.id - 1].plan.statements);
    }
  }

  lemma HooksStayOwned(t: Tables, u: Tables, hooks: map<nat, Webhook>, pending: set<Registration>)
    requires LaterThan(u, t) && HooksOwned(t, hooks, pending)
    ensures HooksOwned(u, hooks, pending)
  {
  }

  /** In terms of the columns: an owner is the client, the provider or the arbitrator of an escrow that is there. */
  lemma OwnersAreParties(t: Tables, hooks: map<nat, Webhook>, pending: set<Registration>)
    requires HooksOwned(t, hooks, pending)
    ensures forall id <- hooks ::
              && hooks[id].escrow in t.escrows
              && (hooks[id].owner == t.escrows[hooks[id].escrow].terms.client
                  || hooks[id].owner == t.escrows[hooks[id].escrow].terms.provider
                  || hooks[id].owner == t.escrows[hooks[id].escrow].terms.arbitrator)
              && ("https://" <= hooks[id].url || "http://" <= hooks[id].url)
    ensures forall r <- pending ::
              && r.escrow in t.escrows
              && (r.owner == t.escrows[r.escrow].terms.client || r.owner == t.escrows[r.escrow].terms.provider
                  || r.owner == t.escrows[r.escrow].terms.arbitrator)
              && ("https://" <= r.url || "http://" <= r.url)
  {
  }

  /**
   * The webhook requests of the machine are those of the service: a registration passes its check exactly
   * for a party of an existing escrow with an HTTP address, its insert stores what was checked under a new
   * id, and a deletion removes the owner's own webhook and nothing else.
   */
  lemma RequestSteps(s: State, r: Registration, id: nat, secret: string, owner: string)
    ensures Enabled(s, CheckRegistration(r)) <==>
              && ("https://" <= r.url || "http://" <= r.url)
              && r.escrow in s.tables.escrows
              && (r.owner == s.tables.escrows[r.escrow].terms.client
                  || r.owner == s.tables.escrows[r.escrow].terms.provider
                  || r.owner == s.tables.escrows[r.escrow].terms.arbitrator)
    ensures Enabled(s, CheckRegistration(r)) ==> Do(s, CheckRegistration(r)) == s.(pending := s.pending + {r})
    ensures Enabled(s, InsertWebhook(r, id, secret)) <==> r in s.pending && id !in s.hooks
    ensures r in s.pending && id !in s.hooks ==>
              Do(s, InsertWebhook(r, id, secret))
              == s.(pending := s.pending - {r}, hooks := s.hooks[id := Webhook(r.escrow, r.owner, r.url, secret)])
    ensures Enabled(s, DeleteWebhook(id, owner))
    ensures Do(s, DeleteWebhook(id, owner))
         == if id in s.hooks && s.hooks[id].owner == owner then s.(hooks := s.hooks - {id}) else s
  {
  }

  /** What goes wrong loses the work in hand and nothing that was written. */
  lemma FailureSteps(s: State)
    ensures Enabled(s, Crash) && Do(s, Crash) == s.(worker := Idle, pending := {})
    ensures Enabled(s, FetchFails) ==> Do(s, FetchFails) == s
    ensures Enabled(s, CommitFails) ==> Do(s, CommitFails) == s.(worker := Idle)
    ensures Enabled(s, TransientError) ==>
              Do(s, TransientError) == s.(worker := s.worker.(task := None, done := s.worker.done + 1))
    ensures Enabled(s, FinishEvent(false)) ==>
              Do(s, FinishEvent(false)) == s.(worker := s.worker.(task := None, done := s.worker.done + 1))
  {
  }

  lemma AppendIsSafe(s: State, more: seq<LogEntry>)
    requires Safe(s) && Enabled(s, Append(more))
    ensures Safe(Do(s, Append(more)))
  {
    hide Consistent, HooksOwned, TaskOnPlan, OutboxBacked;
    OutboxStaysBacked(s.tables, s.tables, s.log, more, s.outbox);
  }

  lemma OrderStays(s: State)
    requires Enabled(s, ExecStatement) && !Fails(s.tables, s.worker.task.value.todo[0]) && InOrder(s)
    ensures InOrder(Do(s, ExecStatement))
  {
    hide Apply, Fails;
  }

  lemma StatementIsSafe(s: State)
    requires Safe(s) && Enabled(s, ExecStatement) && !Fails(s.tables, s.worker.task.value.todo[0])
    ensures Safe(Do(s, ExecStatement))
  {
    hide Consistent, HooksOwned, OutboxBacked, InOrder, Apply, Fails, LaterThan, WellFormed, RowsThere, RowsWithin;
    OrderStays(s);
    var w, t, u := s.worker, s.tables, Do(s, ExecStatement).tables;
    var event, todo := w.events[w.done], w.task.value.todo;
    var ss := event.plan.statements;
    var k := |ss| - |todo|;
    assert s.log[w.from + w.done] == event;
    assert ss[k] == todo[0] && ss[k] in ss;
    ConsistentKept(t, todo[0]);
    StatementKeepsHistory(t, todo[0]);
    ApplyKeepsRows(t, todo[0]);
    HooksStayOwned(t, u, s.hooks, s.pending);
    assert s.log + [] == s.log;
    OutboxStaysBacked(t, u, s.log, [], s.outbox);
    RowsStayThere(t, u, ss[..k]);
    RowsThereSnoc(t, ss, k);
    assert ss[k + 1..] == todo[1..];
  }

  lemma RowsThereSnoc(t: Tables, ss: seq<Statement>, k: nat)
    requires k < |ss| && !Fails(t, ss[k]) && RowsThere(Apply(t, ss[k]), ss[..k])
    ensures RowsThere(Apply(t, ss[k]), ss[..k + 1])
  {
    hide Apply;
    ApplyKeepsRows(t, ss[k]);
    assert ss[..k + 1] == ss[..k] + [ss[k]];
  }

  lemma EndedEventIsSafe(s: State)
    requires Safe(s) && s.worker.Busy? && s.worker.task.Some?
    ensures Safe(EndEvent(s))
  {
    hide Consistent, HooksOwned, OutboxBacked, TaskOnPlan;
  }

  lemma FinishIsSafe(s: State, hooksLoad: bool)
    requires Safe(s) && Enabled(s, FinishEvent(hooksLoad))
    ensures Safe(Do(s, FinishEvent(hooksLoad)))
  {
    hide Consistent, HooksOwned, HooksOf, RowsThere;
    EndedEventIsSafe(s);
    var w := s.worker;
    var ss := w.events[w.done].plan.statements;
    assert s.log[w.from + w.done] == w.events[w.done];
    assert ss[..|ss|] == ss;
  }

  lemma BeginIsSafe(s: State)
    requires Safe(s) && Enabled(s, BeginEvent)
    ensures Safe(Do(s, BeginEvent))
  {
    hide Consistent, HooksOwned, OutboxBacked;
  }

  lemma IndexerStepIsSafe(s: State, step: Step)
    requires Safe(s) && Enabled(s, step)
    requires step.Fetch? || step.FetchFails? || step.CommitCursor? || step.CommitFails? || step.Crash?
    ensures Safe(Do(s, step))
  {
    hide Consistent, OutboxBacked, TaskOnPlan;
  }

  lemma RequestIsSafe(s: State, step: Step)
    requires Safe(s) && Enabled(s, step)
    requires step.CheckRegistration? || step.InsertWebhook? || step.DeleteWebhook?
    ensures Safe(Do(s, step))
  {
    hide Consistent, OutboxBacked, TaskOnPlan, ValidLog, HooksOf;
  }

  /** Every step, lossy or not, keeps the state safe and the tables' history. */
  lemma StepIsSafe(s: State, step: Step)
    requires Safe(s) && Enabled(s, step)
    ensures Safe(Do(s, step)) && LaterThan(Do(s, step).tables, s.tables)
  {
    hide Safe, LaterThan;
    match step
    case Append(more) => AppendIsSafe(s, more); LaterThanItself(s.tables);
    case BeginEvent => BeginIsSafe(s); LaterThanItself(s.tables);
    case ExecStatement =>
      var p := s.worker.task.value.todo[0];
      if Fails(s.tables, p) { EndedEventIsSafe(s); LaterThanItself(s.tables); }
      else { StatementIsSafe(s); StatementKeepsHistory(s.tables, p); }
    case FinishEvent(hooksLoad) => FinishIsSafe(s, hooksLoad); LaterThanItself(s.tables);
    case TransientError => EndedEventIsSafe(s); LaterThanItself(s.tables);
    case CheckRegistration(_) => RequestIsSafe(s, step); LaterThanItself(s.tables);
    case InsertWebhook(_, _, _) => RequestIsSafe(s, step); LaterThanItself(s.tables);
    case DeleteWebhook(_, _) => RequestIsSafe(s, step); LaterThanItself(s.tables);
    case _ => IndexerStepIsSafe(s, step); LaterThanItself(s.tables);
  }

  lemma LaterThanItself(t: Tables)
    ensures LaterThan(t, t)
  {
  }

  lemma {:induction false} RunIsSafe(s: State, steps: seq<Step>)
    requires Safe(s) && Schedule(s, steps)
    ensures Safe(Run(s, steps)) && LaterThan(Run(s, steps).tables, s.tables)
    decreases |steps|
  {
    hide Safe, LaterThan, Do, Enabled;
    LaterThanItself(s.tables);
    if steps == [] {
    } else {
      var u := Do(s, steps[0]);
      StepIsSafe(s, steps[0]);
      RunIsSafe(u, steps[1..]);
      LaterThanIsTransitive(s.tables, u.tables, Run(s, steps).tables);
    }
  }

  /** A request carries a start ledger or a cursor, never both or neither, and a start ledger in range. */
  lemma RequestIsWellFormed(c: Cursor, latest: u32)
    requires CursorStarted(c)
    ensures var r := RequestFor(c, latest);
      && (r.startLedger.Some? <==> r.cursor.None?)
      && (r.startLedger.Some? ==> 1 <= r.startLedger.value <= (if latest < 1 then 1 else latest))
      && (r.startLedger.Some? ==> r.startLedger.value == if latest > 17_280 then latest - 17_280 else 1)
      && r.cursor == c.token && r.limit == 100
  {
  }

  /**
   * Safety over whole runs from the migrated database.  For any schedule and any two moments of it:
   * rows are consistent, every webhook is a party's, every request is well formed, every notice is
   * backed by rows, and between the moments nothing written once changed.
   */
  lemma AlwaysSafe(log: seq<LogEntry>, before: seq<Step>, after: seq<Step>, latest: u32)
    requires ValidLog(log) && Schedule(Fresh(log), before) && Schedule(Run(Fresh(log), before), after)
    ensures var s := Run(Fresh(log), before);
      && Consistent(s.tables)
      && HooksOwned(s.tables, s.hooks, s.pending)
      && (forall id <- s.hooks ::
            && s.hooks[id].escrow in s.tables.escrows
            && (s.hooks[id].owner == s.tables.escrows[s.hooks[id].escrow].terms.client
                || s.hooks[id].owner == s.tables.escrows[s.hooks[id].escrow].terms.provider
                || s.hooks[id].owner == s.tables.escrows[s.hooks[id].escrow].terms.arbitrator)
            && ("https://" <= s.hooks[id].url || "http://" <= s.hooks[id].url))
      && OutboxBacked(s.tables, s.log, s.outbox) && InOrder(s)
      && (RequestFor(s.cursor, latest).startLedger.Some? <==> RequestFor(s.cursor, latest).cursor.None?)
      && LaterThan(Run(s, after).tables, s.tables)
  {
    var s := Run(Fresh(log), before);
    assert Safe(Fresh(log));
    RunIsSafe(Fresh(log), before);
    RunIsSafe(s, after);
    OwnersAreParties(s.tables, s.hooks, s.pending);
    RequestIsWellFormed(s.cursor, latest);
  }
}
