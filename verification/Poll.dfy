/** One poll without lost SQL calls, as a function of the database and the RPC's answers. */
module Poll {
  import opened Base
  import opened Tables
  import opened Events
  import opened Log
  import opened Machine

  /** A `getEvents` result. */
  datatype Page = Page(events: seq<RpcEvent>, latestLedger: u32, cursor: Option<nat>)

  datatype PollError = SqlError | RpcError

  /** The tables after an event's statements, and whether all of them went through. */
  datatype Outcome = Outcome(tables: Tables, completed: bool)

  /** The statements in order, stopping at the first foreign-key error. */
  function RunPlan(t: Tables, ss: seq<Statement>): Outcome
    decreases |ss|
  {
    if ss == [] then Outcome(t, true)
    else if Fails(t, ss[0]) then Outcome(t, false)
    else RunPlan(Apply(t, ss[0]), ss[1..])
  }

  datatype Progress = Progress(tables: Tables, outbox: seq<Notice>)

  function ProcessEntry(p: Progress, hooks: map<nat, Webhook>, e: LogEntry): Progress {
    if !e.success then p
    else
      var run := RunPlan(p.tables, e.plan.statements);
      Progress(run.tables,
               if run.completed && e.plan.finish.Notify? then p.outbox + [NoticeOf(hooks, e.id, e.plan.finish)]
               else p.outbox)
  }

  function ProcessPage(p: Progress, hooks: map<nat, Webhook>, page: seq<LogEntry>): Progress
    decreases |page|
  {
    if page == [] then p else ProcessPage(ProcessEntry(p, hooks, page[0]), hooks, page[1..])
  }

  lemma {:induction false} ProcessPageSnoc(p: Progress, hooks: map<nat, Webhook>, page: seq<LogEntry>, e: LogEntry)
    ensures ProcessPage(p, hooks, page + [e]) == ProcessEntry(ProcessPage(p, hooks, page), hooks, e)
    decreases |page|
  {
    hide ProcessEntry;
    if page == [] {
      assert [e][1..] == [];
    } else {
      assert (page + [e])[0] == page[0] && (page + [e])[1..] == page[1..] + [e];
      ProcessPageSnoc(ProcessEntry(p, hooks, page[0]), hooks, page[1..], e);
    }
  }

  /** Positions without events change nothing. */
  lemma {:induction false} QuietEntriesDoNothing(p: Progress, hooks: map<nat, Webhook>, page: seq<LogEntry>)
    requires forall e <- page :: e.success ==> e.isEvent
    ensures ProcessPage(p, hooks, page) == ProcessPage(p, hooks, OnlyEvents(page))
    decreases |page|
  {
    hide ProcessEntry;
    if page == [] {
    } else {
      var rest := page[1..];
      assert page[0] in page;
      forall e <- rest ensures e.success ==> e.isEvent { assert e in page; }
      if page[0].isEvent {
        QuietEntriesDoNothing(ProcessEntry(p, hooks, page[0]), hooks, rest);
        assert OnlyEvents(page)[1..] == OnlyEvents(rest);
      } else {
        QuietEntry(p, hooks, page[0]);
        QuietEntriesDoNothing(p, hooks, rest);
        assert OnlyEvents(page) == OnlyEvents(rest);
      }
    }
  }

  lemma QuietEntry(p: Progress, hooks: map<nat, Webhook>, e: LogEntry)
    requires !e.success
    ensures ProcessEntry(p, hooks, e) == p
  {
  }

  lemma {:induction false} LastEvent(page: seq<LogEntry>)
    requires page != [] && page[|page| - 1].isEvent
    ensures OnlyEvents(page) != [] && OnlyEvents(page)[|OnlyEvents(page)| - 1] == page[|page| - 1]
    decreases |page|
  {
    if |page| == 1 {
      assert page[1..] == [];
    } else {
      LastEvent(page[1..]);
    }
  }

  /** So a page does what its events do; one without a cursor of its own ends in an event. */
  lemma PageIsItsEvents(p: Progress, hooks: map<nat, Webhook>, page: seq<LogEntry>, advance: Option<nat>)
    requires forall e <- page :: e.success ==> e.isEvent
    requires advance.None? && page != [] ==> page[|page| - 1].isEvent
    ensures ProcessPage(p, hooks, page) == ProcessPage(p, hooks, OnlyEvents(page))
    ensures NextCursor(advance, page) == NextCursor(advance, OnlyEvents(page))
  {
    hide ProcessPage;
    QuietEntriesDoNothing(p, hooks, page);
    if page != [] && advance.None? { LastEvent(page); }
  }

  /** How many events of the page the poll reports. */
  function Counted(events: seq<RpcEvent>): nat {
    |set i | 0 <= i < |events| && events[i].inSuccessfulContractCall|
  }

  lemma CountedSnoc(events: seq<RpcEvent>, e: RpcEvent)
    ensures Counted(events + [e]) == Counted(events) + (if e.inSuccessfulContractCall then 1 else 0)
  {
    var longer := events + [e];
    var before := set i | 0 <= i < |events| && events[i].inSuccessfulContractCall;
    var after := set i | 0 <= i < |longer| && longer[i].inSuccessfulContractCall;
    assert after == before + (if e.inSuccessfulContractCall then {|events|} else {});
  }

  lemma PageStarts(p: Progress, hooks: map<nat, Webhook>, events: seq<RpcEvent>)
    ensures ProcessPage(p, hooks, EntriesOf(events)[..0]) == p && Counted(events[..0]) == 0
  {
  }

  /** One more event of a page. */
  lemma PageGrows(p: Progress, hooks: map<nat, Webhook>, events: seq<RpcEvent>, i: nat)
    requires i < |events|
    ensures ProcessPage(p, hooks, EntriesOf(events)[..i + 1])
         == ProcessEntry(ProcessPage(p, hooks, EntriesOf(events)[..i]), hooks, EntryOf(events[i]))
    ensures Counted(events[..i + 1]) == Counted(events[..i]) + (if events[i].inSuccessfulContractCall then 1 else 0)
  {
    hide ProcessEntry, ProcessPage, EntryOf, Counted;
    var entries := EntriesOf(events);
    assert entries[..i + 1] == entries[..i] + [entries[i]];
    assert events[..i + 1] == events[..i] + [events[i]];
    ProcessPageSnoc(p, hooks, entries[..i], entries[i]);
    CountedSnoc(events[..i], events[i]);
  }

  /** An event of a failed contract call changes nothing, whatever it says. */
  lemma FailedCallsDoNothing(p: Progress, hooks: map<nat, Webhook>, event: RpcEvent)
    requires !event.inSuccessfulContractCall
    ensures ProcessEntry(p, hooks, EntryOf(event)) == p
  {
  }

  /**
   * An event of a successful call runs its statements; it is announced, under its own token, exactly
   * when it is a recognised one and none of them fails.
   */
  lemma SuccessfulCallsRun(p: Progress, hooks: map<nat, Webhook>, event: RpcEvent)
    requires event.inSuccessfulContractCall
    ensures var q, plan := ProcessEntry(p, hooks, EntryOf(event)), PlanOf(event);
      && q.tables == Exec(p.tables, plan.statements)
      && (if plan.finish.Notify? && RunPlan(p.tables, plan.statements).completed
          then |q.outbox| == |p.outbox| + 1 && q.outbox[..|p.outbox|] == p.outbox
               && var n := q.outbox[|p.outbox|];
               n.id == event.id && n.escrow == plan.finish.escrow && n.name == plan.finish.name
               && forall h :: h in n.targets <==> h in hooks && hooks[h].escrow == plan.finish.escrow
          else q.outbox == p.outbox)
  {
    hide PlanOf, WellPlanned;
    EveryEventIsWellPlanned(event);
    EntryIsExec(p, hooks, EntryOf(event));
  }

  /** The events of successful calls, in order. */
  function Successful(events: seq<RpcEvent>): seq<RpcEvent> {
    if events == [] then []
    else (if events[0].inSuccessfulContractCall then [events[0]] else []) + Successful(events[1..])
  }

  lemma EntriesOfFirst(first: RpcEvent, rest: seq<RpcEvent>)
    ensures EntriesOf([first] + rest) == [EntryOf(first)] + EntriesOf(rest)
  {
    hide EntryOf;
  }

  lemma ProcessFirst(p: Progress, hooks: map<nat, Webhook>, e: LogEntry, rest: seq<LogEntry>)
    ensures ProcessPage(p, hooks, [e] + rest) == ProcessPage(ProcessEntry(p, hooks, e), hooks, rest)
  {
    hide ProcessEntry;
    assert ([e] + rest)[1..] == rest;
  }

  /** A page does what its events of successful calls alone do. */
  lemma {:induction false} OnlySuccessesMatter(p: Progress, hooks: map<nat, Webhook>, events: seq<RpcEvent>)
    ensures ProcessPage(p, hooks, EntriesOf(events)) == ProcessPage(p, hooks, EntriesOf(Successful(events)))
    decreases |events|
  {
    hide ProcessEntry, ProcessPage, EntriesOf, EntryOf;
    if events == [] {
    } else {
      var first, rest := events[0], events[1..];
      assert events == [first] + rest;
      EntriesOfFirst(first, rest);
      ProcessFirst(p, hooks, EntryOf(first), EntriesOf(rest));
      if first.inSuccessfulContractCall {
        OnlySuccessesMatter(ProcessEntry(p, hooks, EntryOf(first)), hooks, rest);
        EntriesOfFirst(first, Successful(rest));
        ProcessFirst(p, hooks, EntryOf(first), EntriesOf(Successful(rest)));
      } else {
        FailedCallsDoNothing(p, hooks, first);
        OnlySuccessesMatter(p, hooks, rest);
        assert Successful(events) == [] + Successful(rest) == Successful(rest);
      }
    }
  }

  lemma SuccessfulFirst(first: RpcEvent, rest: seq<RpcEvent>)
    ensures Successful([first] + rest) == (if first.inSuccessfulContractCall then [first] else []) + Successful(rest)
  {
    assert ([first] + rest)[1..] == rest;
  }

  /** Those are the events of successful calls, in order. */
  lemma {:induction false} SuccessfulAre(events: seq<RpcEvent>, e: RpcEvent)
    ensures Successful([]) == []
    ensures Successful(events + [e]) == Successful(events) + (if e.inSuccessfulContractCall then [e] else [])
    decreases |events|
  {
    if events == [] {
      SuccessfulFirst(e, []);
      assert events + [e] == [e] + [];
    } else {
      SuccessfulAre(events[1..], e);
      SuccessfulFirst(events[0], events[1..] + [e]);
      SuccessfulFirst(events[0], events[1..]);
      assert events == [events[0]] + events[1..] && events + [e] == [events[0]] + (events[1..] + [e]);
    }
  }

  /** For plans the decoder makes, stopping at a failure and carrying on past it give the same tables. */
  lemma {:induction false} RunIsExec(t: Tables, ss: seq<Statement>)
    requires forall i | 0 <= i < |ss| && ss[i].InsertDispute? :: i == |ss| - 1
    requires forall i | 0 <= i < |ss| && ss[i].UpsertMilestone? ::
               ss[i].key.escrow in t.escrows || (i > 0 && ss[0].UpsertEscrow? && ss[0].id == ss[i].key.escrow)
    ensures RunPlan(t, ss).tables == Exec(t, ss)
    decreases |ss|
  {
    if ss == [] {
    } else if Fails(t, ss[0]) {
      assert ss[1..] == [];
    } else {
      RunIsExec(Apply(t, ss[0]), ss[1..]);
    }
  }

  lemma EntryIsExec(p: Progress, hooks: map<nat, Webhook>, e: LogEntry)
    requires WellPlanned(e.plan)
    ensures ProcessEntry(p, hooks, e).tables == Exec(p.tables, Work(e))
  {
    hide WellFormed, Apply;
    var ss := e.plan.statements;
    forall i | 0 <= i < |ss| && ss[i].UpsertMilestone?
      ensures i > 0 && ss[0].UpsertEscrow? && ss[0].id == ss[i].key.escrow
    {
      assert ss[i] in ss;
    }
    RunIsExec(p.tables, ss);
  }

  /** A page processed event by event, abandoning events that fail, leaves what running all its statements leaves. */
  lemma {:induction false} PageIsExec(p: Progress, hooks: map<nat, Webhook>, page: seq<LogEntry>)
    requires forall e <- page :: WellPlanned(e.plan)
    ensures ProcessPage(p, hooks, page).tables == Exec(p.tables, Flatten(page))
    decreases |page|
  {
    hide WellPlanned, ProcessEntry, Work;
    if page == [] {
    } else {
      assert page[0] in page;
      EntryIsExec(p, hooks, page[0]);
      ExecAppend(p.tables, Work(page[0]), Flatten(page[1..]));
      PageIsExec(ProcessEntry(p, hooks, page[0]), hooks, page[1..]);
    }
  }
}
