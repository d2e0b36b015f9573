/** The event log as the indexer consumes it: each event already turned into its plan. */
module Log {
  import opened Base
  import opened Tables
  import opened Events

  /**
   * One position of the log: an event, or a stretch of ledgers without events that a cursor can still
   * be moved past.  `id` is the paging token just after it.
   */
  datatype LogEntry = LogEntry(id: nat, ledger: u32, isEvent: bool, success: bool, plan: Plan)

  function EntryOf(event: RpcEvent): LogEntry {
    LogEntry(event.id, event.ledger, true, event.inSuccessfulContractCall, PlanOf(event))
  }

  function QuietEntry(id: nat, ledger: u32): LogEntry {
    LogEntry(id, ledger, false, false, Plan([], Ignore))
  }

  function EntriesOf(events: seq<RpcEvent>): (log: seq<LogEntry>)
    ensures |log| == |events| && forall i | 0 <= i < |log| :: log[i] == EntryOf(events[i])
  {
    seq(|events|, i requires 0 <= i < |events| => EntryOf(events[i]))
  }

  /** Tokens point just past their position, and plans have the shape every decoded event has. */
  predicate ValidLog(log: seq<LogEntry>) {
    forall i | 0 <= i < |log| :: log[i].id == i + 1 && WellPlanned(log[i].plan) && (log[i].success ==> log[i].isEvent)
  }

  /** What the chain holds, position by position. */
  datatype Happening = Emitted(event: RpcEvent) | Quiet(ledger: u32)

  function LogOf(chain: seq<Happening>): (log: seq<LogEntry>)
    ensures |log| == |chain|
    ensures forall i | 0 <= i < |log| ::
              log[i] == if chain[i].Emitted? then EntryOf(chain[i].event) else QuietEntry(i + 1, chain[i].ledger)
  {
    seq(|chain|, i requires 0 <= i < |chain| =>
      if chain[i].Emitted? then EntryOf(chain[i].event) else QuietEntry(i + 1, chain[i].ledger))
  }

  lemma RpcLogsAreValid(chain: seq<Happening>)
    requires forall i | 0 <= i < |chain| && chain[i].Emitted? :: chain[i].event.id == i + 1
    ensures ValidLog(LogOf(chain))
  {
    hide PlanOf, WellPlanned;
    NothingIsWellPlanned();
    forall i | 0 <= i < |chain| ensures WellPlanned(LogOf(chain)[i].plan) {
      if chain[i].Emitted? { EveryEventIsWellPlanned(chain[i].event); }
    }
  }

  function EventCount(log: seq<LogEntry>): nat {
    if log == [] then 0 else (if log[0].isEvent then 1 else 0) + EventCount(log[1..])
  }

  lemma {:induction false} EventCountAppend(a: seq<LogEntry>, b: seq<LogEntry>)
    ensures EventCount(a + b) == EventCount(a) + EventCount(b)
    decreases |a|
  {
    if a == [] {
      assert a + b == b;
    } else {
      assert (a + b)[0] == a[0] && (a + b)[1..] == a[1..] + b;
      EventCountAppend(a[1..], b);
    }
  }

  lemma EventCountSnoc(log: seq<LogEntry>, e: LogEntry)
    ensures EventCount(log + [e]) == EventCount(log) + (if e.isEvent then 1 else 0)
  {
    EventCountAppend(log, [e]);
    assert [e][1..] == [];
  }

  /** It counts the positions that hold an event. */
  lemma {:induction false} EventCountIs(log: seq<LogEntry>)
    ensures EventCount(log) == |set i | 0 <= i < |log| && log[i].isEvent|
    decreases |log|
  {
    var all := set i | 0 <= i < |log| && log[i].isEvent;
    if |log| == 0 {
      assert all == {};
    } else {
      hide EventCount;
      var n := |log| - 1;
      var front := log[..n];
      assert log == front + [log[n]];
      EventCountSnoc(front, log[n]);
      EventCountIs(front);
      var before := set i | 0 <= i < n && front[i].isEvent;
      CountGrows(all, before, n, log[n].isEvent);
    }
  }

  /** The events of a page. */
  function OnlyEvents(page: seq<LogEntry>): seq<LogEntry> {
    if page == [] then [] else (if page[0].isEvent then [page[0]] else []) + OnlyEvents(page[1..])
  }

  /** An event keeps its token, ledger and success flag, and what it would run; anything else runs nothing. */
  lemma EntriesAreTheirEvents(event: RpcEvent, id: nat, ledger: u32)
    ensures var e := EntryOf(event);
      && e.id == event.id && e.ledger == event.ledger && e.isEvent
      && (e.success <==> event.inSuccessfulContractCall) && e.plan == PlanOf(event)
    ensures Work(EntryOf(event)) == if event.inSuccessfulContractCall then PlanOf(event).statements else []
    ensures var q := QuietEntry(id, ledger);
      q.id == id && q.ledger == ledger && !q.isEvent && !q.success && Work(q) == []
  {
  }

  lemma OnlyEventsFirst(first: LogEntry, rest: seq<LogEntry>)
    ensures OnlyEvents([first] + rest) == (if first.isEvent then [first] else []) + OnlyEvents(rest)
  {
    assert ([first] + rest)[1..] == rest;
  }

  /** The events of a page are picked out one by one, in order. */
  lemma {:induction false} OnlyEventsAre(a: seq<LogEntry>, e: LogEntry)
    ensures OnlyEvents([]) == []
    ensures OnlyEvents(a + [e]) == OnlyEvents(a) + (if e.isEvent then [e] else [])
    decreases |a|
  {
    if a == [] {
      OnlyEventsFirst(e, []);
      assert a + [e] == [e] + [];
    } else {
      OnlyEventsAre(a[1..], e);
      OnlyEventsFirst(a[0], a[1..] + [e]);
      OnlyEventsFirst(a[0], a[1..]);
      assert a == [a[0]] + a[1..] && a + [e] == [a[0]] + (a[1..] + [e]);
    }
  }

  /** The statements an entry runs; events of failed contract calls are passed over. */
  function Work(e: LogEntry): seq<Statement> {
    if e.success then e.plan.statements else []
  }

  function Flatten(log: seq<LogEntry>): seq<Statement> {
    if log == [] then [] else Work(log[0]) + Flatten(log[1..])
  }

  lemma {:induction false} FlattenAppend(a: seq<LogEntry>, b: seq<LogEntry>)
    ensures Flatten(a + b) == Flatten(a) + Flatten(b)
    decreases |a|
  {
    if a == [] {
      assert a + b == b;
    } else {
      assert (a + b)[0] == a[0] && (a + b)[1..] == a[1..] + b;
      FlattenAppend(a[1..], b);
    }
  }

  lemma FlattenFrom(log: seq<LogEntry>, i: nat)
    requires i <= |log|
    ensures i == |log| ==> Flatten(log[i..]) == []
    ensures i < |log| ==> Flatten(log[i..]) == Work(log[i]) + Flatten(log[i + 1..])
  {
    if i < |log| {
      assert log[i..][0] == log[i] && log[i..][1..] == log[i + 1..];
    }
  }
}
