/**
 * The whole service as a state machine: the indexer one SQL statement at a time, with crashes,
 * failed fetches and failed cursor commits anywhere, a growing event log, and webhook requests
 * interleaved.  Positions in the log stand for the RPC's opaque paging tokens.
 */
module Machine {
  import opened Base
  import opened Tables
  import opened Events
  import opened Log

  const PAGE_LIMIT: nat := 100
  const BOOTSTRAP_LOOKBACK: u32 := 17_280

  /** The one row of `indexer_cursor`. */
  datatype Cursor = Cursor(lastLedger: i64, token: Option<nat>)

  const NO_CURSOR: Cursor := Cursor(0, None)

  datatype Request = Request(startLedger: Option<u32>, cursor: Option<nat>, limit: nat)

  /** First ledger asked for when nothing has been indexed yet. */
  function StartLedger(latest: u32): u32 {
    var back := if latest >= BOOTSTRAP_LOOKBACK then latest - BOOTSTRAP_LOOKBACK else 0;
    if back < 1 then 1 else back
  }

  /** The `getEvents` request `poll_once` sends; a cursor excludes a start ledger. */
  function RequestFor(c: Cursor, latest: u32): Request {
    var start := if c.token.None? && c.lastLedger == 0 then Some(StartLedger(latest)) else None;
    Request(if c.token.Some? then None else start, c.token, PAGE_LIMIT)
  }

  /** The log position a request resolves to: right after a cursor, or the first event of a start ledger. */
  predicate ResolvesTo(log: seq<LogEntry>, r: Request, at: nat) {
    at <= |log|
    && match (r.startLedger, r.cursor)
       case (None, Some(c)) => at == c
       case (Some(start), None) =>
         (forall i | 0 <= i < at :: log[i].ledger < start) && (at < |log| ==> log[at].ledger >= start)
       case _ => false
  }

  datatype Webhook = Webhook(escrow: EscrowId, owner: string, url: string, secret: string)

  /** A registration that passed its checks and has not reached its insert. */
  datatype Registration = Registration(escrow: EscrowId, owner: string, url: string)

  /** Deliveries spawned for one event; `id` is the event's own token. */
  datatype Notice = Notice(id: nat, escrow: EscrowId, name: string, targets: set<nat>)

  /** The event in progress: the statements not yet run, and what follows them. */
  datatype Task = Task(id: nat, todo: seq<Statement>, finish: Finish)

  /** `base` and `mark` record the tables and the outbox length at the fetch; nothing reads them. */
  datatype Worker =
    | Idle
    | Busy(from: nat, events: seq<LogEntry>, advance: Option<nat>, latest: u32,
           done: nat, task: Option<Task>, base: Tables, mark: nat)

  /**
   * `origin` and `seed` record where in the log the indexing started and on what tables; nothing reads
   * them.
   */
  datatype State = State(
    tables: Tables,
    hooks: map<nat, Webhook>,
    cursor: Cursor,
    outbox: seq<Notice>,
    pending: set<Registration>,
    worker: Worker,
    log: seq<LogEntry>,
    origin: Option<nat>,
    seed: Tables)

  /** The migrated database before anything ran; `log` is what the chain already holds. */
  function Fresh(log: seq<LogEntry>): State {
    State(EMPTY, map[], NO_CURSOR, [], {}, Idle, log, None, EMPTY)
  }

  function IsHttp(url: string): bool { "https://" <= url || "http://" <= url }

  function IsParty(terms: EscrowTerms, address: string): bool {
    address == terms.client || address == terms.provider || address == terms.arbitrator
  }

  function HooksOf(hooks: map<nat, Webhook>, escrow: EscrowId): set<nat> {
    set id | id in hooks && hooks[id].escrow == escrow
  }

  function NoticeOf(hooks: map<nat, Webhook>, id: nat, finish: Finish): Notice
    requires finish.Notify?
  {
    Notice(id, finish.escrow, finish.name, HooksOf(hooks, finish.escrow))
  }

  datatype Step =
    | Append(more: seq<LogEntry>)
    | Fetch(latest: u32, at: nat, count: nat, advance: Option<nat>, reported: u32)
    | FetchFails
    | BeginEvent
    | ExecStatement
    | FinishEvent(hooksLoad: bool)
    | TransientError
    | CommitCursor
    | CommitFails
    | Crash
    | CheckRegistration(registration: Registration)
    | InsertWebhook(registration: Registration, id: nat, secret: string)
    | DeleteWebhook(id: nat, owner: string)

  /** The cursor to store after a page: the RPC's own, else the last event's. */
  function NextCursor(advance: Option<nat>, events: seq<LogEntry>): Option<nat> {
    if advance.Some? then advance
    else if events != [] then Some(events[|events| - 1].id) else None
  }

  predicate Enabled(s: State, step: Step) {
    match step
    case Append(more) => ValidLog(s.log + more)
    case Fetch(latest, at, count, advance, reported) =>
      s.worker.Idle?
      && ResolvesTo(s.log, RequestFor(s.cursor, latest), at)
      && at + count <= |s.log| && EventCount(s.log[at..at + count]) <= PAGE_LIMIT
      && (if advance.Some? then advance.value == at + count else count > 0 ==> s.log[at + count - 1].isEvent)
    case FetchFails => s.worker.Idle?
    case BeginEvent => s.worker.Busy? && s.worker.task.None? && s.worker.done < |s.worker.events|
    case ExecStatement => s.worker.Busy? && s.worker.task.Some? && s.worker.task.value.todo != []
    case FinishEvent(_) => s.worker.Busy? && s.worker.task.Some? && s.worker.task.value.todo == []
    case TransientError => s.worker.Busy? && s.worker.task.Some?
    case CommitCursor => s.worker.Busy? && s.worker.task.None? && s.worker.done == |s.worker.events|
    case CommitFails => s.worker.Busy? && s.worker.task.None? && s.worker.done == |s.worker.events|
    case Crash => true
    case CheckRegistration(r) =>
      IsHttp(r.url) && r.escrow in s.tables.escrows && IsParty(s.tables.escrows[r.escrow].terms, r.owner)
    case InsertWebhook(r, id, _) => r in s.pending && id !in s.hooks
    case DeleteWebhook(_, _) => true
  }

  function Do(s: State, step: Step): State
    requires Enabled(s, step)
  {
    match step
    case Append(more) => s.(log := s.log + more)
    case Fetch(latest, at, count, advance, reported) =>
      s.(worker := Busy(at, s.log[at..at + count], advance, reported, 0, None, s.tables, |s.outbox|),
         origin := if s.cursor.token.None? then Some(at) else s.origin)
    case FetchFails => s
    case BeginEvent =>
      var event := s.worker.events[s.worker.done];
      if !event.success then s.(worker := s.worker.(done := s.worker.done + 1))
      else s.(worker := s.worker.(task := Some(Task(event.id, event.plan.statements, event.plan.finish))))
    case ExecStatement =>
      var task := s.worker.task.value;
      if Fails(s.tables, task.todo[0]) then EndEvent(s)
      else s.(tables := Apply(s.tables, task.todo[0]),
              worker := s.worker.(task := Some(task.(todo := task.todo[1..]))))
    case FinishEvent(hooksLoad) =>
      var task := s.worker.task.value;
      if task.finish.Notify? && hooksLoad
      then EndEvent(s.(outbox := s.outbox + [NoticeOf(s.hooks, task.id, task.finish)]))
      else EndEvent(s)
    case TransientError => EndEvent(s)
    case CommitCursor =>
      var next := NextCursor(s.worker.advance, s.worker.events);
      s.(worker := Idle, cursor := if next.Some? then Cursor(s.worker.latest, next) else s.cursor)
    case CommitFails => s.(worker := Idle)
    case Crash => s.(worker := Idle, pending := {})
    case CheckRegistration(r) => s.(pending := s.pending + {r})
    case InsertWebhook(r, id, secret) =>
      s.(pending := s.pending - {r}, hooks := s.hooks[id := Webhook(r.escrow, r.owner, r.url, secret)])
    case DeleteWebhook(id, owner) =>
      if id in s.hooks && s.hooks[id].owner == owner then s.(hooks := s.hooks - {id}) else s
  }

  /** The loop moves on to the next event of the page, whatever became of this one. */
  function EndEvent(s: State): State
    requires s.worker.Busy?
  {
    s.(worker := s.worker.(task := None, done := s.worker.done + 1))
  }

  /** Every step was possible when it was taken. */
  predicate Schedule(s: State, steps: seq<Step>)
    decreases |steps|
  {
    steps == [] || (Enabled(s, steps[0]) && Schedule(Do(s, steps[0]), steps[1..]))
  }

  function Run(s: State, steps: seq<Step>): State
    requires Schedule(s, steps)
    decreases |steps|
  {
    if steps == [] then s else Run(Do(s, steps[0]), steps[1..])
  }

  /** A step that loses an event or a notification because one SQL call failed. */
  predicate Lossy(step: Step) { step.TransientError? || step == FinishEvent(false) }

  /** A failed SQL call that leaves statements of its event unrun for good. */
  predicate LosesWork(s: State, step: Step) {
    step.TransientError? && s.worker.Busy? && s.worker.task.Some? && s.worker.task.value.todo != []
  }

  lemma {:induction false} RunAppend(s: State, a: seq<Step>, b: seq<Step>)
    requires Schedule(s, a) && Schedule(Run(s, a), b)
    ensures Schedule(s, a + b) && Run(s, a + b) == Run(Run(s, a), b)
    decreases |a|
  {
    if a == [] {
      assert a + b == b;
    } else {
      assert (a + b)[0] == a[0] && (a + b)[1..] == a[1..] + b;
      RunAppend(Do(s, a[0]), a[1..], b);
    }
  }
}
