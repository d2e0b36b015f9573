/** Every event that applied is announced at least once, to every webhook that was there to be told. */
module Announcements {
  import opened Base
  import opened Tables
  import opened Replay
  import opened Events
  import opened Log
  import opened Machine
  import opened CatchUp

  /** No statement of the list meets a foreign-key error. */
  predicate Completes(t: Tables, ss: seq<Statement>)
    decreases |ss|
  {
    ss == [] || (!Fails(t, ss[0]) && Completes(Apply(t, ss[0]), ss[1..]))
  }

  /** The event is one the code announces, and in one run over the indexed log it goes through. */
  predicate Applies(seed: Tables, log: seq<LogEntry>, origin: nat, i: nat)
    requires origin <= i < |log|
  {
    log[i].success && log[i].plan.finish.Notify? && Completes(Fold(seed, log, origin, i), log[i].plan.statements)
  }

  /** A stored webhook to follow through a run. */
  datatype Watch = Watch(id: nat, hook: Webhook)

  /** A notice of the event was enqueued, addressed to the watched webhook if that is on its escrow. */
  predicate Told(outbox: seq<Notice>, log: seq<LogEntry>, i: nat, watch: Option<Watch>)
    requires i < |log|
  {
    exists n <- outbox ::
      && n.id == log[i].id
      && log[i].plan.finish == Notify(n.escrow, n.name)
      && (watch.Some? && n.escrow == watch.value.hook.escrow ==> watch.value.id in n.targets)
  }

  /**
   * What is claimed: since the outbox had length `mark`, of the events from `start` on, with regard to
   * the watched webhook, and with these positions excepted.
   */
  datatype Audit = Audit(mark: nat, start: nat, watch: Option<Watch>, missed: set<nat>)

  /** Every applying event up to `end` was told, as far as the audit goes. */
  predicate AllTold(outbox: seq<Notice>, seed: Tables, log: seq<LogEntry>, origin: nat, end: nat, a: Audit)
    requires end <= |log|
  {
    forall i | origin <= i < end && a.start <= i && i !in a.missed && Applies(seed, log, origin, i) ::
      Told(outbox, log, i, a.watch)
  }

  predicate StillThere(s: State, watch: Option<Watch>) {
    watch.Some? ==> watch.value.id in s.hooks && s.hooks[watch.value.id] == watch.value.hook
  }

  /** The owner of the watched webhook deletes it. */
  predicate Removes(step: Step, watch: Option<Watch>) {
    watch.Some? && step == DeleteWebhook(watch.value.id, watch.value.hook.owner)
  }

  /**
   * The positions whose event ended without its notice in the latest attempt at it, because a call
   * failed; a page that is fetched again gives its events another chance.
   */
  function MissedAfter(missed: set<nat>, s: State, step: Step): set<nat> {
    if step.Fetch? then set i | i in missed && i < step.at
    else if (step.TransientError? || step == FinishEvent(false)) && s.worker.Busy? && s.worker.task.Some?
    then missed + {s.worker.from + s.worker.done}
    else missed
  }

  function Missed(missed: set<nat>, s: State, steps: seq<Step>): set<nat>
    requires Schedule(s, steps)
    decreases |steps|
  {
    if steps == [] then missed else Missed(MissedAfter(missed, s, steps[0]), Do(s, steps[0]), steps[1..])
  }

  /** Events before this position are done with, in the current attempt or for good. */
  function Reached(s: State): nat
    requires s.origin.Some?
  {
    if s.worker.Busy? then s.worker.from + s.worker.done else Position(s)
  }

  predicate Telling(s: State, a: Audit) {
    Inv(s)
    && StillThere(s, a.watch)
    && a.mark <= |s.outbox|
    && (s.origin.Some? ==>
          && s.origin.value <= Reached(s) <= |s.log|
          && AllTold(s.outbox[a.mark..], s.seed, s.log, s.origin.value, Reached(s), a))
  }

  lemma {:induction false} CompletesToLast(t: Tables, ss: seq<Statement>)
    requires ss != [] && Completes(t, ss)
    ensures !Fails(Exec(t, ss[..|ss| - 1]), ss[|ss| - 1])
    decreases |ss|
  {
    hide Apply, Fails;
    if |ss| == 1 {
      assert ss[..0] == [];
    } else {
      CompletesToLast(Apply(t, ss[0]), ss[1..]);
      assert ss[..|ss| - 1][1..] == ss[1..][..|ss| - 2];
    }
  }

  lemma FailsAntitone(t: Tables, u: Tables, s: Statement)
    requires RowsWithin(t, u) && Fails(u, s)
    ensures Fails(t, s)
  {
  }

  /** A page splits at an event of which `k` statements have run. */
  lemma PageSplit(events: seq<LogEntry>, done: nat, k: nat)
    requires done < |events| && k <= |Work(events[done])|
    ensures var ss, page := Work(events[done]), Flatten(events);
            var unrun := ss[k..] + Flatten(events[done + 1..]);
            |unrun| <= |page| && page[..|page| - |unrun|] == Flatten(events[..done]) + ss[..k]
  {
    hide Flatten, Work;
    var ss := Work(events[done]);
    var first, rest := Flatten(events[..done]), Flatten(events[done + 1..]);
    assert events == events[..done] + events[done..];
    FlattenAppend(events[..done], events[done..]);
    FlattenFrom(events, done);
    assert ss == ss[..k] + ss[k..];
    assert Flatten(events) == (first + ss[..k]) + (ss[k..] + rest);
  }

  /** What has run of the page, split at the current event. */
  lemma RunSoFar(s: State)
    requires s.worker.Busy? && s.worker.task.Some? && PageFits(s.tables, s.log, s.worker)
             && PartWayThrough(s.tables, s.worker)
    ensures var w := s.worker;
            var ss := w.events[w.done].plan.statements;
            s.tables == Exec(w.base, Flatten(s.log[w.from..w.from + w.done]) + ss[..|ss| - |w.task.value.todo|])
  {
    hide Exec, Flatten;
    var w := s.worker;
    var ss := w.events[w.done].plan.statements;
    PageSplit(w.events, w.done, |ss| - |w.task.value.todo|);
    assert w.events[..w.done] == s.log[w.from..w.from + w.done];
  }

  /** What fails on the tables that have run more also fails in the fold. */
  lemma FailsInFold(t: Tables, fold: Tables, before: seq<Statement>, ss: seq<Statement>)
    requires RowsWithin(fold, t) && ss != []
    requires Fails(Exec(t, before + ss[..|ss| - 1]), ss[|ss| - 1])
    ensures !Completes(Exec(fold, before), ss)
  {
    hide Exec, Fails, Completes, RowsWithin;
    var pre, s := ss[..|ss| - 1], ss[|ss| - 1];
    ExecRowsMonotone(fold, t, before + pre);
    ExecAppend(fold, before, pre);
    FailsAntitone(Exec(fold, before + pre), Exec(t, before + pre), s);
    if Completes(Exec(fold, before), ss) { CompletesToLast(Exec(fold, before), ss); }
  }

  /** An event dropped on a foreign key fails in the uninterrupted run as well. */
  lemma DroppedEventDoesNotApply(s: State)
    requires Enabled(s, ExecStatement) && Fails(s.tables, s.worker.task.value.todo[0])
    requires Inv(s)
    ensures s.origin.Some? && s.origin.value <= s.worker.from + s.worker.done < |s.log|
    ensures !Applies(s.seed, s.log, s.origin.value, s.worker.from + s.worker.done)
  {
    hide Exec, Causal, Flatten, Fails, Completes, RowsWithin, WellPlanned;
    FinishedEvent(s);
    FailureIsLast(s);
    PageFacts(s);
    RunSoFar(s);
    DroppedAt(s);
  }

  lemma DroppedAt(s: State)
    requires s.worker.Busy? && s.worker.task.Some? && s.origin.Some? && PageFits(s.tables, s.log, s.worker)
    requires ReadyAt(s.worker.base, s.seed, s.log, s.origin.value, s.worker.from)
    requires s.worker.from + s.worker.done < |s.log| && |s.worker.task.value.todo| == 1
    requires Fails(s.tables, s.worker.task.value.todo[0])
    requires var ss := s.worker.events[s.worker.done].plan.statements;
             s.tables == Exec(s.worker.base,
                              Flatten(s.log[s.worker.from..s.worker.from + s.worker.done]) + ss[..|ss| - 1])
    ensures !Applies(s.seed, s.log, s.origin.value, s.worker.from + s.worker.done)
  {
    hide Exec, Flatten, Fails, Completes, RowsWithin;
    var w, o := s.worker, s.origin.value;
    var i := w.from + w.done;
    var ss := s.log[i].plan.statements;
    assert w.events[w.done] == s.log[i];
    FoldSplit(s.seed, s.log, o, w.from, i);
    FailsInFold(w.base, Fold(s.seed, s.log, o, w.from), Flatten(s.log[w.from..i]), ss);
  }

  lemma ToldLater(outbox: seq<Notice>, more: seq<Notice>, seed: Tables, log: seq<LogEntry>, longer: seq<LogEntry>,
                  origin: nat, end: nat, a: Audit)
    requires end <= |log| && log <= longer && AllTold(outbox, seed, log, origin, end, a)
    ensures AllTold(outbox + more, seed, longer, origin, end, a)
  {
    hide Exec, Completes, Flatten;
    forall i | origin <= i < end && a.start <= i && i !in a.missed && Applies(seed, longer, origin, i)
      ensures Told(outbox + more, longer, i, a.watch)
    {
      assert longer[origin..i] == log[origin..i] && longer[i] == log[i];
      assert Applies(seed, log, origin, i);
      var n :| n in outbox && n.id == log[i].id && log[i].plan.finish == Notify(n.escrow, n.name)
            && (a.watch.Some? && n.escrow == a.watch.value.hook.escrow ==> a.watch.value.id in n.targets);
      assert n in outbox + more;
    }
  }

  lemma AppendTells(s: State, step: Step, a: Audit)
    requires Telling(s, a) && step.Append? && Enabled(s, step) && CausalLog(Do(s, step))
    ensures Telling(Do(s, step), a)
  {
    hide Inv, AllTold;
    StepKeepsInv(s, step);
    if s.origin.Some? {
      ToldLater(s.outbox[a.mark..], [], s.seed, s.log, s.log + step.more, s.origin.value, Reached(s), a);
      assert s.outbox[a.mark..] + [] == s.outbox[a.mark..];
    }
  }

  /** One more event is behind: it was told, or it is not one to tell. */
  lemma OneMore(outbox: seq<Notice>, more: seq<Notice>, seed: Tables, log: seq<LogEntry>, origin: nat, i: nat, a: Audit)
    requires origin <= i < |log| && AllTold(outbox, seed, log, origin, i, a)
    requires i in a.missed || (Applies(seed, log, origin, i) ==> Told(outbox + more, log, i, a.watch))
    ensures AllTold(outbox + more, seed, log, origin, i + 1, a)
  {
    hide Applies, Told;
    ToldLater(outbox, more, seed, log, log, origin, i, a);
  }

  lemma BeginTells(s: State, a: Audit)
    requires Telling(s, a) && Enabled(s, BeginEvent)
    ensures Telling(Do(s, BeginEvent), a)
  {
    hide Inv, AllTold, Applies, Told;
    BeginKeeps(s);
    NextEvent(s);
    var w := s.worker;
    if !w.events[w.done].success {
      PassedOver(s.seed, s.log, s.origin.value, w.from + w.done);
      OneMore(s.outbox[a.mark..], [], s.seed, s.log, s.origin.value, w.from + w.done, a);
      assert s.outbox[a.mark..] + [] == s.outbox[a.mark..];
    }
  }

  lemma NextEvent(s: State)
    requires Inv(s) && Enabled(s, BeginEvent)
    ensures s.origin.Some? && s.origin.value <= s.worker.from + s.worker.done < |s.log|
    ensures s.worker.events[s.worker.done] == s.log[s.worker.from + s.worker.done]
  {
    hide Exec, Causal, Fold, Flatten, ValidLog, PartWayThrough;
  }

  lemma PassedOver(seed: Tables, log: seq<LogEntry>, origin: nat, i: nat)
    requires origin <= i < |log| && !log[i].success
    ensures !Applies(seed, log, origin, i)
  {
  }

  lemma ExecTells(s: State, a: Audit)
    requires Telling(s, a) && Enabled(s, ExecStatement)
    ensures Telling(Do(s, ExecStatement), a)
  {
    hide Inv, AllTold, Apply, Fails, Applies;
    ExecKeeps(s);
    if Fails(s.tables, s.worker.task.value.todo[0]) {
      DroppedEventDoesNotApply(s);
      OneMore(s.outbox[a.mark..], [], s.seed, s.log, s.origin.value, s.worker.from + s.worker.done, a);
      assert s.outbox[a.mark..] + [] == s.outbox[a.mark..];
    }
  }

  lemma NoticeTells(outbox: seq<Notice>, n: Notice, log: seq<LogEntry>, i: nat, watch: Option<Watch>)
    requires i < |log| && n.id == log[i].id && log[i].plan.finish == Notify(n.escrow, n.name)
    requires watch.Some? && n.escrow == watch.value.hook.escrow ==> watch.value.id in n.targets
    ensures Told(outbox + [n], log, i, watch)
  {
    assert n in outbox + [n];
  }

  lemma FinishTells(s: State, a: Audit)
    requires Telling(s, a) && Enabled(s, FinishEvent(true))
    ensures Telling(Do(s, FinishEvent(true)), a)
  {
    hide Exec, Causal, ReadyAt, Fold, Flatten, AllTold, Completes, PartWayThrough, WellPlanned, Told, Inv;
    FinishKeeps(s, FinishEvent(true));
    FinishedEvent(s);
    var w, task, o := s.worker, s.worker.task.value, s.origin.value;
    var i := w.from + w.done;
    if task.finish.Notify? {
      var n := NoticeOf(s.hooks, task.id, task.finish);
      NoticeTells(s.outbox[a.mark..], n, s.log, i, a.watch);
      OneMore(s.outbox[a.mark..], [n], s.seed, s.log, o, i, a);
      assert (s.outbox + [n])[a.mark..] == s.outbox[a.mark..] + [n];
    } else {
      OneMore(s.outbox[a.mark..], [], s.seed, s.log, o, i, a);
      assert s.outbox[a.mark..] + [] == s.outbox[a.mark..];
    }
  }

  /** An event that ends without its notice counts as missed. */
  lemma MissTells(s: State, step: Step, a: Audit)
    requires Telling(s, a) && Enabled(s, step) && !LosesWork(s, step)
             && (step.TransientError? || step == FinishEvent(false))
    ensures Telling(Do(s, step), a.(missed := MissedAfter(a.missed, s, step)))
  {
    hide Inv, AllTold, Applies, Told;
    FinishKeeps(s, step);
    FinishedEvent(s);
    var i, b := s.worker.from + s.worker.done, a.(missed := MissedAfter(a.missed, s, step));
    MissingMore(s.outbox[a.mark..], s.seed, s.log, s.origin.value, i, a, b);
    OneMore(s.outbox[a.mark..], [], s.seed, s.log, s.origin.value, i, b);
    assert s.outbox[a.mark..] + [] == s.outbox[a.mark..];
  }

  lemma MissingMore(outbox: seq<Notice>, seed: Tables, log: seq<LogEntry>, origin: nat, end: nat, a: Audit, b: Audit)
    requires end <= |log| && AllTold(outbox, seed, log, origin, end, a)
    requires b == a.(missed := b.missed) && forall i | i in a.missed && i < end :: i in b.missed
    ensures AllTold(outbox, seed, log, origin, end, b)
  {
    hide Applies, Told;
  }

  lemma FinishedEvent(s: State)
    requires Inv(s) && s.worker.Busy? && s.worker.task.Some?
    ensures s.origin.Some? && s.origin.value <= s.worker.from + s.worker.done < |s.log|
    ensures var e := s.log[s.worker.from + s.worker.done];
      && e.id == s.worker.from + s.worker.done + 1
      && s.worker.task.value.id == e.id && s.worker.task.value.finish == e.plan.finish
  {
    hide Exec, Causal, Fold, Flatten, PartWayThrough, WellPlanned;
  }

  lemma CommitTells(s: State, a: Audit)
    requires Telling(s, a) && Enabled(s, CommitCursor)
    ensures Telling(Do(s, CommitCursor), a)
  {
    hide Inv, AllTold, PartWayThrough, NextCursor, ReadyAt, ValidLog, PageFits;
    CommitKeeps(s);
    PageFacts(s);
    CommitAdvances(s);
    PositionIs(s);
    assert Reached(Do(s, CommitCursor)) == Reached(s);
  }

  lemma PositionIs(s: State)
    requires Inv(s) && s.worker.Busy?
    ensures s.origin.Some? && s.worker.from == Position(s)
  {
    hide ReadyAt, ValidLog, PageFits, PartWayThrough, CausalLog;
  }

  lemma ToldUpTo(outbox: seq<Notice>, seed: Tables, log: seq<LogEntry>, origin: nat, end: nat, earlier: nat,
                 a: Audit, b: Audit)
    requires end <= |log| && earlier <= |log|
    requires b == a.(missed := b.missed) && forall i | i in a.missed && i < earlier :: i in b.missed
    requires (earlier <= end && AllTold(outbox, seed, log, origin, end, a)) || earlier <= origin
    ensures AllTold(outbox, seed, log, origin, earlier, b)
  {
    hide Applies, Told;
  }

  /** Starting or abandoning an attempt, and webhook requests. */
  lemma OtherStepsTell(s: State, step: Step, a: Audit)
    requires Telling(s, a) && Enabled(s, step) && SteadyStart(s, step) && CausalLog(Do(s, step))
    requires !Lossy(step) && !Removes(step, a.watch)
    requires !step.Append? && !step.BeginEvent? && !step.ExecStatement? && !step.FinishEvent? && !step.CommitCursor?
    ensures Telling(Do(s, step), a.(missed := MissedAfter(a.missed, s, step)))
  {
    hide AllTold, Exec, Causal, ReadyAt, Fold, Flatten, PartWayThrough, TaskFits, ValidLog, HooksOf, RequestFor,
         ResolvesTo;
    StepKeepsInv(s, step);
    SeedStays(s, step);
    var s', b := Do(s, step), a.(missed := MissedAfter(a.missed, s, step));
    if s'.origin.Some? {
      ReadyNow(s');
      ReadyWithin(s'.tables, s'.seed, s'.log, s'.origin.value, Position(s'));
      if step.Fetch? { FetchResumes(s, step); }
      var end := if s.origin.Some? then Reached(s) else 0;
      ToldUpTo(s'.outbox[a.mark..], s'.seed, s'.log, s'.origin.value, end, Reached(s'), a, b);
    }
  }

  lemma ReadyWithin(t: Tables, seed: Tables, log: seq<LogEntry>, origin: nat, at: nat)
    requires ReadyAt(t, seed, log, origin, at)
    ensures origin <= at <= |log|
  {
  }

  lemma StepTells(s: State, step: Step, a: Audit)
    requires Telling(s, a) && Enabled(s, step) && SteadyStart(s, step) && CausalLog(Do(s, step))
    requires !LosesWork(s, step) && !Removes(step, a.watch)
    ensures Telling(Do(s, step), a.(missed := MissedAfter(a.missed, s, step)))
  {
    hide Telling, Do, CausalLog, LosesWork;
    match step
    case Append(_) => AppendTells(s, step, a);
    case BeginEvent => BeginTells(s, a);
    case ExecStatement => ExecTells(s, a);
    case FinishEvent(hooksLoad) => if hooksLoad { FinishTells(s, a); } else { MissTells(s, step, a); }
    case TransientError => MissTells(s, step, a);
    case CommitCursor => CommitTells(s, a);
    case _ => OtherStepsTell(s, step, a);
  }

  lemma {:induction false} TellingRun(s: State, steps: seq<Step>, a: Audit)
    requires Telling(s, a) && FaithfulSchedule(s, steps)
    requires forall p <- steps :: !Removes(p, a.watch)
    ensures Schedule(s, steps) && Run(s, steps).seed == s.seed
    ensures Telling(Run(s, steps), a.(missed := Missed(a.missed, s, steps)))
    decreases |steps|
  {
    hide Telling, Do, CausalLog, LosesWork, Enabled, SteadyStart, Removes, MissedAfter;
    if steps == [] {
    } else {
      assert steps[0] in steps;
      forall p <- steps[1..] ensures !Removes(p, a.watch) { assert p in steps; }
      SeedStays(s, steps[0]);
      StepTells(s, steps[0], a);
      TellingRun(Do(s, steps[0]), steps[1..], a.(missed := MissedAfter(a.missed, s, steps[0])));
    }
  }

  /**
   * Once the stored cursor is past an event that applies, a notice of it was enqueued, unless in the
   * latest attempt at that very event its webhooks could not be loaded.
   */
  lemma AppliedEventsAreTold(log: seq<LogEntry>, steps: seq<Step>)
    requires ValidLog(log) && FaithfulSchedule(Fresh(log), steps)
    ensures Schedule(Fresh(log), steps)
    ensures var s := Run(Fresh(log), steps);
            s.origin.Some? ==>
              && s.origin.value <= Position(s) <= |s.log|
              && forall i | s.origin.value <= i < Position(s) && Applies(EMPTY, s.log, s.origin.value, i)
                         && i !in Missed({}, Fresh(log), steps) ::
                   Told(s.outbox, s.log, i, None)
  {
    hide Missed, Applies, Told;
    TellingRun(Fresh(log), steps, Audit(0, 0, None, {}));
    var s := Run(Fresh(log), steps);
    assert s.outbox[0..] == s.outbox;
    if s.origin.Some? {
      ReadyNow(s);
      ReachedIsPast(s);
    }
  }

  lemma ReachedIsPast(s: State)
    requires Inv(s) && s.origin.Some?
    ensures Position(s) <= Reached(s)
  {
    hide ReadyAt, ValidLog, PageFits, PartWayThrough, CausalLog;
  }

  /** Where the indexer stands: nothing before it will be looked at again unless an attempt is abandoned. */
  function Standing(s: State): nat {
    if s.origin.Some? then Reached(s) else 0
  }

  /**
   * Every webhook is told.  Split any faithful run in two; take a webhook stored at the split that its
   * owner does not delete afterwards.  Each event of its escrow that applies, at or after the place the
   * indexer had reached, has, once the stored cursor is past it, a notice enqueued in the second part
   * that is addressed to this webhook; unless in the latest attempt at that very event the webhooks
   * could not be loaded.
   */
  lemma WebhooksAreTold(log: seq<LogEntry>, before: seq<Step>, after: seq<Step>, id: nat)
    requires ValidLog(log) && FaithfulSchedule(Fresh(log), before) && Schedule(Fresh(log), before)
    requires var s := Run(Fresh(log), before);
      && FaithfulSchedule(s, after)
      && id in s.hooks && forall p <- after :: p != DeleteWebhook(id, s.hooks[id].owner)
    ensures var s := Run(Fresh(log), before);
      && Schedule(s, after)
      && var u := Run(s, after);
      && |s.outbox| <= |u.outbox|
      && (u.origin.Some? ==>
            Position(u) <= |u.log|
            && forall i | u.origin.value <= i < Position(u) && Standing(s) <= i && i !in Missed({}, s, after)
                       && Applies(EMPTY, u.log, u.origin.value, i)
                       && u.log[i].plan.finish.escrow == s.hooks[id].escrow ::
                 exists n <- u.outbox[|s.outbox|..] ::
                   n.id == u.log[i].id && u.log[i].plan.finish == Notify(n.escrow, n.name) && id in n.targets)
  {
    var s := Run(Fresh(log), before);
    FaithfulRun(Fresh(log), before);
    var a := Audit(|s.outbox|, Standing(s), Some(Watch(id, s.hooks[id])), {});
    NothingToTell(s, a);
    TellingRun(s, after, a);
    var u := Run(s, after);
    if u.origin.Some? {
      ReadyNow(u);
      ReachedIsPast(u);
      forall i | u.origin.value <= i < Position(u) && Standing(s) <= i && i !in Missed({}, s, after)
              && Applies(EMPTY, u.log, u.origin.value, i)
              && u.log[i].plan.finish.escrow == s.hooks[id].escrow
        ensures exists n <- u.outbox[a.mark..] ::
                  n.id == u.log[i].id && u.log[i].plan.finish == Notify(n.escrow, n.name) && id in n.targets
      {
        assert Told(u.outbox[a.mark..], u.log, i, a.watch);
      }
    }
  }

  lemma NothingToTell(s: State, a: Audit)
    requires Inv(s) && a.mark == |s.outbox| && a.start == Standing(s) && StillThere(s, a.watch)
    ensures Telling(s, a)
  {
    hide Causal, Fold, Flatten, Exec, Applies, Told, PartWayThrough, TaskFits;
    if s.origin.Some? { ReadyNow(s); }
  }
}
