/** Escrows do not interfere: each one's rows depend only on the statements that name it. */
module Isolation {
  import opened Base
  import opened Tables
  import opened Cells
  import opened Decode
  import opened Events
  import opened Log

  /** The rows of one escrow. */
  function Slice(t: Tables, e: EscrowId): Tables {
    Tables(map id | id in t.escrows && id == e :: t.escrows[id],
           map k | k in t.milestones && k.escrow == e :: t.milestones[k],
           map k | k in t.disputes && k.escrow == e :: t.disputes[k])
  }

  /** The statements that name one escrow, in order. */
  function About(ss: seq<Statement>, e: EscrowId): seq<Statement> {
    if ss == [] then [] else (if ss[0].Escrow() == e then [ss[0]] else []) + About(ss[1..], e)
  }

  lemma SliceCells(t: Tables, e: EscrowId)
    ensures forall id :: EscrowCell(Slice(t, e), id) == if id == e then EscrowCell(t, id) else None
    ensures forall k: Key :: MilestoneCell(Slice(t, e), k) == if k.escrow == e then MilestoneCell(t, k) else None
    ensures forall k: Key :: DisputeCell(Slice(t, e), k) == if k.escrow == e then DisputeCell(t, k) else None
  {
  }

  /** A statement acts on its own escrow's slice as on the whole, and leaves the other slices alone. */
  lemma SliceStep(t: Tables, s: Statement, e: EscrowId)
    ensures Slice(Apply(t, s), e) == if s.Escrow() == e then Apply(Slice(t, e), s) else Slice(t, e)
  {
    hide Apply, Slice;
    var whole, part := Slice(Apply(t, s), e), if s.Escrow() == e then Apply(Slice(t, e), s) else Slice(t, e);
    SliceCells(t, e);
    SliceCells(Apply(t, s), e);
    forall id ensures EscrowCell(whole, id) == EscrowCell(part, id) {
      EscrowCellAfter(t, s, id);
      EscrowCellAfter(Slice(t, e), s, id);
    }
    assert EscrowCell(Slice(t, e), e) == EscrowCell(t, e);
    forall k ensures MilestoneCell(whole, k) == MilestoneCell(part, k) {
      MilestoneCellAfter(t, s, k);
      MilestoneCellAfter(Slice(t, e), s, k);
    }
    forall k ensures DisputeCell(whole, k) == DisputeCell(part, k) {
      DisputeCellAfter(t, s, k);
      DisputeCellAfter(Slice(t, e), s, k);
    }
    SameCells(whole, part);
  }

  /** The rows of an escrow after any statements are those its own statements produce from its own rows. */
  lemma {:induction false} SliceOfRun(t: Tables, ss: seq<Statement>, e: EscrowId)
    ensures Slice(Exec(t, ss), e) == Exec(Slice(t, e), About(ss, e))
    decreases |ss|
  {
    hide Apply, Slice;
    if ss == [] {
    } else {
      SliceStep(t, ss[0], e);
      SliceOfRun(Apply(t, ss[0]), ss[1..], e);
      if ss[0].Escrow() == e {
        assert ([ss[0]] + About(ss[1..], e))[1..] == About(ss[1..], e);
      } else {
        assert [] + About(ss[1..], e) == About(ss[1..], e);
      }
    }
  }

  lemma SameSlices(t: Tables, u: Tables)
    requires forall e :: Slice(t, e) == Slice(u, e)
    ensures t == u
  {
    hide Slice;
    forall e ensures EscrowCell(t, e) == EscrowCell(u, e) {
      SliceCells(t, e); SliceCells(u, e); assert Slice(t, e) == Slice(u, e);
    }
    forall k: Key ensures MilestoneCell(t, k) == MilestoneCell(u, k) {
      SliceCells(t, k.escrow); SliceCells(u, k.escrow); assert Slice(t, k.escrow) == Slice(u, k.escrow);
    }
    forall k: Key ensures DisputeCell(t, k) == DisputeCell(u, k) {
      SliceCells(t, k.escrow); SliceCells(u, k.escrow); assert Slice(t, k.escrow) == Slice(u, k.escrow);
    }
    SameCells(t, u);
  }

  /** Any two interleavings of the same per-escrow streams give the same tables. */
  lemma InterleavingIrrelevant(t: Tables, a: seq<Statement>, b: seq<Statement>)
    requires forall e :: About(a, e) == About(b, e)
    ensures Exec(t, a) == Exec(t, b)
  {
    hide Slice, Exec;
    forall e ensures Slice(Exec(t, a), e) == Slice(Exec(t, b), e) {
      SliceOfRun(t, a, e);
      SliceOfRun(t, b, e);
      assert About(a, e) == About(b, e);
    }
    SameSlices(Exec(t, a), Exec(t, b));
  }

  lemma {:induction false} AboutAppend(a: seq<Statement>, b: seq<Statement>, e: EscrowId)
    ensures About(a + b, e) == About(a, e) + About(b, e)
    decreases |a|
  {
    if a == [] {
      assert a + b == b;
    } else {
      var first := if a[0].Escrow() == e then [a[0]] else [];
      assert (a + b)[0] == a[0] && (a + b)[1..] == a[1..] + b;
      AboutAppend(a[1..], b, e);
      assert first + (About(a[1..], e) + About(b, e)) == (first + About(a[1..], e)) + About(b, e);
    }
  }

  lemma {:induction false} AboutOwn(a: seq<Statement>, e: EscrowId)
    requires forall s <- a :: s.Escrow() == e
    ensures About(a, e) == a
  {
    if a == [] {
    } else {
      assert a[0] in a;
      AboutOwn(a[1..], e);
    }
  }

  lemma {:induction false} AboutNone(a: seq<Statement>, e: EscrowId)
    requires forall s <- a :: s.Escrow() != e
    ensures About(a, e) == []
  {
    if a == [] {
    } else {
      assert a[0] in a;
      AboutNone(a[1..], e);
    }
  }

  /** Events on different escrows commute. */
  lemma EventsCommute(t: Tables, a: seq<Statement>, b: seq<Statement>, x: EscrowId, y: EscrowId)
    requires x != y && (forall s <- a :: s.Escrow() == x) && (forall s <- b :: s.Escrow() == y)
    ensures Exec(Exec(t, a), b) == Exec(Exec(t, b), a)
  {
    hide Exec;
    forall e ensures About(a + b, e) == About(b + a, e) {
      AboutAppend(a, b, e);
      AboutAppend(b, a, e);
      if e != x { AboutNone(a, e); }
      if e != y { AboutNone(b, e); }
    }
    InterleavingIrrelevant(t, a + b, b + a);
    ExecAppend(t, a, b);
    ExecAppend(t, b, a);
  }

  // ----- chain events -----

  /** The event's second topic is this on-chain id. */
  predicate NamesId(event: RpcEvent, id: u64) {
    |event.topic| >= 2 && event.topic[1] == Some(U64(id))
  }

  /** The first statement of a plan, if any, is on this escrow. */
  predicate StartsOn(plan: Plan, e: EscrowId) {
    plan.statements != [] ==> plan.statements[0].Escrow() == e
  }

  lemma PlansStartOnTheirEscrow(contractId: string, head: Head, ledger: i64, closedAt: int)
    ensures StartsOn(CreatedPlan(contractId, head, ledger), head.escrow)
    ensures StartsOn(SubmittedPlan(head, ledger, closedAt), head.escrow)
    ensures StartsOn(RaisedPlan(head), head.escrow) && StartsOn(ResolvedPlan(head), head.escrow)
  {
    hide DecodeTerms, DecodeMilestones, MapGet, MilestonePlan, MilestoneField, UriAndHash, AddressField, TextField,
         DecodeResolution;
  }

  lemma SmallPlansStartOnTheirEscrow(head: Head, ledger: i64)
    ensures forall via :: StartsOn(ReleasedPlan(head, via), head.escrow)
    ensures StartsOn(ExpiredPlan(head), head.escrow)
    ensures forall status :: StartsOn(EscrowStatusPlan(head, status, ledger), head.escrow)
  {
    hide MilestoneField;
  }

  lemma PlanStartsOnItsEscrow(event: RpcEvent, head: Head)
    ensures StartsOn(PlanFor(event, head), head.escrow)
  {
    hide CreatedPlan, SubmittedPlan, RaisedPlan, ResolvedPlan, ReleasedPlan, ExpiredPlan, EscrowStatusPlan;
    SmallPlansStartOnTheirEscrow(head, event.ledger);
    PlansStartOnTheirEscrow(event.contractId, head, event.ledger, event.ledgerClosedAt);
  }

  /** All statements of an event name the one row key its on-chain id is cast to. */
  lemma PlanStaysOnItsEscrow(event: RpcEvent, id: u64)
    ensures NamesId(event, id) ==> forall s <- PlanOf(event).statements :: s.Escrow() == U64AsI64(id)
    ensures !NamesId(event, id) ==> forall s <- PlanOf(event).statements :: s.Escrow() != U64AsI64(id)
  {
    hide WellFormed, PlanFor;
    EveryEventIsWellPlanned(event);
    CastsAreInjective();
    var ss := PlanOf(event).statements;
    if ss != [] {
      PlanStartsOnItsEscrow(event, DecodeHead(event).value);
      assert event.topic[1].Some? && event.topic[1].value.U64?;
      assert ss[0].Escrow() == U64AsI64(event.topic[1].value.u64);
    }
  }

  /** Events on distinct on-chain ids commute, whatever the ids. */
  lemma ChainEventsCommute(t: Tables, a: RpcEvent, b: RpcEvent, i: u64, j: u64)
    requires NamesId(a, i) && NamesId(b, j) && i != j
    ensures Exec(Exec(t, PlanOf(a).statements), PlanOf(b).statements)
            == Exec(Exec(t, PlanOf(b).statements), PlanOf(a).statements)
  {
    hide PlanOf, Exec;
    PlanStaysOnItsEscrow(a, i);
    PlanStaysOnItsEscrow(b, j);
    CastsAreInjective();
    EventsCommute(t, PlanOf(a).statements, PlanOf(b).statements, U64AsI64(i), U64AsI64(j));
  }

  /** The events that name an on-chain id, in order. */
  function Naming(events: seq<RpcEvent>, id: u64): seq<RpcEvent> {
    if events == [] then [] else (if NamesId(events[0], id) then [events[0]] else []) + Naming(events[1..], id)
  }

  lemma EntriesCons(event: RpcEvent, rest: seq<RpcEvent>)
    ensures EntriesOf([event] + rest) == [EntryOf(event)] + EntriesOf(rest)
    ensures Flatten(EntriesOf([event] + rest)) == Work(EntryOf(event)) + Flatten(EntriesOf(rest))
  {
    hide EntryOf, PlanOf;
    var all := [event] + rest;
    assert forall i | 0 < i < |all| :: all[i] == rest[i - 1];
    assert ([EntryOf(event)] + EntriesOf(rest))[1..] == EntriesOf(rest);
  }

  lemma {:induction false} AboutFlatten(events: seq<RpcEvent>, id: u64)
    ensures About(Flatten(EntriesOf(events)), U64AsI64(id)) == Flatten(EntriesOf(Naming(events, id)))
    decreases |events|
  {
    hide PlanOf;
    if events == [] {
    } else {
      var e := U64AsI64(id);
      var first, rest := events[0], events[1..];
      assert events == [first] + rest;
      EntriesCons(first, rest);
      AboutAppend(Work(EntryOf(first)), Flatten(EntriesOf(rest)), e);
      AboutFlatten(rest, id);
      PlanStaysOnItsEscrow(first, id);
      if NamesId(first, id) {
        AboutOwn(Work(EntryOf(first)), e);
        EntriesCons(first, Naming(rest, id));
      } else {
        AboutNone(Work(EntryOf(first)), e);
        assert [] + Naming(rest, id) == Naming(rest, id);
      }
    }
  }

  /**
   * Non-interference: after any events, the rows of one on-chain escrow are what its own events
   * alone make of its own earlier rows.
   */
  lemma OwnEventsSuffice(t: Tables, events: seq<RpcEvent>, id: u64)
    ensures Slice(Exec(t, Flatten(EntriesOf(events))), U64AsI64(id))
         == Exec(Slice(t, U64AsI64(id)), Flatten(EntriesOf(Naming(events, id))))
  {
    hide Slice, Exec;
    SliceOfRun(t, Flatten(EntriesOf(events)), U64AsI64(id));
    AboutFlatten(events, id);
  }
}
