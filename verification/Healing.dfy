/** When a difference between two databases goes away by itself: exactly when it is overwritten. */
module Healing {
  import opened Base
  import opened Tables
  import opened Cells
  import opened Replay
  import opened ReplayCuts

  /** A difference in status or ledger goes away with a write that neither row's ledger keeps out. */
  predicate EscrowHeals(a: EscrowRow, b: EscrowRow, ss: seq<Statement>, e: EscrowId) {
    a.terms == b.terms
    && (a != b ==> exists q <- ss :: OnEscrow(q, e) && q.ledger >= a.updatedLedger && q.ledger >= b.updatedLedger)
  }

  /** Any write overwrites the status, but only a submission the evidence and only a release its kind. */
  predicate MilestoneHeals(a: MilestoneRow, b: MilestoneRow, ss: seq<Statement>, k: Key) {
    a.terms == b.terms
    && (a.status != b.status ==> exists q <- ss :: OnMilestone(q, k))
    && (a.(status := b.status, releasedVia := b.releasedVia) != b ==> exists q <- ss :: q.MarkSubmitted? && q.key == k)
    && (a.releasedVia != b.releasedVia ==> exists q <- ss :: q.ReleaseMilestone? && q.key == k)
  }

  predicate DisputeHeals(a: DisputeRow, b: DisputeRow, ss: seq<Statement>, k: Key) {
    a.raisedBy == b.raisedBy && a.reason == b.reason
    && (a != b ==> exists q <- ss :: q.ResolveDispute? && q.key == k)
  }

  predicate Heals(t: Tables, u: Tables, ss: seq<Statement>)
    requires SameKeys(t, u)
  {
    (forall e <- t.escrows :: EscrowHeals(t.escrows[e], u.escrows[e], ss, e))
    && (forall k <- t.milestones :: MilestoneHeals(t.milestones[k], u.milestones[k], ss, k))
    && (forall k <- t.disputes :: DisputeHeals(t.disputes[k], u.disputes[k], ss, k))
  }

  lemma HealedAlready(t: Tables, u: Tables)
    requires SameKeys(t, u)
    ensures Heals(t, u, []) <==> t == u
  {
    if Heals(t, u, []) {
      assert t.escrows == u.escrows && t.milestones == u.milestones && t.disputes == u.disputes;
    }
  }

  lemma EscrowHealsStep(a: EscrowRow, b: EscrowRow, ss: seq<Statement>, e: EscrowId)
    requires ss != []
    ensures EscrowHeals(a, b, ss, e) <==>
            if OnEscrow(ss[0], e)
            then EscrowHeals(GuardedUpdate(a, ss[0].status, ss[0].ledger),
                             GuardedUpdate(b, ss[0].status, ss[0].ledger), ss[1..], e)
            else EscrowHeals(a, b, ss[1..], e)
  {
    assert forall q :: q in ss <==> q == ss[0] || q in ss[1..];
  }

  lemma MilestoneHealsStep(a: MilestoneRow, b: MilestoneRow, c: bool, d: bool, ss: seq<Statement>, k: Key)
    requires ss != []
    ensures MilestoneHeals(a, b, ss, k) <==>
            if OnMilestone(ss[0], k)
            then MilestoneHeals(WriteMilestone(Some(a), c, ss[0]).value, WriteMilestone(Some(b), d, ss[0]).value,
                                ss[1..], k)
            else MilestoneHeals(a, b, ss[1..], k)
  {
    assert forall q :: q in ss <==> q == ss[0] || q in ss[1..];
  }

  lemma DisputeHealsStep(a: DisputeRow, b: DisputeRow, c: bool, d: bool, ss: seq<Statement>, k: Key)
    requires ss != []
    ensures DisputeHeals(a, b, ss, k) <==>
            if OnDispute(ss[0], k)
            then DisputeHeals(WriteDispute(Some(a), c, ss[0]).value, WriteDispute(Some(b), d, ss[0]).value, ss[1..], k)
            else DisputeHeals(a, b, ss[1..], k)
  {
    assert forall q :: q in ss <==> q == ss[0] || q in ss[1..];
  }

  /** What a statement does to one escrow that both databases have, or both get. */
  lemma EscrowHealsAfter(t: Tables, u: Tables, ss: seq<Statement>, e: EscrowId)
    requires ss != [] && SameKeys(t, u) && e in Apply(t, ss[0]).escrows && e in Apply(u, ss[0]).escrows
    ensures EscrowHeals(Apply(t, ss[0]).escrows[e], Apply(u, ss[0]).escrows[e], ss[1..], e)
       <==> (e in t.escrows ==> EscrowHeals(t.escrows[e], u.escrows[e], ss, e))
  {
    hide Apply, EscrowHeals, GuardedUpdate;
    EscrowCellAfter(t, ss[0], e);
    EscrowCellAfter(u, ss[0], e);
    if e in t.escrows {
      EscrowHealsStep(t.escrows[e], u.escrows[e], ss, e);
    } else {
      SameEscrowHeals(Apply(t, ss[0]).escrows[e], ss[1..], e);
    }
  }

  lemma SameEscrowHeals(a: EscrowRow, ss: seq<Statement>, e: EscrowId)
    ensures EscrowHeals(a, a, ss, e)
  {
  }

  lemma MilestoneHealsAfter(t: Tables, u: Tables, ss: seq<Statement>, k: Key)
    requires ss != [] && SameKeys(t, u) && k in Apply(t, ss[0]).milestones && k in Apply(u, ss[0]).milestones
    ensures MilestoneHeals(Apply(t, ss[0]).milestones[k], Apply(u, ss[0]).milestones[k], ss[1..], k)
       <==> (k in t.milestones ==> MilestoneHeals(t.milestones[k], u.milestones[k], ss, k))
  {
    hide Apply, MilestoneHeals;
    MilestoneCellAfter(t, ss[0], k);
    MilestoneCellAfter(u, ss[0], k);
    if k in t.milestones {
      MilestoneHealsStep(t.milestones[k], u.milestones[k], k.escrow in t.escrows, k.escrow in u.escrows, ss, k);
    } else {
      SameMilestoneHeals(Apply(t, ss[0]).milestones[k], ss[1..], k);
    }
  }

  lemma SameMilestoneHeals(a: MilestoneRow, ss: seq<Statement>, k: Key)
    ensures MilestoneHeals(a, a, ss, k)
  {
  }

  lemma DisputeHealsAfter(t: Tables, u: Tables, ss: seq<Statement>, k: Key)
    requires ss != [] && SameKeys(t, u) && k in Apply(t, ss[0]).disputes && k in Apply(u, ss[0]).disputes
    ensures DisputeHeals(Apply(t, ss[0]).disputes[k], Apply(u, ss[0]).disputes[k], ss[1..], k)
       <==> (k in t.disputes ==> DisputeHeals(t.disputes[k], u.disputes[k], ss, k))
  {
    hide Apply, DisputeHeals;
    DisputeCellAfter(t, ss[0], k);
    DisputeCellAfter(u, ss[0], k);
    if k in t.disputes {
      DisputeHealsStep(t.disputes[k], u.disputes[k], k.escrow in t.escrows, k.escrow in u.escrows, ss, k);
    } else {
      SameDisputeHeals(Apply(t, ss[0]).disputes[k], ss[1..], k);
    }
  }

  lemma SameDisputeHeals(a: DisputeRow, ss: seq<Statement>, k: Key)
    ensures DisputeHeals(a, a, ss, k)
  {
  }

  lemma HealsStep(t: Tables, u: Tables, ss: seq<Statement>)
    requires ss != [] && SameKeys(t, u)
    ensures SameKeys(Apply(t, ss[0]), Apply(u, ss[0]))
    ensures Heals(t, u, ss) <==> Heals(Apply(t, ss[0]), Apply(u, ss[0]), ss[1..])
  {
    hide Apply, EscrowHeals, MilestoneHeals, DisputeHeals;
    var t', u' := Apply(t, ss[0]), Apply(u, ss[0]);
    ApplyRowsMonotone(t, u, ss[0]);
    ApplyRowsMonotone(u, t, ss[0]);
    ApplyKeepsRows(t, ss[0]);
    forall e <- t'.escrows
      ensures EscrowHeals(t'.escrows[e], u'.escrows[e], ss[1..], e)
              <==> (e in t.escrows ==> EscrowHeals(t.escrows[e], u.escrows[e], ss, e))
    {
      EscrowHealsAfter(t, u, ss, e);
    }
    forall k <- t'.milestones
      ensures MilestoneHeals(t'.milestones[k], u'.milestones[k], ss[1..], k)
         <==> (k in t.milestones ==> MilestoneHeals(t.milestones[k], u.milestones[k], ss, k))
    {
      MilestoneHealsAfter(t, u, ss, k);
    }
    forall k <- t'.disputes
      ensures DisputeHeals(t'.disputes[k], u'.disputes[k], ss[1..], k)
              <==> (k in t.disputes ==> DisputeHeals(t.disputes[k], u.disputes[k], ss, k))
    {
      DisputeHealsAfter(t, u, ss, k);
    }
  }

  /**
   * Two databases with the same rows come to agree under a list of statements if, and only if, every
   * column on which they differ is overwritten by one of them.
   */
  lemma {:induction false} HealsExactly(t: Tables, u: Tables, ss: seq<Statement>)
    requires SameKeys(t, u)
    ensures Exec(t, ss) == Exec(u, ss) <==> Heals(t, u, ss)
    decreases |ss|
  {
    hide Apply, Heals;
    if ss == [] {
      HealedAlready(t, u);
    } else {
      HealsStep(t, u, ss);
      HealsExactly(Apply(t, ss[0]), Apply(u, ss[0]), ss[1..]);
    }
  }

  /**
   * Leaving out a statement that creates no row is harmless if, and only if, what it changes is
   * overwritten later; a statement that lacks its row changes nothing.
   */
  lemma DropIsHarmlessExactly(t: Tables, s: Statement, after: seq<Statement>)
    requires Missing(t, s) || Landed(t, s)
    ensures SameKeys(t, Apply(t, s))
    ensures Exec(t, after) == Exec(t, [s] + after) <==> Heals(t, Apply(t, s), after)
  {
    hide Apply, Heals, Missing, Landed;
    SettledKeepsRows(t, s);
    HealsExactly(t, Apply(t, s), after);
    assert ([s] + after)[1..] == after;
  }

  predicate Creates(p: Statement, row: Row) {
    (p.UpsertEscrow? || p.UpsertMilestone? || p.InsertDispute?) && RowOf(p) == row
  }

  predicate IsThere(t: Tables, row: Row) {
    match row
    case OfEscrow(id) => id in t.escrows
    case OfMilestone(key) => key in t.milestones
    case OfDispute(key) => key in t.disputes
  }

  lemma OnlyCreatorsCreate(t: Tables, s: Statement, row: Row)
    requires !Creates(s, row)
    ensures IsThere(Apply(t, s), row) == IsThere(t, row)
  {
  }

  lemma {:induction false} AbsentUnlessCreated(t: Tables, ss: seq<Statement>, row: Row)
    requires !IsThere(t, row) && forall p <- ss :: !Creates(p, row)
    ensures !IsThere(Exec(t, ss), row)
    decreases |ss|
  {
    hide Apply, IsThere, Creates;
    if ss == [] {
    } else {
      assert ss[0] in ss;
      OnlyCreatorsCreate(t, ss[0], row);
      forall p <- ss[1..] ensures !Creates(p, row) { assert p in ss; }
      AbsentUnlessCreated(Apply(t, ss[0]), ss[1..], row);
    }
  }

  lemma RowsStay(t: Tables, u: Tables, row: Row)
    requires RowsWithin(t, u) && IsThere(t, row)
    ensures IsThere(u, row)
  {
  }

  /** A row that only one of two databases has makes the difference permanent unless it is created again. */
  lemma MissingRowsDoNotHeal(t: Tables, u: Tables, ss: seq<Statement>, row: Row)
    requires !IsThere(t, row) && IsThere(u, row) && forall p <- ss :: !Creates(p, row)
    ensures Exec(t, ss) != Exec(u, ss)
  {
    hide IsThere, Creates, Exec;
    AbsentUnlessCreated(t, ss, row);
    ExecKeepsRows(u, ss);
    RowsStay(u, Exec(u, ss), row);
  }

  /** The comparison can start anywhere along the list, as soon as both databases have the same rows. */
  lemma HealsFrom(t: Tables, u: Tables, ss: seq<Statement>, n: nat)
    requires n <= |ss| && SameKeys(Exec(t, ss[..n]), Exec(u, ss[..n]))
    ensures Exec(t, ss) == Exec(u, ss) <==> Heals(Exec(t, ss[..n]), Exec(u, ss[..n]), ss[n..])
  {
    hide Exec, Heals, RowsWithin;
    assert ss == ss[..n] + ss[n..];
    ExecAppend(t, ss[..n], ss[n..]);
    ExecAppend(u, ss[..n], ss[n..]);
    HealsExactly(Exec(t, ss[..n]), Exec(u, ss[..n]), ss[n..]);
  }

  /**
   * When a difference between two databases matters after a list of statements: exactly unless it heals,
   * from any point on where both have the same rows; and a row only one of them has, and that nothing
   * creates, keeps them apart.
   */
  lemma DifferenceMatters(t: Tables, u: Tables, ss: seq<Statement>)
    ensures forall n | 0 <= n <= |ss| && SameKeys(Exec(t, ss[..n]), Exec(u, ss[..n])) ::
              (Exec(t, ss) == Exec(u, ss) <==> Heals(Exec(t, ss[..n]), Exec(u, ss[..n]), ss[n..]))
    ensures forall row | IsThere(t, row) != IsThere(u, row) && (forall q <- ss :: !Creates(q, row)) ::
              Exec(t, ss) != Exec(u, ss)
  {
    hide Exec, Heals, IsThere, Creates, RowsWithin;
    forall n | 0 <= n <= |ss| && SameKeys(Exec(t, ss[..n]), Exec(u, ss[..n]))
      ensures Exec(t, ss) == Exec(u, ss) <==> Heals(Exec(t, ss[..n]), Exec(u, ss[..n]), ss[n..])
    {
      HealsFrom(t, u, ss, n);
    }
    forall row | IsThere(t, row) != IsThere(u, row) && (forall q <- ss :: !Creates(q, row))
      ensures Exec(t, ss) != Exec(u, ss)
    {
      if IsThere(u, row) { MissingRowsDoNotHeal(t, u, ss, row); } else { MissingRowsDoNotHeal(u, t, ss, row); }
    }
  }
}
