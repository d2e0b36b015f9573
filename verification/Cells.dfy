/** Row-by-row view of the tables: what one statement does to the one cell it names. */
module Cells {
  import opened Base
  import opened Tables

  function EscrowCell(t: Tables, e: EscrowId): Option<EscrowRow> {
    if e in t.escrows then Some(t.escrows[e]) else None
  }

  function MilestoneCell(t: Tables, k: Key): Option<MilestoneRow> {
    if k in t.milestones then Some(t.milestones[k]) else None
  }

  function DisputeCell(t: Tables, k: Key): Option<DisputeRow> {
    if k in t.disputes then Some(t.disputes[k]) else None
  }

  predicate OnEscrow(s: Statement, e: EscrowId) {
    (s.UpsertEscrow? || s.SetEscrowStatus?) && s.id == e
  }

  predicate OnMilestone(s: Statement, k: Key) {
    (s.UpsertMilestone? || s.SetMilestoneStatus? || s.MarkSubmitted? || s.ReleaseMilestone?) && s.key == k
  }

  predicate OnDispute(s: Statement, k: Key) {
    (s.InsertDispute? || s.ResolveDispute?) && s.key == k
  }

  function WriteEscrow(c: Option<EscrowRow>, s: Statement): Option<EscrowRow>
    requires s.UpsertEscrow? || s.SetEscrowStatus?
  {
    if c.Some? then Some(GuardedUpdate(c.value, s.status, s.ledger))
    else if s.UpsertEscrow? then Some(EscrowRow(s.escrowTerms, s.status, s.ledger))
    else None
  }

  function WriteMilestone(c: Option<MilestoneRow>, escrowThere: bool, s: Statement): Option<MilestoneRow>
    requires s.UpsertMilestone? || s.SetMilestoneStatus? || s.MarkSubmitted? || s.ReleaseMilestone?
  {
    if c.None? then
      if s.UpsertMilestone? && escrowThere
      then Some(MilestoneRow(s.milestoneTerms, s.status, None, None, None, None))
      else None
    else
      match s
      case MarkSubmitted(_, uri, hash, at) =>
        Some(c.value.(status := "submitted", evidenceUri := uri, evidenceHash := hash, submittedAt := Some(at)))
      case ReleaseMilestone(_, via) => Some(c.value.(status := "released", releasedVia := Some(via)))
      case _ => Some(c.value.(status := s.status))
  }

  function WriteDispute(c: Option<DisputeRow>, escrowThere: bool, s: Statement): Option<DisputeRow>
    requires s.InsertDispute? || s.ResolveDispute?
  {
    match s
    case InsertDispute(_, raisedBy, reason) =>
      if c.Some? || !escrowThere then c else Some(DisputeRow(raisedBy, reason, "open", None, None))
    case ResolveDispute(_, kind, bps) =>
      if c.None? then None
      else Some(c.value.(status := "resolved", resolutionKind := Some(kind), resolutionBps := bps))
  }

  lemma EscrowCellAfter(t: Tables, s: Statement, e: EscrowId)
    ensures EscrowCell(Apply(t, s), e)
         == if OnEscrow(s, e) then WriteEscrow(EscrowCell(t, e), s) else EscrowCell(t, e)
  {
  }

  lemma MilestoneCellAfter(t: Tables, s: Statement, k: Key)
    ensures MilestoneCell(Apply(t, s), k)
         == if OnMilestone(s, k) then WriteMilestone(MilestoneCell(t, k), k.escrow in t.escrows, s)
            else MilestoneCell(t, k)
  {
  }

  lemma DisputeCellAfter(t: Tables, s: Statement, k: Key)
    ensures DisputeCell(Apply(t, s), k)
         == if OnDispute(s, k) then WriteDispute(DisputeCell(t, k), k.escrow in t.escrows, s)
            else DisputeCell(t, k)
  {
  }

  /** Tables that agree on every cell are equal. */
  lemma SameCells(t: Tables, u: Tables)
    requires forall e :: EscrowCell(t, e) == EscrowCell(u, e)
    requires forall k :: MilestoneCell(t, k) == MilestoneCell(u, k)
    requires forall k :: DisputeCell(t, k) == DisputeCell(u, k)
    ensures t == u
  {
    forall e ensures e in t.escrows <==> e in u.escrows
             ensures e in t.escrows ==> t.escrows[e] == u.escrows[e]
    {
      assert EscrowCell(t, e) == EscrowCell(u, e);
    }
    assert t.escrows == u.escrows;
    forall k ensures k in t.milestones <==> k in u.milestones
             ensures k in t.milestones ==> t.milestones[k] == u.milestones[k]
    {
      assert MilestoneCell(t, k) == MilestoneCell(u, k);
    }
    assert t.milestones == u.milestones;
    forall k ensures k in t.disputes <==> k in u.disputes
             ensures k in t.disputes ==> t.disputes[k] == u.disputes[k]
    {
      assert DisputeCell(t, k) == DisputeCell(u, k);
    }
    assert t.disputes == u.disputes;
  }
}
