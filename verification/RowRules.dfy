/** What every statement keeps true of the rows, and what it never changes. */
module RowRules {
  import opened Base
  import opened Decode
  import opened Tables
  import opened Cells
  import opened Events

  predicate GoodEscrow(r: EscrowRow) {
    r.status in ESCROW_STATUSES && (r.terms.metadataUri.Some? <==> r.terms.metadataHash.Some?)
  }

  predicate GoodMilestone(r: MilestoneRow) {
    (r.status in PLAIN_MILESTONE_STATUSES || r.status == "submitted" || r.status == "released")
    && (r.status == "released" ==> r.releasedVia.Some?)
    && (r.releasedVia.Some? ==> r.releasedVia.value in RELEASES)
    && (r.status == "submitted" ==> r.submittedAt.Some?)
    && (r.evidenceUri.Some? <==> r.evidenceHash.Some?)
    && (r.evidenceUri.Some? ==> r.submittedAt.Some?)
    && -TWO_127 <= r.terms.amount < TWO_127
  }

  predicate GoodDispute(r: DisputeRow) {
    (r.status == "open" || r.status == "resolved")
    && (r.status == "resolved" <==> r.resolutionKind.Some?)
    && (r.resolutionKind.Some? ==> r.resolutionKind.value in KINDS)
    && (r.resolutionBps.Some? <==> r.resolutionKind == Some("split"))
  }

  predicate Consistent(t: Tables) {
    (forall e <- t.escrows :: GoodEscrow(t.escrows[e]))
    && (forall k <- t.milestones :: k.escrow in t.escrows && GoodMilestone(t.milestones[k]))
    && (forall k <- t.disputes :: k.escrow in t.escrows && GoodDispute(t.disputes[k]))
  }

  lemma StatusWordsDiffer()
    ensures "released" !in PLAIN_MILESTONE_STATUSES && "submitted" !in PLAIN_MILESTONE_STATUSES
    ensures "pending" in PLAIN_MILESTONE_STATUSES && "released" != "submitted" && "open" != "resolved"
  {
    assert "resolved"[2] == 's' && "disputed"[0] == 'd' && "released"[2] == 'l';
    assert |"expired"| == |"pending"| == 7 && |"released"| == 8 && |"submitted"| == 9;
  }

  lemma GoodEscrowKept(c: Option<EscrowRow>, s: Statement)
    requires WellFormed(s) && (s.UpsertEscrow? || s.SetEscrowStatus?)
    requires c.Some? ==> GoodEscrow(c.value)
    ensures WriteEscrow(c, s).Some? ==> GoodEscrow(WriteEscrow(c, s).value)
  {
  }

  lemma GoodMilestoneKept(c: Option<MilestoneRow>, there: bool, s: Statement)
    requires WellFormed(s)
    requires s.UpsertMilestone? || s.SetMilestoneStatus? || s.MarkSubmitted? || s.ReleaseMilestone?
    requires c.Some? ==> GoodMilestone(c.value)
    ensures WriteMilestone(c, there, s).Some? ==> GoodMilestone(WriteMilestone(c, there, s).value)
  {
    StatusWordsDiffer();
  }

  lemma GoodDisputeKept(c: Option<DisputeRow>, there: bool, s: Statement)
    requires WellFormed(s) && (s.InsertDispute? || s.ResolveDispute?)
    requires c.Some? ==> GoodDispute(c.value)
    ensures WriteDispute(c, there, s).Some? ==> GoodDispute(WriteDispute(c, there, s).value)
  {
    StatusWordsDiffer();
  }

  /** Foreign keys and column agreements hold after every statement the indexer can issue. */
  lemma ConsistentKept(t: Tables, s: Statement)
    requires Consistent(t) && WellFormed(s)
    ensures Consistent(Apply(t, s))
  {
    hide GoodEscrow, GoodMilestone, GoodDispute, WellFormed, WriteEscrow;
    var u := Apply(t, s);
    forall e <- u.escrows ensures GoodEscrow(u.escrows[e]) {
      EscrowCellAfter(t, s, e);
      if OnEscrow(s, e) { GoodEscrowKept(EscrowCell(t, e), s); }
    }
    forall k <- u.milestones ensures k.escrow in u.escrows && GoodMilestone(u.milestones[k]) {
      MilestoneCellAfter(t, s, k);
      if OnMilestone(s, k) { GoodMilestoneKept(MilestoneCell(t, k), k.escrow in t.escrows, s); }
    }
    forall k <- u.disputes ensures k.escrow in u.escrows && GoodDispute(u.disputes[k]) {
      DisputeCellAfter(t, s, k);
      if OnDispute(s, k) { GoodDisputeKept(DisputeCell(t, k), k.escrow in t.escrows, s); }
    }
  }

  /**
   * `u` is a later version of `t`: no row is gone, the columns written at insertion are the
   * same, no escrow's ledger went back, and no resolved dispute is open again.
   */
  predicate LaterThan(u: Tables, t: Tables) {
    (forall e <- t.escrows ::
       && e in u.escrows
       && u.escrows[e].terms == t.escrows[e].terms
       && u.escrows[e].updatedLedger >= t.escrows[e].updatedLedger)
    && (forall k <- t.milestones :: k in u.milestones && u.milestones[k].terms == t.milestones[k].terms)
    && (forall k <- t.disputes ::
          && k in u.disputes
          && u.disputes[k].raisedBy == t.disputes[k].raisedBy
          && u.disputes[k].reason == t.disputes[k].reason
          && (t.disputes[k].status == "resolved" ==> u.disputes[k].status == "resolved"))
  }

  lemma StatementKeepsHistory(t: Tables, s: Statement)
    ensures LaterThan(Apply(t, s), t)
  {
    hide Apply;
    var u := Apply(t, s);
    forall e <- t.escrows
      ensures e in u.escrows && u.escrows[e].terms == t.escrows[e].terms
              && u.escrows[e].updatedLedger >= t.escrows[e].updatedLedger
    {
      EscrowCellAfter(t, s, e);
    }
    forall k <- t.milestones ensures k in u.milestones && u.milestones[k].terms == t.milestones[k].terms {
      MilestoneCellAfter(t, s, k);
    }
    forall k <- t.disputes
      ensures k in u.disputes && u.disputes[k].raisedBy == t.disputes[k].raisedBy
              && u.disputes[k].reason == t.disputes[k].reason
      ensures t.disputes[k].status == "resolved" ==> u.disputes[k].status == "resolved"
    {
      DisputeCellAfter(t, s, k);
    }
  }

  lemma LaterThanIsTransitive(t: Tables, u: Tables, v: Tables)
    requires LaterThan(u, t) && LaterThan(v, u)
    ensures LaterThan(v, t)
  {
  }

  // ----- agreement between milestones and disputes -----

  /** A disputed milestone has a dispute, and a resolved one a resolved dispute. */
  predicate Agreement(t: Tables) {
    (forall k <- t.milestones | t.milestones[k].status == "disputed" :: k in t.disputes)
    && (forall k <- t.milestones | t.milestones[k].status == "resolved" ::
          k in t.disputes && t.disputes[k].status == "resolved")
  }

  /** The event resolves a dispute that was never raised, on a milestone that is there. */
  predicate ResolvesNothing(t: Tables, plan: Plan) {
    exists s <- plan.statements :: s.ResolveDispute? && s.key in t.milestones && s.key !in t.disputes
  }

  predicate SetsDisputeStatus(s: Statement) {
    s.SetMilestoneStatus? && (s.status == "disputed" || s.status == "resolved")
  }

  lemma OtherStatementsAgree(t: Tables, s: Statement)
    requires Agreement(t) && WellFormed(s) && !SetsDisputeStatus(s)
    ensures Agreement(Apply(t, s))
  {
    StatusWordsDiffer();
    assert "pending"[0] == 'p' && |"disputed"| == |"resolved"| == 8;
  }

  lemma {:induction false} OtherListsAgree(t: Tables, ss: seq<Statement>)
    requires Agreement(t) && forall s <- ss :: WellFormed(s) && !SetsDisputeStatus(s)
    ensures Agreement(Exec(t, ss))
    decreases |ss|
  {
    if ss == [] {
    } else {
      assert ss[0] in ss;
      OtherStatementsAgree(t, ss[0]);
      OtherListsAgree(Apply(t, ss[0]), ss[1..]);
    }
  }

  /** At event boundaries the two tables agree, exactly unless the event resolves a dispute nobody raised. */
  lemma EventKeepsAgreement(t: Tables, plan: Plan)
    requires Consistent(t) && Agreement(t) && WellPlanned(plan)
    ensures Agreement(Exec(t, plan.statements)) <==> !ResolvesNothing(t, plan)
  {
    var ss := plan.statements;
    if exists s <- ss :: SetsDisputeStatus(s) {
      var i :| 0 <= i < |ss| && SetsDisputeStatus(ss[i]);
      assert ss == [ss[0], ss[1]];
      DisputePairAgrees(t, ss[0], ss[1]);
      ExecPair(t, ss[0], ss[1]);
    } else {
      forall s <- ss ensures WellFormed(s) && !s.ResolveDispute? {
        var i :| 0 <= i < |ss| && ss[i] == s;
        if s.ResolveDispute? { assert SetsDisputeStatus(ss[0]); }
      }
      OtherListsAgree(t, ss);
    }
  }

  lemma ExecPair(t: Tables, a: Statement, b: Statement)
    ensures Exec(t, [a, b]) == Apply(Apply(t, a), b)
  {
    assert [a, b] == [a] + [b] && [a][1..] == [];
    ExecSnoc(t, [a], b);
  }

  lemma DisputePairAgrees(t: Tables, a: Statement, b: Statement)
    requires Consistent(t) && Agreement(t) && a.SetMilestoneStatus? && b.Escrow() == a.Escrow()
    requires (a.status == "disputed" && b.InsertDispute? && b.key == a.key)
          || (a.status == "resolved" && b.ResolveDispute? && b.key == a.key)
    ensures Agreement(Apply(Apply(t, a), b)) <==> !(b.ResolveDispute? && b.key in t.milestones && b.key !in t.disputes)
  {
    hide Apply, Agreement, GoodEscrow, GoodMilestone, GoodDispute;
    var u := Apply(Apply(t, a), b);
    forall j ensures PairCells(t, u, a, b, j) { PairCellsAfter(t, a, b, j); }
    PairAgreement(t, u, a, b);
  }

  /** The rows after the pair: only the named milestone and dispute can differ. */
  predicate PairCells(t: Tables, u: Tables, a: Statement, b: Statement, j: Key)
    requires a.SetMilestoneStatus? && (b.InsertDispute? || b.ResolveDispute?)
  {
    MilestoneCell(u, j) == (if j == a.key then WriteMilestone(MilestoneCell(t, j), j.escrow in t.escrows, a)
                            else MilestoneCell(t, j))
    && DisputeCell(u, j) == (if j == b.key then WriteDispute(DisputeCell(t, j), j.escrow in t.escrows, b)
                             else DisputeCell(t, j))
  }

  lemma PairCellsAfter(t: Tables, a: Statement, b: Statement, j: Key)
    requires a.SetMilestoneStatus? && (b.InsertDispute? || b.ResolveDispute?)
    ensures PairCells(t, Apply(Apply(t, a), b), a, b, j)
  {
    hide Apply, WriteMilestone, WriteDispute;
    MilestoneCellAfter(t, a, j);
    MilestoneCellAfter(Apply(t, a), b, j);
    DisputeCellAfter(t, a, j);
    DisputeCellAfter(Apply(t, a), b, j);
    EscrowCellAfter(t, a, j.escrow);
  }

  lemma PairAgreement(t: Tables, u: Tables, a: Statement, b: Statement)
    requires a.SetMilestoneStatus? && (b.InsertDispute? || b.ResolveDispute?) && b.key == a.key
    requires Agreement(t) && (forall k <- t.milestones :: k.escrow in t.escrows) && forall j :: PairCells(t, u, a, b, j)
    requires b.InsertDispute? ==> a.status == "disputed"
    requires b.ResolveDispute? ==> a.status == "resolved"
    ensures Agreement(u) <==> !(b.ResolveDispute? && b.key in t.milestones && b.key !in t.disputes)
  {
    assert "disputed"[0] == 'd' && "resolved"[0] == 'r';
    var k := a.key;
    assert PairCells(t, u, a, b, k);
    if b.ResolveDispute? && k in t.milestones && k !in t.disputes {
      assert k in u.milestones && u.milestones[k].status == "resolved" && k !in u.disputes;
    } else {
      forall j <- u.milestones
        ensures u.milestones[j].status == "disputed" ==> j in u.disputes
        ensures u.milestones[j].status == "resolved" ==> j in u.disputes && u.disputes[j].status == "resolved"
      {
        assert PairCells(t, u, a, b, j);
      }
    }
  }
}
