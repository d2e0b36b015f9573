/** Exactly which statement lists absorb runs that were cut, at one place or at any place. */
module ReplayCuts {
  import opened Base
  import opened Tables
  import opened Cells
  import opened Replay
  import opened ReplayExact

  /** The statement had no effect in the run from `t`, but has one on a retry from `x`. */
  predicate ActsLate(t: Tables, x: Tables, ss: seq<Statement>, i: nat)
    requires i < |ss|
  {
    !Effective(t, ss, i) && Effective(x, ss, i)
  }

  /** The row shows the content this statement would insert; only inserts have such content. */
  predicate SameContent(t: Tables, s: Statement) {
    match s
    case UpsertMilestone(key, terms, _) => key in t.milestones && t.milestones[key].terms == terms
    case InsertDispute(key, raisedBy, reason) =>
      key in t.disputes && t.disputes[key].raisedBy == raisedBy && t.disputes[key].reason == reason
    case _ => true
  }

  /**
   * What only the retry lets in is superseded later; and where it creates its row, the row of the
   * first run has the same content.
   */
  predicate Absorbable(t: Tables, x: Tables, ss: seq<Statement>) {
    forall i | 0 <= i < |ss| && ActsLate(t, x, ss, i) ::
      SupersededLater(t, ss, i) && (!Landed(Exec(x, ss[..i]), ss[i]) ==> SameContent(Exec(t, ss), ss[i]))
  }

  // ----- what the retry lets in can be left out -----

  datatype Row = OfEscrow(id: EscrowId) | OfMilestone(key: Key) | OfDispute(key: Key)

  function RowOf(s: Statement): Row {
    if s.UpsertEscrow? || s.SetEscrowStatus? then OfEscrow(s.id)
    else if s.InsertDispute? || s.ResolveDispute? then OfDispute(s.key)
    else OfMilestone(s.key)
  }

  /** Creating a row commutes with any statement that takes effect on another one. */
  lemma InsertCommutes(x: Tables, s: Statement, h: Statement)
    requires !Landed(x, s) && !Missing(x, s) && !Missing(x, h) && RowOf(h) != RowOf(s)
    ensures Apply(Apply(x, s), h) == Apply(Apply(x, h), s)
  {
    var u, v := Apply(Apply(x, s), h), Apply(Apply(x, h), s);
    forall e ensures EscrowCell(u, e) == EscrowCell(v, e) { EscrowsCommute(x, s, h, e); }
    forall k ensures MilestoneCell(u, k) == MilestoneCell(v, k) { MilestonesCommute(x, s, h, k); }
    forall k ensures DisputeCell(u, k) == DisputeCell(v, k) { DisputesCommute(x, s, h, k); }
    SameCells(u, v);
  }

  lemma EscrowsCommute(x: Tables, s: Statement, h: Statement, e: EscrowId)
    requires RowOf(h) != RowOf(s)
    ensures EscrowCell(Apply(Apply(x, s), h), e) == EscrowCell(Apply(Apply(x, h), s), e)
  {
    hide Apply, WriteEscrow;
    EscrowCellAfter(x, s, e); EscrowCellAfter(Apply(x, s), h, e);
    EscrowCellAfter(x, h, e); EscrowCellAfter(Apply(x, h), s, e);
  }

  lemma WriteSeen(x: Tables, s: Statement, h: Statement, k: Key)
    requires !Missing(x, h) && (OnMilestone(h, k) || OnDispute(h, k))
    ensures OnMilestone(h, k) ==>
              WriteMilestone(MilestoneCell(x, k), k.escrow in x.escrows, h)
              == WriteMilestone(MilestoneCell(x, k), k.escrow in Apply(x, s).escrows, h)
    ensures OnDispute(h, k) ==>
              WriteDispute(DisputeCell(x, k), k.escrow in x.escrows, h)
              == WriteDispute(DisputeCell(x, k), k.escrow in Apply(x, s).escrows, h)
  {
  }

  lemma MilestonesCommute(x: Tables, s: Statement, h: Statement, k: Key)
    requires !Landed(x, s) && !Missing(x, s) && !Missing(x, h) && RowOf(h) != RowOf(s)
    ensures MilestoneCell(Apply(Apply(x, s), h), k) == MilestoneCell(Apply(Apply(x, h), s), k)
  {
    hide Apply, WriteMilestone, WriteDispute, Landed, Missing;
    MilestoneCellAfter(x, s, k); MilestoneCellAfter(Apply(x, s), h, k);
    MilestoneCellAfter(x, h, k); MilestoneCellAfter(Apply(x, h), s, k);
    if OnMilestone(s, k) { WriteSeen(x, h, s, k); }
    if OnMilestone(h, k) { WriteSeen(x, s, h, k); }
  }

  lemma DisputesCommute(x: Tables, s: Statement, h: Statement, k: Key)
    requires !Landed(x, s) && !Missing(x, s) && !Missing(x, h) && RowOf(h) != RowOf(s)
    ensures DisputeCell(Apply(Apply(x, s), h), k) == DisputeCell(Apply(Apply(x, h), s), k)
  {
    hide Apply, WriteMilestone, WriteDispute, Landed, Missing;
    DisputeCellAfter(x, s, k); DisputeCellAfter(Apply(x, s), h, k);
    DisputeCellAfter(x, h, k); DisputeCellAfter(Apply(x, h), s, k);
    if OnDispute(s, k) { WriteSeen(x, h, s, k); }
    if OnDispute(h, k) { WriteSeen(x, s, h, k); }
  }

  lemma LandingIsByRow(x: Tables, s: Statement, h: Statement)
    requires RowOf(s) == RowOf(h)
    ensures Landed(x, s) == Landed(x, h)
  {
  }

  /** Two databases with the same rows that `q` makes equal stay so under any statement. */
  lemma AnyStepUnderOverwrite(x: Tables, y: Tables, q: Statement, p: Statement)
    requires SameKeys(x, y) && Landed(x, q) && Apply(x, q) == Apply(y, q)
    ensures Apply(Apply(x, p), q) == Apply(Apply(y, p), q)
    ensures SameKeys(Apply(x, p), Apply(y, p)) && Landed(Apply(x, p), q)
  {
    hide Apply;
    ByRows(x, y, p);
    ByRows(x, y, q);
    ApplyRowsMonotone(x, y, p);
    ApplyRowsMonotone(y, x, p);
    ApplyKeepsRows(x, p);
    LandedStays(x, Apply(x, p), q);
    if Missing(x, p) || Landed(x, p) {
      StepUnderOverwrite(x, y, q, p);
    } else {
      if RowOf(p) == RowOf(q) { LandingIsByRow(x, p, q); }
      LandedIsNotMissing(x, q);
      InsertCommutes(x, p, q);
      InsertCommutes(y, p, q);
    }
  }

  lemma ByRows(x: Tables, y: Tables, p: Statement)
    requires SameKeys(x, y)
    ensures Landed(x, p) == Landed(y, p) && Missing(x, p) == Missing(y, p)
  {
  }

  lemma LandedStays(x: Tables, y: Tables, s: Statement)
    requires RowsWithin(x, y) && Landed(x, s)
    ensures Landed(y, s)
  {
  }

  lemma LandedIsNotMissing(x: Tables, s: Statement)
    requires Landed(x, s)
    ensures !Missing(x, s)
  {
  }

  lemma {:induction false} AnyRunUnderOverwrite(x: Tables, y: Tables, q: Statement, ss: seq<Statement>)
    requires SameKeys(x, y) && Landed(x, q) && Apply(x, q) == Apply(y, q)
    ensures Apply(Exec(x, ss), q) == Apply(Exec(y, ss), q)
    decreases |ss|
  {
    hide Apply, Landed;
    if ss == [] {
    } else {
      AnyStepUnderOverwrite(x, y, q, ss[0]);
      AnyRunUnderOverwrite(Apply(x, ss[0]), Apply(y, ss[0]), q, ss[1..]);
    }
  }

  lemma SupersedingSharesRow(q: Statement, s: Statement)
    requires Supersedes(q, s)
    ensures RowOf(q) == RowOf(s)
  {
  }

  /** An overwrite of an existing row that a later statement supersedes can be left out. */
  lemma OverwriteDropsOut(x: Tables, s: Statement, ss: seq<Statement>, j: nat)
    requires j < |ss| && Landed(x, s) && Supersedes(ss[j], s)
    ensures Exec(Apply(x, s), ss) == Exec(x, ss)
  {
    hide Exec, Apply, Landed, Missing, Supersedes;
    var q, before, after := ss[j], ss[..j], ss[j + 1..];
    SupersedingSharesRow(q, s);
    LandingIsByRow(x, s, q);
    SupersedingOverwrites(x, s, q);
    SettledKeepsRows(x, s);
    LandedStays(x, Apply(x, s), q);
    AnyRunUnderOverwrite(Apply(x, s), x, q, before);
    assert ss == (before + [q]) + after;
    ExecSnoc(x, before, q);
    ExecSnoc(Apply(x, s), before, q);
    ExecAppend(x, before + [q], after);
    ExecAppend(Apply(x, s), before + [q], after);
  }

  lemma {:induction false} ContentStays(t: Tables, ss: seq<Statement>, s: Statement)
    requires SameContent(t, s)
    ensures SameContent(Exec(t, ss), s)
    decreases |ss|
  {
    hide Apply, SameContent;
    if ss == [] {
    } else {
      ContentStaysOnce(t, ss[0], s);
      ContentStays(Apply(t, ss[0]), ss[1..], s);
    }
  }

  lemma ContentStaysOnce(t: Tables, h: Statement, s: Statement)
    requires SameContent(t, s)
    ensures SameContent(Apply(t, h), s)
  {
  }

  /** Content is written at insertion. */
  lemma ContentOfInsert(t: Tables, s: Statement)
    requires !Landed(t, s) && !Missing(t, s)
    ensures SameContent(Apply(t, s), s)
  {
  }

  /** The only statement that takes effect on an absent row creates it; then the content decides. */
  lemma InsertAfterInsert(t: Tables, x: Tables, s: Statement, h: Statement, final: Tables)
    requires !Landed(x, s) && !Missing(x, s) && !s.UpsertEscrow?
    requires RowOf(h) == RowOf(s) && !Landed(t, h) && !Missing(t, h) && RowsWithin(t, x)
    requires SameContent(final, s) && SameContent(final, h)
    ensures Apply(Apply(x, s), h) == Apply(x, h)
  {
  }

  lemma EffectiveHead(t: Tables, ss: seq<Statement>)
    requires ss != [] && forall i | 0 <= i < |ss| :: Effective(t, ss, i)
    ensures !Missing(t, ss[0])
    ensures forall i | 0 <= i < |ss[1..]| :: Effective(Apply(t, ss[0]), ss[1..], i)
  {
    hide Missing, Apply;
    assert ss[..0] == [] && Effective(t, ss, 0);
    forall i | 0 <= i < |ss[1..]| ensures Effective(Apply(t, ss[0]), ss[1..], i) {
      PrefixStep(t, ss, i);
      assert Effective(t, ss, i + 1);
    }
  }

  lemma NotMissingLater(t: Tables, x: Tables, h: Statement)
    requires RowsWithin(t, x) && !Missing(t, h)
    ensures !Missing(x, h)
  {
  }

  lemma OtherRowsStayAbsent(t: Tables, h: Statement, s: Statement)
    requires !Landed(t, s) && RowOf(h) != RowOf(s)
    ensures !Landed(Apply(t, h), s)
    ensures !Missing(t, s) ==> !Missing(Apply(t, h), s)
  {
  }

  /** An insert of a row that the list creates anyway, with the same content, can be left out. */
  lemma {:induction false} InsertDropsOut(t: Tables, x: Tables, s: Statement, ss: seq<Statement>)
    requires RowsWithin(t, x) && !Landed(x, s) && !Missing(x, s) && !s.UpsertEscrow? && !Landed(t, s)
    requires s.UpsertMilestone? || s.InsertDispute?
    requires (forall i | 0 <= i < |ss| :: Effective(t, ss, i)) && SameContent(Exec(t, ss), s)
    ensures Exec(Apply(x, s), ss) == Exec(x, ss)
    decreases |ss|
  {
    hide Apply, Missing, Landed, SameContent, Effective;
    if ss == [] {
      ContentNeedsRow(t, s);
    } else {
      var h := ss[0];
      EffectiveHead(t, ss);
      NotMissingLater(t, x, h);
      if RowOf(h) == RowOf(s) {
        LandingIsByRow(t, s, h);
        ContentOfInsert(t, h);
        ContentStays(Apply(t, h), ss[1..], h);
        InsertAfterInsert(t, x, s, h, Exec(t, ss));
      } else {
        InsertCommutes(x, s, h);
        OtherRowsStayAbsent(x, h, s);
        OtherRowsStayAbsent(t, h, s);
        ApplyRowsMonotone(t, x, h);
        InsertDropsOut(Apply(t, h), Apply(x, h), s, ss[1..]);
      }
    }
  }

  lemma ContentNeedsRow(t: Tables, s: Statement)
    requires s.UpsertMilestone? || s.InsertDispute?
    ensures SameContent(t, s) ==> Landed(t, s)
  {
  }

  lemma InsertersAre(x: Tables, s: Statement)
    requires !Landed(x, s) && !Missing(x, s) && !s.UpsertEscrow?
    ensures s.UpsertMilestone? || s.InsertDispute?
  {
  }

  lemma MissingIsNotLanded(t: Tables, s: Statement)
    requires Missing(t, s)
    ensures !Landed(t, s) && !s.UpsertEscrow?
  {
  }

  /** Where an effective statement goes in the list of effective ones. */
  lemma {:induction false} KeptHas(t: Tables, ss: seq<Statement>, j: nat) returns (k: nat)
    requires j < |ss| && Effective(t, ss, j)
    ensures k < |Kept(t, ss)| && Kept(t, ss)[k] == ss[j]
    decreases |ss|
  {
    hide Missing, Apply, Exec;
    if j == 0 {
      k := 0;
      FirstPrefix(t, ss);
    } else {
      PrefixStep(t, ss, j - 1);
      k := KeptHas(Apply(t, ss[0]), ss[1..], j - 1);
      if Missing(t, ss[0]) { ApplyKeepsRows(t, ss[0]); } else { k := k + 1; }
    }
  }

  lemma FirstPrefix(t: Tables, ss: seq<Statement>)
    requires ss != []
    ensures Effective(t, ss, 0) == !Missing(t, ss[0])
  {
    assert ss[..0] == [];
  }

  /** The condition passes from a list to its tail. */
  lemma AbsorbableTail(t: Tables, x: Tables, ss: seq<Statement>)
    requires ss != [] && Absorbable(t, x, ss)
    ensures Absorbable(Apply(t, ss[0]), Apply(x, ss[0]), ss[1..])
  {
    hide Missing, Apply, Exec, Landed, SameContent, Supersedes;
    var t', x', rest := Apply(t, ss[0]), Apply(x, ss[0]), ss[1..];
    ExecHead(t, ss);
    forall i | 0 <= i < |rest| && ActsLate(t', x', rest, i)
      ensures SupersededLater(t', rest, i)
      ensures !Landed(Exec(x', rest[..i]), rest[i]) ==> SameContent(Exec(t', rest), rest[i])
    {
      PrefixStep(t, ss, i);
      PrefixStep(x, ss, i);
      assert ActsLate(t, x, ss, i + 1);
      var j :| i + 1 < j < |ss| && Effective(t, ss, j) && Supersedes(ss[j], ss[i + 1]);
      PrefixStep(t, ss, j - 1);
      assert Supersedes(rest[j - 1], rest[i]);
    }
  }

  lemma ExecHead(t: Tables, ss: seq<Statement>)
    requires ss != []
    ensures Exec(t, ss) == Exec(Apply(t, ss[0]), ss[1..])
  {
  }

  /** A retry with at least the rows of the first run does what the first run's effective statements do. */
  lemma {:induction false} RetryRunsAsKept(t: Tables, x: Tables, ss: seq<Statement>)
    requires RowsWithin(t, x) && Absorbable(t, x, ss)
    ensures Exec(x, ss) == Exec(x, Kept(t, ss))
    decreases |ss|
  {
    hide Missing, Apply, Landed, SameContent, Supersedes, Absorbable, Effective;
    if ss == [] {
    } else {
      var s, rest := ss[0], ss[1..];
      ApplyRowsMonotone(t, x, s);
      AbsorbableTail(t, x, ss);
      RetryRunsAsKept(Apply(t, s), Apply(x, s), rest);
      if !Missing(t, s) {
        assert Kept(t, ss)[1..] == Kept(Apply(t, s), rest);
      } else {
        ApplyKeepsRows(t, s);
        if Missing(x, s) { ApplyKeepsRows(x, s); } else { LateHeadDropsOut(t, x, ss); }
      }
    }
  }

  lemma LateHeadDropsOut(t: Tables, x: Tables, ss: seq<Statement>)
    requires ss != [] && RowsWithin(t, x) && Absorbable(t, x, ss) && Missing(t, ss[0]) && !Missing(x, ss[0])
    ensures Exec(Apply(x, ss[0]), Kept(t, ss[1..])) == Exec(x, Kept(t, ss[1..]))
  {
    hide Missing, Apply, Landed, SameContent, Supersedes, Exec;
    var s, rest := ss[0], ss[1..];
    FirstPrefix(t, ss);
    FirstPrefix(x, ss);
    ApplyKeepsRows(t, s);
    ExecHead(t, ss);
    assert ss[..0] == [] && ActsLate(t, x, ss, 0);
    ExecNothing(x);
    KeptIsCausal(t, rest);
    MissingIsNotLanded(t, s);
    if Landed(x, s) {
      var j :| 0 < j < |ss| && Effective(t, ss, j) && Supersedes(ss[j], s);
      PrefixStep(t, ss, j - 1);
      var k := KeptHas(t, rest, j - 1);
      OverwriteDropsOut(x, s, Kept(t, rest), k);
    } else {
      InsertersAre(x, s);
      InsertDropsOut(t, x, s, Kept(t, rest));
    }
  }

  lemma ExecNothing(t: Tables)
    ensures Exec(t, []) == t
  {
  }

  // ----- the two directions for one cut -----

  /** The effective statements of a prefix are a prefix of the effective statements. */
  lemma {:induction false} KeptOfPrefix(t: Tables, ss: seq<Statement>, cut: nat)
    requires cut <= |ss|
    ensures Kept(t, ss[..cut]) <= Kept(t, ss)
    decreases |ss|
  {
    hide Missing, Apply;
    if cut == 0 {
      assert ss[..0] == [];
    } else {
      assert ss[..cut][0] == ss[0] && ss[..cut][1..] == ss[1..][..cut - 1];
      KeptOfPrefix(t, ss[1..], cut - 1);
      KeptOfPrefix(Apply(t, ss[0]), ss[1..], cut - 1);
    }
  }

  lemma AbsorbableCutIsAbsorbed(t: Tables, ss: seq<Statement>, cut: nat)
    requires cut <= |ss| && Absorbable(t, Exec(t, ss[..cut]), ss)
    ensures Exec(Exec(t, ss[..cut]), ss) == Exec(t, ss)
  {
    hide Exec, Absorbable, Missing, Effective, Kept;
    var x, kept := Exec(t, ss[..cut]), Kept(t, ss);
    ExecKeepsRows(t, ss[..cut]);
    RetryRunsAsKept(t, x, ss);
    KeptIsCausal(t, ss);
    KeptIsCausal(t, ss[..cut]);
    KeptOfPrefix(t, ss, cut);
    EffectiveIsCausal(t, kept);
    var done := |Kept(t, ss[..cut])|;
    assert kept[..done] == Kept(t, ss[..cut]);
    PartialRunAbsorbed(t, kept, done);
  }

  /** Something let in late that nothing supersedes, or that creates a different row, shows. */
  lemma LateStatementShows(t: Tables, x: Tables, ss: seq<Statement>, i: nat)
    requires i < |ss| && ActsLate(t, x, ss, i)
    requires !SupersededLater(t, ss, i) || (!Landed(Exec(x, ss[..i]), ss[i]) && !SameContent(Exec(t, ss), ss[i]))
    ensures Exec(x, ss) != Exec(t, ss)
  {
    hide Exec, Missing, Apply, SameContent, Lacks, SupersededLater, Landed;
    if !SupersededLater(t, ss, i) {
      FirstRunLacks(t, ss, i);
      SecondRunTraces(x, ss, i);
    } else {
      var u := Exec(x, ss[..i]);
      ContentOfInsert(u, ss[i]);
      ExecSnoc(x, ss[..i], ss[i]);
      assert ss == (ss[..i] + [ss[i]]) + ss[i + 1..];
      ExecAppend(x, ss[..i] + [ss[i]], ss[i + 1..]);
      ContentStays(Apply(u, ss[i]), ss[i + 1..], ss[i]);
    }
  }

  /** One cut: a run interrupted there is absorbed by the full run if, and only if, the list is absorbable there. */
  lemma CutAbsorbedExactly(t: Tables, ss: seq<Statement>, cut: nat)
    requires cut <= |ss|
    ensures Exec(Exec(t, ss[..cut]), ss) == Exec(t, ss) <==> Absorbable(t, Exec(t, ss[..cut]), ss)
  {
    hide Exec, Missing, Effective, SameContent, Landed, SupersededLater;
    var x := Exec(t, ss[..cut]);
    if Absorbable(t, x, ss) {
      AbsorbableCutIsAbsorbed(t, ss, cut);
    } else {
      var i :| 0 <= i < |ss| && ActsLate(t, x, ss, i)
            && !(SupersededLater(t, ss, i) && (!Landed(Exec(x, ss[..i]), ss[i]) ==> SameContent(Exec(t, ss), ss[i])));
      LateStatementShows(t, x, ss, i);
    }
  }

  // ----- every cut -----

  /** The first statement of the list that could create its milestone or dispute row. */
  predicate FirstInsert(ss: seq<Statement>, i: nat)
    requires i < |ss|
  {
    (ss[i].UpsertMilestone? || ss[i].InsertDispute?) && NoneInserts(ss[..i], ss[i])
  }

  predicate NoneInserts(ss: seq<Statement>, s: Statement) {
    forall p <- ss :: !((p.UpsertMilestone? || p.InsertDispute?) && RowOf(p) == RowOf(s))
  }

  /** Where the first insert of a row comes before its escrow, the row ends up with that content all the same. */
  predicate FirstInsertsAgree(t: Tables, ss: seq<Statement>) {
    forall i | 0 <= i < |ss| && Early(t, ss, i) && FirstInsert(ss, i) :: SameContent(Exec(t, ss), ss[i])
  }

  /** Between a statement that lacks its escrow and the end there is a point with the escrow and still no row. */
  lemma {:induction false} EscrowComesFirst(v: Tables, ss: seq<Statement>, s: Statement) returns (c: nat)
    requires (s.UpsertMilestone? || s.InsertDispute?) && Missing(v, s) && !Missing(Exec(v, ss), s)
    ensures c <= |ss| && !Landed(Exec(v, ss[..c]), s) && !Missing(Exec(v, ss[..c]), s)
    decreases |ss|
  {
    hide Apply, Missing, Landed;
    if ss == [] {
      assert false;
    } else {
      var w := Apply(v, ss[0]);
      MissingStepsOut(v, ss[0], s);
      if Missing(w, s) {
        c := EscrowComesFirst(w, ss[1..], s);
        c := c + 1;
        assert ss[..c][0] == ss[0] && ss[..c][1..] == ss[1..][..c - 1];
      } else {
        c := 1;
        assert ss[..1] == [ss[0]] && [ss[0]][1..] == [];
        ExecHead(v, [ss[0]]);
        ExecNothing(w);
      }
    }
  }

  lemma MissingStepsOut(v: Tables, h: Statement, s: Statement)
    requires (s.UpsertMilestone? || s.InsertDispute?) && Missing(v, s)
    ensures !Landed(Apply(v, h), s)
  {
  }

  lemma {:induction false} RowStaysAbsent(x: Tables, ss: seq<Statement>, s: Statement)
    requires (s.UpsertMilestone? || s.InsertDispute?) && !Landed(x, s) && NoneInserts(ss, s)
    ensures !Landed(Exec(x, ss), s)
    decreases |ss|
  {
    hide Apply, Landed;
    if ss == [] {
    } else {
      assert ss[0] in ss;
      RowStaysAbsentOnce(x, ss[0], s);
      forall p <- ss[1..] ensures !((p.UpsertMilestone? || p.InsertDispute?) && RowOf(p) == RowOf(s)) {
        assert p in ss;
      }
      RowStaysAbsent(Apply(x, ss[0]), ss[1..], s);
    }
  }

  lemma RowStaysAbsentOnce(x: Tables, h: Statement, s: Statement)
    requires (s.UpsertMilestone? || s.InsertDispute?) && !Landed(x, s)
    requires !((h.UpsertMilestone? || h.InsertDispute?) && RowOf(h) == RowOf(s))
    ensures !Landed(Apply(x, h), s)
  {
  }

  /** If every cut is absorbed, early first inserts agree with the row that stays. */
  lemma CutsShowFirstInserts(t: Tables, ss: seq<Statement>, i: nat)
    requires forall cut | 0 <= cut <= |ss| :: Exec(Exec(t, ss[..cut]), ss) == Exec(t, ss)
    requires i < |ss| && Early(t, ss, i) && FirstInsert(ss, i)
    ensures SameContent(Exec(t, ss), ss[i])
  {
    hide Exec, Missing, Landed, SameContent, SupersededLater, NoneInserts;
    var s, v := ss[i], Exec(t, ss[..i]);
    assert ss == ss[..i] + ss[i..];
    ExecAppend(t, ss[..i], ss[i..]);
    var c := EscrowComesFirst(v, ss[i..], s);
    var cut := i + c;
    assert ss[..cut] == ss[..i] + ss[i..][..c];
    ExecAppend(t, ss[..i], ss[i..][..c]);
    var x := Exec(t, ss[..cut]);
    RowStaysAbsent(x, ss[..i], s);
    ExecKeepsRows(x, ss[..i]);
    MissingStays(x, Exec(x, ss[..i]), s);
    CutAbsorbedExactly(t, ss, cut);
    assert ActsLate(t, x, ss, i);
  }

  /** On a retry, what acts late was early in the first run. */
  lemma LateWasEarly(t: Tables, ss: seq<Statement>, cut: nat, i: nat)
    requires Replayable(t, ss) && cut <= |ss| && i < |ss| && ActsLate(t, Exec(t, ss[..cut]), ss, i)
    ensures Early(t, ss, i)
  {
    hide Exec, Missing, Replayable;
    var x, a := Exec(t, ss[..cut]), Exec(t, ss);
    PrefixKeepsRows(t, ss, cut);
    ExecRowsMonotone(x, a, ss[..i]);
    PrefixKeepsRows(a, ss, i);
    ReplayableReplays(t, ss);
    MissingStays(Exec(x, ss[..i]), Exec(a, ss[..i]), ss[i]);
    MissingStays(Exec(a, ss[..i]), a, ss[i]);
  }

  /** Escrows that a list creates are created whatever it starts from. */
  lemma {:induction false} EscrowsCreated(v: Tables, w: Tables, ss: seq<Statement>, e: EscrowId)
    requires e !in v.escrows && e in Exec(v, ss).escrows
    ensures e in Exec(w, ss).escrows
    decreases |ss|
  {
    hide Apply;
    if ss == [] {
    } else {
      if e in Apply(v, ss[0]).escrows {
        EscrowCreatedOnce(v, w, ss[0], e);
        ExecKeepsRows(Apply(w, ss[0]), ss[1..]);
      } else {
        EscrowsCreated(Apply(v, ss[0]), Apply(w, ss[0]), ss[1..], e);
      }
    }
  }

  lemma EscrowCreatedOnce(v: Tables, w: Tables, h: Statement, e: EscrowId)
    requires e !in v.escrows && e in Apply(v, h).escrows
    ensures e in Apply(w, h).escrows
  {
  }

  /** What creates its row late is the first that could. */
  lemma LateInsertIsFirst(t: Tables, x: Tables, ss: seq<Statement>, i: nat)
    requires i < |ss| && ActsLate(t, x, ss, i) && !Landed(Exec(x, ss[..i]), ss[i])
    ensures FirstInsert(ss, i)
  {
    hide Exec, Apply;
    var s := ss[i];
    InsertersAre(Exec(x, ss[..i]), s);
    forall p <- ss[..i] ensures !((p.UpsertMilestone? || p.InsertDispute?) && RowOf(p) == RowOf(s)) {
      if (p.UpsertMilestone? || p.InsertDispute?) && RowOf(p) == RowOf(s) {
        var j :| 0 <= j < i && ss[j] == p;
        EarlierInsertWorks(t, x, ss, i, j);
      }
    }
  }

  lemma EarlierInsertWorks(t: Tables, x: Tables, ss: seq<Statement>, i: nat, j: nat)
    requires j < i < |ss| && (ss[i].UpsertMilestone? || ss[i].InsertDispute?)
    requires (ss[j].UpsertMilestone? || ss[j].InsertDispute?) && RowOf(ss[j]) == RowOf(ss[i])
    requires Effective(x, ss, i) && !Effective(t, ss, i)
    ensures Landed(Exec(x, ss[..i]), ss[i])
  {
    hide Exec, Apply;
    var y, s := Exec(x, ss[..j]), ss[j];
    assert ss[..i] == ss[..j] + ss[j..i];
    ExecAppend(x, ss[..j], ss[j..i]);
    ExecAppend(t, ss[..j], ss[j..i]);
    if Missing(y, s) {
      if !Landed(Exec(x, ss[..i]), ss[i]) {
        EscrowsCreated(y, Exec(t, ss[..j]), ss[j..i], s.key.escrow);
        assert false;
      }
    } else {
      ApplyKeepsRows(y, s);
      ExecHead(y, ss[j..i]);
      ExecKeepsRows(Apply(y, s), ss[j..i][1..]);
      LandedStays(Apply(y, s), Exec(x, ss[..i]), s);
      LandingIsByRow(Exec(x, ss[..i]), s, ss[i]);
    }
  }

  /**
   * Every cut: whatever point a run is interrupted at, the full run absorbs it, if and only if the list
   * is replayable and every early first insert carries the content the row ends up with.
   */
  lemma EveryCutAbsorbedExactly(t: Tables, ss: seq<Statement>)
    ensures (forall cut | 0 <= cut <= |ss| :: Exec(Exec(t, ss[..cut]), ss) == Exec(t, ss))
       <==> Replayable(t, ss) && FirstInsertsAgree(t, ss)
  {
    hide Exec, Missing, Landed, SameContent, SupersededLater, FirstInsert, Effective;
    if forall cut | 0 <= cut <= |ss| :: Exec(Exec(t, ss[..cut]), ss) == Exec(t, ss) {
      assert ss[..|ss|] == ss;
      ReplaysExactlyWhenReplayable(t, ss);
      forall i | 0 <= i < |ss| && Early(t, ss, i) && FirstInsert(ss, i) ensures SameContent(Exec(t, ss), ss[i]) {
        CutsShowFirstInserts(t, ss, i);
      }
    }
    if Replayable(t, ss) && FirstInsertsAgree(t, ss) {
      forall cut | 0 <= cut <= |ss| ensures Exec(Exec(t, ss[..cut]), ss) == Exec(t, ss) {
        var x := Exec(t, ss[..cut]);
        forall i | 0 <= i < |ss| && ActsLate(t, x, ss, i)
          ensures SupersededLater(t, ss, i)
          ensures !Landed(Exec(x, ss[..i]), ss[i]) ==> SameContent(Exec(t, ss), ss[i])
        {
          LateWasEarly(t, ss, cut, i);
          if !Landed(Exec(x, ss[..i]), ss[i]) { LateInsertIsFirst(t, x, ss, i); }
        }
        AbsorbableCutIsAbsorbed(t, ss, cut);
      }
    }
  }

  const SAMPLE_KEY: Key := Key(1, 0)
  const SAMPLE_CREATE: Statement :=
    UpsertEscrow(1, EscrowTerms("C", "G1", "G2", "G3", "T", 0, None, None, None, None), "created", 7)

  /** A dispute insert before its escrow, and another after it. */
  const TWO_RAISES: seq<Statement> := [InsertDispute(SAMPLE_KEY, "G1", ""), SAMPLE_CREATE,
                                       InsertDispute(SAMPLE_KEY, "G2", "")]

  /**
   * Being replayable is not enough for cut runs.  A run cut before the superseding insert lets the early
   * one in on the retry, and the first writer of a dispute wins.
   */
  lemma WholeReplaysAreNotEnough()
    ensures Replayable(EMPTY, TWO_RAISES) && !Causal(EMPTY, TWO_RAISES)
    ensures Exec(Exec(EMPTY, TWO_RAISES[..2]), TWO_RAISES) != Exec(EMPTY, TWO_RAISES)
  {
    hide Apply, Missing;
    var ss := TWO_RAISES;
    var a, b, c := ss[0], ss[1], ss[2];
    assert ss[..0] == [] && ss[..1] == [a] && ss[..2] == [a, b] && ss == [a, b, c];
    RunThree(EMPTY, a, b, c);
    var x := Apply(Apply(EMPTY, a), b);
    RunThree(x, a, b, c);
    var whole, retried := Apply(x, c), Apply(Apply(Apply(x, a), b), c);
    TwoRaises();
    assert Effective(EMPTY, ss, 1) && Effective(EMPTY, ss, 2);
    assert Supersedes(ss[2], ss[0]);
    assert !Effective(EMPTY, ss, 0);
  }

  lemma RunThree(t: Tables, a: Statement, b: Statement, c: Statement)
    ensures Exec(t, [a]) == Apply(t, a)
    ensures Exec(t, [a, b]) == Apply(Apply(t, a), b)
    ensures Exec(t, [a, b, c]) == Apply(Apply(Apply(t, a), b), c)
  {
    hide Apply;
    assert [a][1..] == [] && [a, b] == [a] + [b] && [a, b, c] == [a, b] + [c];
    ExecSnoc(t, [a], b);
    ExecSnoc(t, [a, b], c);
  }

  lemma TwoRaises()
    ensures var a, b, c := TWO_RAISES[0], TWO_RAISES[1], TWO_RAISES[2];
            var x := Apply(Apply(EMPTY, a), b);
      && Missing(EMPTY, a) && !Missing(Apply(EMPTY, a), b) && !Missing(x, c)
      && !Missing(Apply(x, c), a)
      && SAMPLE_KEY in Apply(x, c).disputes && Apply(x, c).disputes[SAMPLE_KEY].raisedBy == "G2"
      && var y := Apply(Apply(Apply(x, a), b), c);
         SAMPLE_KEY in y.disputes && y.disputes[SAMPLE_KEY].raisedBy == "G1"
  {
  }
}
