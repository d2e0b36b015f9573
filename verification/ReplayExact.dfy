/** Exactly which statement lists can be replayed whole: one condition, both directions. */
module ReplayExact {
  import opened Tables
  import opened Cells
  import opened Replay

  /** The statement finds the rows it needs when it runs. */
  predicate Effective(t: Tables, ss: seq<Statement>, j: nat)
    requires j < |ss|
  {
    !Missing(Exec(t, ss[..j]), ss[j])
  }

  /** The statement comes before the row it needs: dropped now, but not on a replay. */
  predicate Early(t: Tables, ss: seq<Statement>, i: nat)
    requires i < |ss|
  {
    !Effective(t, ss, i) && !Missing(Exec(t, ss), ss[i])
  }

  /** `q` writes everything `p` would have written, or is at least as new. */
  predicate Supersedes(q: Statement, p: Statement) {
    match p
    case UpsertEscrow(_, _, _, _) => false
    case SetEscrowStatus(id, _, ledger) => OnEscrow(q, id) && q.ledger >= ledger
    case UpsertMilestone(key, _, _) => q.UpsertMilestone? && q.key == key
    case SetMilestoneStatus(key, _) => OnMilestone(q, key)
    case MarkSubmitted(key, _, _, _) => q.MarkSubmitted? && q.key == key
    case ReleaseMilestone(key, _) => q.ReleaseMilestone? && q.key == key
    case InsertDispute(key, _, _) => q.InsertDispute? && q.key == key
    case ResolveDispute(key, _, _) => q.ResolveDispute? && q.key == key
  }

  predicate SupersededLater(t: Tables, ss: seq<Statement>, i: nat)
    requires i < |ss|
  {
    exists j :: i < j < |ss| && Effective(t, ss, j) && Supersedes(ss[j], ss[i])
  }

  /** Every early statement is superseded by a later one that takes effect. */
  predicate Replayable(t: Tables, ss: seq<Statement>) {
    forall i | 0 <= i < |ss| && Early(t, ss, i) :: SupersededLater(t, ss, i)
  }

  // ----- replayable lists can be replayed -----

  /** The statements that take effect. */
  function Kept(t: Tables, ss: seq<Statement>): seq<Statement>
    decreases |ss|
  {
    if ss == [] then []
    else if Missing(t, ss[0]) then Kept(t, ss[1..])
    else [ss[0]] + Kept(Apply(t, ss[0]), ss[1..])
  }

  lemma PrefixStep(t: Tables, ss: seq<Statement>, i: nat)
    requires i < |ss| - 1
    ensures Exec(t, ss[..i + 1]) == Exec(Apply(t, ss[0]), ss[1..][..i]) && ss[1..][i] == ss[i + 1]
    ensures Effective(Apply(t, ss[0]), ss[1..], i) <==> Effective(t, ss, i + 1)
  {
    hide Missing, Apply;
    assert ss[..i + 1][0] == ss[0] && ss[..i + 1][1..] == ss[1..][..i];
  }

  /** Leaving out what has no effect leaves a causal list with the same result. */
  lemma {:induction false} KeptIsCausal(t: Tables, ss: seq<Statement>)
    ensures Exec(t, Kept(t, ss)) == Exec(t, ss)
    ensures forall i | 0 <= i < |Kept(t, ss)| :: Effective(t, Kept(t, ss), i)
    decreases |ss|
  {
    hide Missing, Apply, Landed;
    if ss == [] {
    } else {
      ApplyKeepsRows(t, ss[0]);
      KeptIsCausal(Apply(t, ss[0]), ss[1..]);
      var kept := Kept(t, ss);
      if !Missing(t, ss[0]) {
        var rest := Kept(Apply(t, ss[0]), ss[1..]);
        assert kept[1..] == rest;
        forall i | 0 <= i < |kept| ensures Effective(t, kept, i) {
          if i == 0 { assert kept[..0] == []; } else { PrefixStep(t, kept, i - 1); }
        }
      }
    }
  }

  lemma SupersedingOverwrites(x: Tables, s: Statement, q: Statement)
    requires Landed(x, s) && Landed(x, q) && Supersedes(q, s)
    ensures Apply(Apply(x, s), q) == Apply(x, q)
  {
    var u, v := Apply(Apply(x, s), q), Apply(x, q);
    forall e ensures EscrowCell(u, e) == EscrowCell(v, e) {
      EscrowCellAfter(x, s, e); EscrowCellAfter(Apply(x, s), q, e); EscrowCellAfter(x, q, e);
    }
    forall k ensures MilestoneCell(u, k) == MilestoneCell(v, k) {
      MilestoneCellAfter(x, s, k); MilestoneCellAfter(Apply(x, s), q, k); MilestoneCellAfter(x, q, k);
    }
    forall k ensures DisputeCell(u, k) == DisputeCell(v, k) {
      DisputeCellAfter(x, s, k); DisputeCellAfter(Apply(x, s), q, k); DisputeCellAfter(x, q, k);
    }
    SameCells(u, v);
  }

  /** A statement that a later one supersedes can be left out. */
  lemma SupersededDropsOut(x: Tables, s: Statement, ss: seq<Statement>, j: nat)
    requires j < |ss| && Settled(x, x, ss) && Landed(x, s) && Supersedes(ss[j], s) && Landed(x, ss[j])
    ensures Exec(Apply(x, s), ss) == Exec(x, ss)
  {
    hide Exec, Apply, Landed, Missing, Supersedes;
    var q, before, after := ss[j], ss[..j], ss[j + 1..];
    SupersedingOverwrites(x, s, q);
    SettledShift(x, s, before, ss);
    RunUnderOverwrite(Apply(x, s), x, q, before);
    assert ss == (before + [q]) + after;
    ExecSnoc(x, before, q);
    ExecSnoc(Apply(x, s), before, q);
    ExecAppend(x, before + [q], after);
    ExecAppend(Apply(x, s), before + [q], after);
  }

  lemma SettledShift(x: Tables, s: Statement, before: seq<Statement>, ss: seq<Statement>)
    requires Settled(x, x, ss) && (Landed(x, s) || Missing(x, s)) && before <= ss
    ensures Settled(Apply(x, s), x, before)
  {
    SettledKeepsRows(x, s);
    forall p <- before
      ensures (Missing(Apply(x, s), p) && Missing(x, p)) || (Landed(Apply(x, s), p) && Landed(x, p))
    {
      assert p in ss;
    }
  }

  /** What the second run may still lose: nothing, or something superseded later. */
  predicate Covered(t: Tables, x: Tables, ss: seq<Statement>, i: nat)
    requires i < |ss|
  {
    Effective(t, ss, i) || Missing(x, ss[i])
    || exists j :: i < j < |ss| && Effective(t, ss, j) && Landed(x, ss[j]) && Supersedes(ss[j], ss[i])
  }

  lemma CoveredStep(t: Tables, x: Tables, y: Tables, ss: seq<Statement>, i: nat)
    requires i < |ss| - 1 && Covered(t, x, ss, i + 1)
    requires forall p <- ss :: Landed(y, p) == Landed(x, p) && Missing(y, p) == Missing(x, p)
    ensures Covered(Apply(t, ss[0]), y, ss[1..], i)
  {
    hide Landed, Missing, Apply, Exec, Supersedes;
    PrefixStep(t, ss, i);
    assert ss[i + 1] in ss;
    if !Effective(t, ss, i + 1) && !Missing(x, ss[i + 1]) {
      var j :| i + 1 < j < |ss| && Effective(t, ss, j) && Landed(x, ss[j]) && Supersedes(ss[j], ss[i + 1]);
      PrefixStep(t, ss, j - 1);
      assert ss[j] in ss;
      assert Supersedes(ss[1..][j - 1], ss[1..][i]);
    }
  }

  lemma SameRows(x: Tables, s: Statement, p: Statement)
    requires Landed(x, s) || Missing(x, s)
    ensures Landed(Apply(x, s), p) == Landed(x, p) && Missing(Apply(x, s), p) == Missing(x, p)
  {
    SettledKeepsRows(x, s);
  }

  lemma {:induction false} RunsAsKept(t: Tables, x: Tables, ss: seq<Statement>)
    requires Settled(x, x, ss) && forall i | 0 <= i < |ss| :: Covered(t, x, ss, i)
    ensures Exec(x, ss) == Exec(x, Kept(t, ss))
    decreases |ss|
  {
    hide Landed, Missing, Apply, Supersedes;
    if ss == [] {
    } else {
      var s, rest := ss[0], ss[1..];
      assert s in ss;
      ApplyKeepsRows(t, s);
      var y := if Missing(t, s) then x else Apply(x, s);
      forall p ensures Landed(y, p) == Landed(x, p) && Missing(y, p) == Missing(x, p) { SameRows(x, s, p); }
      forall p <- rest ensures (Missing(y, p) && Missing(y, p)) || (Landed(y, p) && Landed(y, p)) { assert p in ss; }
      forall i | 0 <= i < |rest| ensures Covered(Apply(t, s), y, rest, i) { CoveredStep(t, x, y, ss, i); }
      RunsAsKept(Apply(t, s), y, rest);
      if Missing(t, s) {
        HeadDropsOut(t, x, ss);
      } else {
        assert Kept(t, ss)[1..] == Kept(Apply(t, s), rest);
      }
    }
  }

  lemma HeadDropsOut(t: Tables, x: Tables, ss: seq<Statement>)
    requires ss != [] && Settled(x, x, ss) && Settled(x, x, ss[1..]) && Covered(t, x, ss, 0) && Missing(t, ss[0])
    ensures Exec(x, ss) == Exec(x, ss[1..])
  {
    hide Landed, Missing, Apply, Supersedes;
    assert ss[..0] == [] && ss[0] in ss;
    ApplyKeepsRows(x, ss[0]);
    if !Missing(x, ss[0]) {
      var j :| 0 < j < |ss| && Landed(x, ss[j]) && Supersedes(ss[j], ss[0]);
      assert ss[1..][j - 1] == ss[j];
      SupersededDropsOut(x, ss[0], ss[1..], j - 1);
    }
  }

  lemma EffectiveLands(t: Tables, ss: seq<Statement>, j: nat)
    requires j < |ss| && Effective(t, ss, j)
    ensures Landed(Exec(t, ss), ss[j])
  {
    ExecSnoc(t, ss[..j], ss[j]);
    assert ss[..j] + [ss[j]] == ss[..j + 1];
    ApplyKeepsRows(Exec(t, ss[..j]), ss[j]);
    PrefixKeepsRows(t, ss, j + 1);
  }

  /** A superseded insert, and anything that was superseded on its row, has its row at the end. */
  lemma SupersededLands(t: Tables, ss: seq<Statement>, i: nat)
    requires i < |ss| && SupersededLater(t, ss, i)
    ensures Landed(Exec(t, ss), ss[i])
  {
    var j :| i < j < |ss| && Effective(t, ss, j) && Supersedes(ss[j], ss[i]);
    EffectiveLands(t, ss, j);
  }

  lemma ReplayableReplays(t: Tables, ss: seq<Statement>)
    requires Replayable(t, ss)
    ensures Exec(Exec(t, ss), ss) == Exec(t, ss)
  {
    hide Exec, Landed, Missing, Supersedes;
    var a := Exec(t, ss);
    forall p <- ss ensures (Missing(a, p) && Missing(a, p)) || (Landed(a, p) && Landed(a, p)) {
      var i :| 0 <= i < |ss| && ss[i] == p;
      if Effective(t, ss, i) { EffectiveLands(t, ss, i); }
      else if !Missing(a, p) { SupersededLands(t, ss, i); }
    }
    forall i | 0 <= i < |ss| ensures Covered(t, a, ss, i) {
      if Early(t, ss, i) {
        var j :| i < j < |ss| && Effective(t, ss, j) && Supersedes(ss[j], ss[i]);
        EffectiveLands(t, ss, j);
      }
    }
    RunsAsKept(t, a, ss);
    KeptIsCausal(t, ss);
    var kept := Kept(t, ss);
    EffectiveIsCausal(t, kept);
    ReplayWhole(t, kept);
  }

  lemma EffectiveIsCausal(t: Tables, ss: seq<Statement>)
    requires forall i | 0 <= i < |ss| :: Effective(t, ss, i)
    ensures Causal(t, ss)
  {
    hide Exec, Missing;
    forall i | 0 <= i < |ss| ensures Missing(Exec(t, ss[..i]), ss[i]) ==> Missing(Exec(t, ss), ss[i]) {
      assert Effective(t, ss, i);
    }
  }

  // ----- lists that can be replayed are replayable -----

  /** The tables carry no trace of a write like `p`. */
  predicate Lacks(t: Tables, p: Statement) {
    match p
    case UpsertEscrow(_, _, _, _) => false
    case SetEscrowStatus(id, _, ledger) => id in t.escrows ==> t.escrows[id].updatedLedger < ledger
    case UpsertMilestone(key, _, _) => key !in t.milestones
    case SetMilestoneStatus(key, _) => key !in t.milestones
    case MarkSubmitted(key, _, _, _) => key in t.milestones ==> t.milestones[key].submittedAt.None?
    case ReleaseMilestone(key, _) => key in t.milestones ==> t.milestones[key].releasedVia.None?
    case InsertDispute(key, _, _) => key !in t.disputes
    case ResolveDispute(key, _, _) => key in t.disputes ==> t.disputes[key].resolutionKind.None?
  }

  lemma OnlySupersedingTraces(t: Tables, q: Statement, p: Statement)
    requires Lacks(t, p) && (Missing(t, q) || !Supersedes(q, p)) && !p.UpsertEscrow?
    ensures Lacks(Apply(t, q), p)
  {
    if !Missing(t, q) {
      EscrowCellAfter(t, q, p.Escrow());
      if !p.SetEscrowStatus? {
        MilestoneCellAfter(t, q, p.key);
        DisputeCellAfter(t, q, p.key);
      }
    }
  }

  lemma TracesStay(t: Tables, q: Statement, p: Statement)
    requires !Lacks(t, p)
    ensures !Lacks(Apply(t, q), p)
  {
  }

  lemma LandingTraces(t: Tables, p: Statement)
    requires !Missing(t, p)
    ensures !Lacks(Apply(t, p), p)
  {
  }

  lemma {:induction false} NoTrace(t: Tables, ss: seq<Statement>, p: Statement)
    requires Lacks(t, p) && !p.UpsertEscrow?
    requires forall j | 0 <= j < |ss| && Effective(t, ss, j) :: !Supersedes(ss[j], p)
    ensures Lacks(Exec(t, ss), p)
    decreases |ss|
  {
    hide Apply, Missing, Lacks, Supersedes;
    if ss == [] {
    } else {
      assert ss[..0] == [];
      assert Missing(t, ss[0]) || Effective(t, ss, 0);
      OnlySupersedingTraces(t, ss[0], p);
      forall j | 0 <= j < |ss[1..]| && Effective(Apply(t, ss[0]), ss[1..], j) ensures !Supersedes(ss[1..][j], p) {
        PrefixStep(t, ss, j);
      }
      NoTrace(Apply(t, ss[0]), ss[1..], p);
    }
  }

  lemma {:induction false} TracesRemain(t: Tables, ss: seq<Statement>, p: Statement)
    requires !Lacks(t, p)
    ensures !Lacks(Exec(t, ss), p)
    decreases |ss|
  {
    hide Apply, Lacks;
    if ss == [] {
    } else {
      TracesStay(t, ss[0], p);
      TracesRemain(Apply(t, ss[0]), ss[1..], p);
    }
  }

  /** The first run shows nothing of an ineffective statement that nothing supersedes. */
  lemma FirstRunLacks(t: Tables, ss: seq<Statement>, i: nat)
    requires i < |ss| && !Effective(t, ss, i) && !SupersededLater(t, ss, i)
    ensures Lacks(Exec(t, ss), ss[i])
  {
    hide Exec, Apply;
    var p, u, rest := ss[i], Exec(t, ss[..i]), ss[i + 1..];
    assert ss == (ss[..i] + [p]) + rest;
    ExecSnoc(t, ss[..i], p);
    ApplyKeepsRows(u, p);
    ExecAppend(t, ss[..i] + [p], rest);
    forall j | 0 <= j < |rest| && Effective(u, rest, j) ensures !Supersedes(rest[j], p) {
      ExecAppend(t, ss[..i] + [p], rest[..j]);
      assert ss[..i + 1 + j] == (ss[..i] + [p]) + rest[..j];
      assert Effective(t, ss, i + 1 + j);
    }
    NoTrace(u, rest, p);
  }

  /** A run in which it takes effect does show it. */
  lemma SecondRunTraces(a: Tables, ss: seq<Statement>, i: nat)
    requires i < |ss| && Effective(a, ss, i)
    ensures !Lacks(Exec(a, ss), ss[i])
  {
    hide Exec, Apply, Lacks;
    var v := Exec(a, ss[..i]);
    LandingTraces(v, ss[i]);
    ExecSnoc(a, ss[..i], ss[i]);
    assert ss == (ss[..i] + [ss[i]]) + ss[i + 1..];
    ExecAppend(a, ss[..i] + [ss[i]], ss[i + 1..]);
    TracesRemain(Apply(v, ss[i]), ss[i + 1..], ss[i]);
  }

  lemma MissingStays(t: Tables, u: Tables, s: Statement)
    requires RowsWithin(t, u) && !Missing(t, s)
    ensures !Missing(u, s)
  {
  }

  /** A whole list of statements can be replayed without effect if, and only if, it is replayable. */
  lemma ReplaysExactlyWhenReplayable(t: Tables, ss: seq<Statement>)
    ensures Exec(Exec(t, ss), ss) == Exec(t, ss) <==> Replayable(t, ss)
  {
    hide Exec, Lacks, Supersedes, Missing;
    var a := Exec(t, ss);
    if Replayable(t, ss) {
      ReplayableReplays(t, ss);
    } else {
      var i :| 0 <= i < |ss| && Early(t, ss, i) && !SupersededLater(t, ss, i);
      FirstRunLacks(t, ss, i);
      ExecKeepsRows(a, ss[..i]);
      MissingStays(a, Exec(a, ss[..i]), ss[i]);
      SecondRunTraces(a, ss, i);
    }
  }

  /** Causal lists are replayable: nothing in them is early. */
  lemma CausalIsReplayable(t: Tables, ss: seq<Statement>)
    requires Causal(t, ss)
    ensures Replayable(t, ss)
  {
    hide Exec, Missing;
  }
}
