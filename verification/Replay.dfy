/** Why replaying part of the log is harmless: the absorption law of the table writers. */
module Replay {
  import opened Base
  import opened Tables
  import opened Cells

  /** The row the statement writes is already there. */
  predicate Landed(t: Tables, s: Statement) {
    match s
    case UpsertEscrow(id, _, _, _) => id in t.escrows
    case SetEscrowStatus(id, _, _) => id in t.escrows
    case UpsertMilestone(key, _, _) => key in t.milestones
    case SetMilestoneStatus(key, _) => key in t.milestones
    case MarkSubmitted(key, _, _, _) => key in t.milestones
    case ReleaseMilestone(key, _) => key in t.milestones
    case InsertDispute(key, _, _) => key in t.disputes
    case ResolveDispute(key, _, _) => key in t.disputes
  }

  /** A row the statement needs is absent, so it does nothing (or fails). */
  predicate Missing(t: Tables, s: Statement) {
    !Landed(t, s)
    && match s
       case UpsertEscrow(_, _, _, _) => false
       case UpsertMilestone(key, _, _) => key.escrow !in t.escrows
       case InsertDispute(key, _, _) => key.escrow !in t.escrows
       case _ => true
  }

  predicate RowsWithin(t: Tables, u: Tables) {
    t.escrows.Keys <= u.escrows.Keys
    && t.milestones.Keys <= u.milestones.Keys
    && t.disputes.Keys <= u.disputes.Keys
  }

  predicate SameKeys(t: Tables, u: Tables) { RowsWithin(t, u) && RowsWithin(u, t) }

  /**
   * No statement needs a row that is absent when it runs and is created later in the list.
   * (Rows are never deleted, so "created later" is "present at the end".)
   */
  predicate Causal(t: Tables, ss: seq<Statement>) {
    forall i | 0 <= i < |ss| ::
      Missing(Exec(t, ss[..i]), ss[i]) ==> Missing(Exec(t, ss), ss[i])
  }

  /** A list each of whose statements finds the row it needs is causal. */
  lemma ListsInOrderAreCausal(t: Tables, ss: seq<Statement>)
    requires forall i | 0 <= i < |ss| ::
               var u := Exec(t, ss[..i]);
               match ss[i]
               case UpsertEscrow(_, _, _, _) => true
               case SetEscrowStatus(id, _, _) => id in u.escrows
               case UpsertMilestone(key, _, _) => key in u.milestones || key.escrow in u.escrows
               case SetMilestoneStatus(key, _) => key in u.milestones
               case MarkSubmitted(key, _, _, _) => key in u.milestones
               case ReleaseMilestone(key, _) => key in u.milestones
               case InsertDispute(key, _, _) => key in u.disputes || key.escrow in u.escrows
               case ResolveDispute(key, _, _) => key in u.disputes
    ensures Causal(t, ss)
  {
    hide Exec;
  }

  lemma ApplyKeepsRows(t: Tables, s: Statement)
    ensures RowsWithin(t, Apply(t, s))
    ensures Missing(t, s) ==> Apply(t, s) == t
    ensures !Missing(t, s) ==> Landed(Apply(t, s), s)
  {
  }

  lemma {:induction false} ExecKeepsRows(t: Tables, ss: seq<Statement>)
    ensures RowsWithin(t, Exec(t, ss))
    decreases |ss|
  {
    if ss == [] {
    } else {
      ApplyKeepsRows(t, ss[0]);
      ExecKeepsRows(Apply(t, ss[0]), ss[1..]);
    }
  }

  /** A statement adds at most the row it names. */
  lemma RowsAfter(t: Tables, s: Statement)
    ensures Apply(t, s).escrows.Keys == t.escrows.Keys + (if s.UpsertEscrow? then {s.id} else {})
    ensures Apply(t, s).milestones.Keys
         == t.milestones.Keys + (if s.UpsertMilestone? && s.key.escrow in t.escrows then {s.key} else {})
    ensures Apply(t, s).disputes.Keys
         == t.disputes.Keys + (if s.InsertDispute? && s.key.escrow in t.escrows then {s.key} else {})
  {
  }

  lemma ApplyRowsMonotone(t: Tables, u: Tables, s: Statement)
    requires RowsWithin(t, u)
    ensures RowsWithin(Apply(t, s), Apply(u, s))
  {
    hide Apply;
    RowsAfter(t, s);
    RowsAfter(u, s);
  }

  /** More rows before, more rows after. */
  lemma {:induction false} ExecRowsMonotone(t: Tables, u: Tables, ss: seq<Statement>)
    requires RowsWithin(t, u)
    ensures RowsWithin(Exec(t, ss), Exec(u, ss))
    decreases |ss|
  {
    if ss == [] {
    } else {
      ApplyRowsMonotone(t, u, ss[0]);
      ExecRowsMonotone(Apply(t, ss[0]), Apply(u, ss[0]), ss[1..]);
    }
  }

  lemma PrefixKeepsRows(t: Tables, ss: seq<Statement>, i: nat)
    requires i <= |ss|
    ensures RowsWithin(Exec(t, ss[..i]), Exec(t, ss))
  {
    ExecAppend(t, ss[..i], ss[i..]);
    assert ss[..i] + ss[i..] == ss;
    ExecKeepsRows(Exec(t, ss[..i]), ss[i..]);
  }

  lemma CausalPrefix(t: Tables, ss: seq<Statement>, n: nat)
    requires n <= |ss| && Causal(t, ss)
    ensures Causal(t, ss[..n])
  {
    PrefixKeepsRows(t, ss, n);
    forall i | 0 <= i < n && Missing(Exec(t, ss[..n][..i]), ss[..n][i])
      ensures Missing(Exec(t, ss[..n]), ss[..n][i])
    {
      assert ss[..n][..i] == ss[..i];
      assert Missing(Exec(t, ss), ss[i]);
    }
  }

  /** After a causal list, each of its statements has its row or will never have it. */
  lemma CausalSettles(t: Tables, ss: seq<Statement>, i: nat)
    requires i < |ss| && Causal(t, ss)
    ensures Landed(Exec(t, ss), ss[i]) || Missing(Exec(t, ss), ss[i])
    ensures Missing(Exec(t, ss[..i]), ss[i]) <==> Missing(Exec(t, ss), ss[i])
  {
    ExecSnoc(t, ss[..i], ss[i]);
    assert ss[..i] + [ss[i]] == ss[..i + 1];
    ApplyKeepsRows(Exec(t, ss[..i]), ss[i]);
    PrefixKeepsRows(t, ss, i + 1);
    PrefixKeepsRows(t, ss, i);
  }

  lemma EscrowUnderOverwrite(x: Tables, y: Tables, s: Statement, p: Statement, e: EscrowId)
    requires EscrowCell(Apply(x, s), e) == EscrowCell(Apply(y, s), e)
    requires (Missing(x, p) && Missing(y, p)) || (Landed(x, p) && Landed(y, p))
    ensures EscrowCell(Apply(Apply(x, p), s), e) == EscrowCell(Apply(Apply(y, p), s), e)
  {
    EscrowCellAfter(x, s, e);
    EscrowCellAfter(y, s, e);
    EscrowCellAfter(x, p, e);
    EscrowCellAfter(y, p, e);
    EscrowCellAfter(Apply(x, p), s, e);
    EscrowCellAfter(Apply(y, p), s, e);
  }

  lemma MilestoneRowUnderOverwrite(c: Option<MilestoneRow>, d: Option<MilestoneRow>, ec: bool, ed: bool, s: Statement,
                                   p: Statement, k: Key)
    requires OnMilestone(s, k) && OnMilestone(p, k)
    requires WriteMilestone(c, ec, s) == WriteMilestone(d, ed, s) && c.Some? && d.Some?
    ensures WriteMilestone(WriteMilestone(c, ec, p), ec, s) == WriteMilestone(WriteMilestone(d, ed, p), ed, s)
  {
  }

  lemma EscrowsUnmoved(x: Tables, p: Statement, e: EscrowId)
    requires Missing(x, p) || Landed(x, p)
    ensures e in Apply(x, p).escrows <==> e in x.escrows
  {
  }

  lemma MilestoneRowIsThere(c: Option<MilestoneRow>, ec: bool, ed: bool, p: Statement, k: Key)
    requires OnMilestone(p, k) && c.Some?
    ensures WriteMilestone(c, ec, p) == WriteMilestone(c, ed, p)
  {
  }

  lemma MilestoneUnderOverwrite(x: Tables, y: Tables, s: Statement, p: Statement, k: Key)
    requires MilestoneCell(Apply(x, s), k) == MilestoneCell(Apply(y, s), k)
    requires (Missing(x, p) && Missing(y, p)) || (Landed(x, p) && Landed(y, p))
    ensures MilestoneCell(Apply(Apply(x, p), s), k) == MilestoneCell(Apply(Apply(y, p), s), k)
  {
    hide Apply, WriteMilestone;
    ApplyKeepsRows(x, p);
    ApplyKeepsRows(y, p);
    if !Missing(x, p) {
      MilestoneCellAfter(x, s, k);
      MilestoneCellAfter(y, s, k);
      MilestoneCellAfter(x, p, k);
      MilestoneCellAfter(y, p, k);
      MilestoneCellAfter(Apply(x, p), s, k);
      MilestoneCellAfter(Apply(y, p), s, k);
      EscrowsUnmoved(x, p, k.escrow);
      EscrowsUnmoved(y, p, k.escrow);
      if OnMilestone(s, k) && OnMilestone(p, k) {
        MilestoneRowUnderOverwrite(MilestoneCell(x, k), MilestoneCell(y, k), k.escrow in x.escrows,
                                   k.escrow in y.escrows, s, p, k);
      } else if OnMilestone(p, k) {
        MilestoneRowIsThere(MilestoneCell(x, k), k.escrow in x.escrows, k.escrow in y.escrows, p, k);
      }
    }
  }

  lemma DisputeRowUnderOverwrite(c: Option<DisputeRow>, d: Option<DisputeRow>, ec: bool, ed: bool, s: Statement,
                                 p: Statement, k: Key)
    requires OnDispute(s, k) && OnDispute(p, k)
    requires WriteDispute(c, ec, s) == WriteDispute(d, ed, s) && c.Some? && d.Some?
    ensures WriteDispute(WriteDispute(c, ec, p), ec, s) == WriteDispute(WriteDispute(d, ed, p), ed, s)
  {
  }

  lemma DisputeRowIsThere(c: Option<DisputeRow>, ec: bool, ed: bool, p: Statement, k: Key)
    requires OnDispute(p, k) && c.Some?
    ensures WriteDispute(c, ec, p) == WriteDispute(c, ed, p)
  {
  }

  lemma DisputeUnderOverwrite(x: Tables, y: Tables, s: Statement, p: Statement, k: Key)
    requires DisputeCell(Apply(x, s), k) == DisputeCell(Apply(y, s), k)
    requires (Missing(x, p) && Missing(y, p)) || (Landed(x, p) && Landed(y, p))
    ensures DisputeCell(Apply(Apply(x, p), s), k) == DisputeCell(Apply(Apply(y, p), s), k)
  {
    hide Apply, WriteDispute;
    ApplyKeepsRows(x, p);
    ApplyKeepsRows(y, p);
    if !Missing(x, p) {
      DisputeCellAfter(x, s, k);
      DisputeCellAfter(y, s, k);
      DisputeCellAfter(x, p, k);
      DisputeCellAfter(y, p, k);
      DisputeCellAfter(Apply(x, p), s, k);
      DisputeCellAfter(Apply(y, p), s, k);
      EscrowsUnmoved(x, p, k.escrow);
      EscrowsUnmoved(y, p, k.escrow);
      if OnDispute(s, k) && OnDispute(p, k) {
        DisputeRowUnderOverwrite(DisputeCell(x, k), DisputeCell(y, k), k.escrow in x.escrows, k.escrow in y.escrows,
                                 s, p, k);
      } else if OnDispute(p, k) {
        DisputeRowIsThere(DisputeCell(x, k), k.escrow in x.escrows, k.escrow in y.escrows, p, k);
      }
    }
  }

  /** Two databases that `s` makes equal stay so under a statement that both have, or lack, the row for. */
  lemma StepUnderOverwrite(x: Tables, y: Tables, s: Statement, p: Statement)
    requires Apply(x, s) == Apply(y, s)
    requires (Missing(x, p) && Missing(y, p)) || (Landed(x, p) && Landed(y, p))
    ensures Apply(Apply(x, p), s) == Apply(Apply(y, p), s)
  {
    forall e ensures EscrowCell(Apply(Apply(x, p), s), e) == EscrowCell(Apply(Apply(y, p), s), e) {
      EscrowUnderOverwrite(x, y, s, p, e);
    }
    forall k ensures MilestoneCell(Apply(Apply(x, p), s), k) == MilestoneCell(Apply(Apply(y, p), s), k) {
      MilestoneUnderOverwrite(x, y, s, p, k);
    }
    forall k ensures DisputeCell(Apply(Apply(x, p), s), k) == DisputeCell(Apply(Apply(y, p), s), k) {
      DisputeUnderOverwrite(x, y, s, p, k);
    }
    SameCells(Apply(Apply(x, p), s), Apply(Apply(y, p), s));
  }

  /** Every statement of `ss` lands on a row both databases have, or is dropped by both. */
  predicate Settled(x: Tables, y: Tables, ss: seq<Statement>) {
    forall p <- ss :: (Missing(x, p) && Missing(y, p)) || (Landed(x, p) && Landed(y, p))
  }

  lemma SettledStep(x: Tables, y: Tables, ss: seq<Statement>)
    requires ss != [] && Settled(x, y, ss)
    ensures Settled(Apply(x, ss[0]), Apply(y, ss[0]), ss[1..])
  {
    var s := ss[0];
    assert s in ss;
    SettledKeepsRows(x, s);
    SettledKeepsRows(y, s);
    forall p <- ss[1..]
      ensures (Missing(Apply(x, s), p) && Missing(Apply(y, s), p)) || (Landed(Apply(x, s), p) && Landed(Apply(y, s), p))
    {
      assert p in ss;
    }
  }

  lemma SettledKeepsRows(t: Tables, s: Statement)
    requires Missing(t, s) || Landed(t, s)
    ensures Apply(t, s).escrows.Keys == t.escrows.Keys
    ensures Apply(t, s).milestones.Keys == t.milestones.Keys
    ensures Apply(t, s).disputes.Keys == t.disputes.Keys
  {
  }

  /** Whatever runs before `s`, its effect shows only through what `s` leaves. */
  lemma {:induction false} RunUnderOverwrite(x: Tables, y: Tables, s: Statement, ss: seq<Statement>)
    requires Apply(x, s) == Apply(y, s) && Settled(x, y, ss)
    ensures Apply(Exec(x, ss), s) == Apply(Exec(y, ss), s)
    decreases |ss|
  {
    if ss == [] {
    } else {
      assert ss[0] in ss;
      StepUnderOverwrite(x, y, s, ss[0]);
      SettledStep(x, y, ss);
      RunUnderOverwrite(Apply(x, ss[0]), Apply(y, ss[0]), s, ss[1..]);
    }
  }

  lemma ApplyTwice(t: Tables, s: Statement)
    ensures Apply(Apply(t, s), s) == Apply(t, s)
  {
    forall e ensures EscrowCell(Apply(Apply(t, s), s), e) == EscrowCell(Apply(t, s), e) {
      EscrowCellAfter(t, s, e);
      EscrowCellAfter(Apply(t, s), s, e);
    }
    forall k ensures MilestoneCell(Apply(Apply(t, s), s), k) == MilestoneCell(Apply(t, s), k) {
      MilestoneCellAfter(t, s, k);
      MilestoneCellAfter(Apply(t, s), s, k);
    }
    forall k ensures DisputeCell(Apply(Apply(t, s), s), k) == DisputeCell(Apply(t, s), k) {
      DisputeCellAfter(t, s, k);
      DisputeCellAfter(Apply(t, s), s, k);
    }
    SameCells(Apply(Apply(t, s), s), Apply(t, s));
  }

  /** Replaying a whole causal list changes nothing. */
  lemma {:induction false} ReplayWhole(t: Tables, ss: seq<Statement>)
    requires Causal(t, ss)
    ensures Exec(Exec(t, ss), ss) == Exec(t, ss)
    decreases |ss|
  {
    if ss == [] {
    } else {
      var n := |ss| - 1;
      var q, s := ss[..n], ss[n];
      assert ss == q + [s];
      var a, b := Exec(t, q), Exec(t, ss);
      ExecSnoc(t, q, s);
      CausalPrefix(t, ss, n);
      ReplayWhole(t, q);
      forall p <- q
        ensures (Missing(a, p) && Missing(b, p)) || (Landed(a, p) && Landed(b, p))
      {
        var i :| 0 <= i < n && q[i] == p;
        CausalSettles(t, ss, i);
        CausalSettles(t, q, i);
        assert q[..i] == ss[..i];
      }
      ApplyTwice(a, s);
      RunUnderOverwrite(b, a, s, q);
      ExecSnoc(b, q, s);
    }
  }

  /** The absorption law: a partial run of a causal list, cut anywhere, is absorbed by the full run. */
  lemma PartialRunAbsorbed(t: Tables, ss: seq<Statement>, cut: nat)
    requires Causal(t, ss) && cut <= |ss|
    ensures Exec(Exec(t, ss[..cut]), ss) == Exec(t, ss)
  {
    CausalPrefix(t, ss, cut);
    ReplayWhole(t, ss[..cut]);
    assert ss == ss[..cut] + ss[cut..];
    ExecAppend(Exec(t, ss[..cut]), ss[..cut], ss[cut..]);
    ExecAppend(t, ss[..cut], ss[cut..]);
  }

  lemma MissingAntitone(t: Tables, u: Tables, s: Statement)
    requires RowsWithin(t, u) && Missing(u, s)
    ensures Missing(t, s)
  {
  }

  /** A partial run keeps the list causal, so partial runs can be repeated. */
  lemma CausalAfterPartialRun(t: Tables, ss: seq<Statement>, cut: nat)
    requires Causal(t, ss) && cut <= |ss|
    ensures Causal(Exec(t, ss[..cut]), ss)
  {
    var u := Exec(t, ss[..cut]);
    PartialRunAbsorbed(t, ss, cut);
    ExecKeepsRows(t, ss[..cut]);
    forall i | 0 <= i < |ss| && Missing(Exec(u, ss[..i]), ss[i])
      ensures Missing(Exec(u, ss), ss[i])
    {
      ExecRowsMonotone(t, u, ss[..i]);
      MissingAntitone(Exec(t, ss[..i]), Exec(u, ss[..i]), ss[i]);
    }
  }

  /** The tables after a series of interrupted attempts, each cut at its own point. */
  function Attempts(t: Tables, ss: seq<Statement>, cuts: seq<nat>): Tables
    requires forall i | 0 <= i < |cuts| :: cuts[i] <= |ss|
    decreases |cuts|
  {
    if cuts == [] then t else Attempts(Exec(t, ss[..cuts[0]]), ss, cuts[1..])
  }

  /** Any number of interrupted attempts followed by one complete run equals the complete run alone. */
  lemma {:induction false} AttemptsAbsorbed(t: Tables, ss: seq<Statement>, cuts: seq<nat>)
    requires Causal(t, ss) && forall i | 0 <= i < |cuts| :: cuts[i] <= |ss|
    ensures Causal(Attempts(t, ss, cuts), ss)
    ensures Exec(Attempts(t, ss, cuts), ss) == Exec(t, ss)
    decreases |cuts|
  {
    if cuts == [] {
    } else {
      PartialRunAbsorbed(t, ss, cuts[0]);
      CausalAfterPartialRun(t, ss, cuts[0]);
      AttemptsAbsorbed(Exec(t, ss[..cuts[0]]), ss, cuts[1..]);
    }
  }

  /** What is causal from the start is causal for a later database that holds at least the rows run so far. */
  lemma CausalTail(t: Tables, u: Tables, head: seq<Statement>, rest: seq<Statement>)
    requires Causal(t, head + rest) && RowsWithin(Exec(t, head), u)
    requires Exec(u, rest) == Exec(t, head + rest)
    ensures Causal(u, rest)
  {
    forall i | 0 <= i < |rest| && Missing(Exec(u, rest[..i]), rest[i])
      ensures Missing(Exec(u, rest), rest[i])
    {
      CausalTailAt(t, u, head, rest, i);
    }
  }

  lemma CausalTailAt(t: Tables, u: Tables, head: seq<Statement>, rest: seq<Statement>, i: nat)
    requires Causal(t, head + rest) && RowsWithin(Exec(t, head), u) && i < |rest|
    requires Missing(Exec(u, rest[..i]), rest[i])
    ensures Missing(Exec(t, head + rest), rest[i])
  {
    hide Exec, Missing;
    var all, j := head + rest, |head| + i;
    assert all[j] == rest[i] && all[..j] == head + rest[..i];
    ExecAppend(t, head, rest[..i]);
    ExecRowsMonotone(Exec(t, head), u, rest[..i]);
    MissingAntitone(Exec(t, all[..j]), Exec(u, rest[..i]), rest[i]);
  }
}
