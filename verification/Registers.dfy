/** The guarded escrow status is a register that the highest ledger wins. */
module Registers {
  import opened Base
  import opened Tables
  import opened Cells

  datatype Write = Write(status: string, ledger: i64)

  /** An escrow row after a sequence of guarded status writes. */
  function Register(row: EscrowRow, ws: seq<Write>): EscrowRow
    decreases |ws|
  {
    if ws == [] then row else Register(GuardedUpdate(row, ws[0].status, ws[0].ledger), ws[1..])
  }

  lemma {:induction false} RegisterSnoc(row: EscrowRow, ws: seq<Write>, w: Write)
    ensures Register(row, ws + [w]) == GuardedUpdate(Register(row, ws), w.status, w.ledger)
    decreases |ws|
  {
    if ws == [] {
      assert [w][1..] == [];
    } else {
      assert (ws + [w])[0] == ws[0] && (ws + [w])[1..] == ws[1..] + [w];
      RegisterSnoc(GuardedUpdate(row, ws[0].status, ws[0].ledger), ws[1..], w);
    }
  }

  /** The last of the writes that carry the highest ledger, provided that is not below the row's own. */
  predicate Wins(row: EscrowRow, ws: seq<Write>, i: int) {
    0 <= i < |ws| && ws[i].ledger >= row.updatedLedger
    && (forall j | 0 <= j < |ws| :: ws[j].ledger <= ws[i].ledger)
    && (forall j | i < j < |ws| :: ws[j].ledger < ws[i].ledger)
  }

  /** The row shows the one winning write, or is untouched when every write is older than it. */
  lemma {:induction false} HighestLedgerWins(row: EscrowRow, ws: seq<Write>)
    ensures (exists i :: Wins(row, ws, i)) <==> exists i | 0 <= i < |ws| :: ws[i].ledger >= row.updatedLedger
    ensures (forall i | 0 <= i < |ws| :: ws[i].ledger < row.updatedLedger) ==> Register(row, ws) == row
    ensures forall i | Wins(row, ws, i) :: Register(row, ws) == EscrowRow(row.terms, ws[i].status, ws[i].ledger)
    decreases |ws|
  {
    if ws == [] {
    } else {
      var n := |ws| - 1;
      var front := ws[..n];
      assert ws == front + [ws[n]];
      RegisterSnoc(row, front, ws[n]);
      HighestLedgerWins(row, front);
      if i :| Wins(row, front, i) {
        assert Register(row, front).updatedLedger == front[i].ledger;
        if ws[n].ledger < front[i].ledger { assert Wins(row, ws, i); }
      }
      if ws[n].ledger >= Register(row, front).updatedLedger { assert Wins(row, ws, n); }
      forall i | Wins(row, ws, i)
        ensures Register(row, ws) == EscrowRow(row.terms, ws[i].status, ws[i].ledger)
      {
        if i < n { assert Wins(row, front, i); }
      }
    }
  }

  predicate DistinctLedgers(ws: seq<Write>) {
    forall i, j | 0 <= i < j < |ws| :: ws[i].ledger != ws[j].ledger
  }

  /** The winners of two arrangements of the same writes are the same write. */
  lemma SameWinner(row: EscrowRow, ws: seq<Write>, vs: seq<Write>, i: int, j: int)
    requires (forall w <- ws :: w in vs) && (forall w <- vs :: w in ws) && DistinctLedgers(ws)
    requires Wins(row, ws, i) && Wins(row, vs, j)
    ensures ws[i] == vs[j]
  {
    assert ws[i] in vs && vs[j] in ws;
    var k :| 0 <= k < |ws| && ws[k] == vs[j];
    var m :| 0 <= m < |vs| && vs[m] == ws[i];
    assert ws[k].ledger <= ws[i].ledger && vs[m].ledger <= vs[j].ledger;
  }

  /** The arrival order of writes from different ledgers does not matter. */
  lemma OrderIrrelevant(row: EscrowRow, ws: seq<Write>, vs: seq<Write>)
    requires multiset(ws) == multiset(vs) && DistinctLedgers(ws)
    ensures Register(row, ws) == Register(row, vs)
  {
    hide Register, DistinctLedgers, Wins;
    HighestLedgerWins(row, ws);
    HighestLedgerWins(row, vs);
    forall w ensures w in ws <==> w in vs { assert w in multiset(ws) <==> w in multiset(vs); }
    if exists i | 0 <= i < |ws| :: ws[i].ledger >= row.updatedLedger {
      var i :| Wins(row, ws, i);
      var k :| 0 <= k < |ws| && ws[k].ledger >= row.updatedLedger;
      assert ws[k] in vs;
      var j :| Wins(row, vs, j);
      SameWinner(row, ws, vs, i, j);
      WinnersAreWrites(row, ws, i);
      WinnersAreWrites(row, vs, j);
    } else {
      forall j | 0 <= j < |vs| ensures vs[j].ledger < row.updatedLedger { assert vs[j] in ws; }
    }
  }

  lemma WinnersAreWrites(row: EscrowRow, ws: seq<Write>, i: int)
    requires Wins(row, ws, i)
    ensures 0 <= i < |ws|
  {
  }

  /** On a log in ledger order, not older than the row, the register is plain last-writer-wins. */
  lemma SortedIsLastWriter(row: EscrowRow, ws: seq<Write>)
    requires ws != [] && ws[0].ledger >= row.updatedLedger
    requires forall i, j | 0 <= i < j < |ws| :: ws[i].ledger <= ws[j].ledger
    ensures Register(row, ws) == EscrowRow(row.terms, ws[|ws| - 1].status, ws[|ws| - 1].ledger)
  {
    var n := |ws| - 1;
    assert ws == ws[..n] + [ws[n]];
    RegisterSnoc(row, ws[..n], ws[n]);
    HighestLedgerWins(row, ws[..n]);
  }

  /** The status writes a list of statements makes to one escrow. */
  function WritesTo(ss: seq<Statement>, e: EscrowId): seq<Write> {
    if ss == [] then []
    else (if OnEscrow(ss[0], e) then [Write(ss[0].status, ss[0].ledger)] else []) + WritesTo(ss[1..], e)
  }

  /** Whatever else the statements do, an existing escrow row evolves as that register. */
  lemma {:induction false} EscrowsAreRegisters(t: Tables, ss: seq<Statement>, e: EscrowId)
    requires e in t.escrows
    ensures e in Exec(t, ss).escrows && Exec(t, ss).escrows[e] == Register(t.escrows[e], WritesTo(ss, e))
    decreases |ss|
  {
    hide Apply;
    if ss == [] {
    } else {
      EscrowCellAfter(t, ss[0], e);
      EscrowsAreRegisters(Apply(t, ss[0]), ss[1..], e);
      var rest := WritesTo(ss[1..], e);
      if OnEscrow(ss[0], e) {
        assert ([Write(ss[0].status, ss[0].ledger)] + rest)[1..] == rest;
      } else {
        assert [] + rest == rest;
      }
    }
  }
}
