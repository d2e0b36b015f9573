/** A causal list absorbs any of its own statements run beforehand, in any order and number. */
module Disorder {
  import opened Tables
  import opened Replay
  import opened ReplayCuts

  /** Two inserts of one row insert the same content. */
  predicate AgreeOnContent(p: Statement, q: Statement) {
    RowOf(p) == RowOf(q) ==>
      && (p.UpsertEscrow? && q.UpsertEscrow? ==> p.escrowTerms == q.escrowTerms)
      && (p.UpsertMilestone? && q.UpsertMilestone? ==> p.milestoneTerms == q.milestoneTerms)
      && (p.InsertDispute? && q.InsertDispute? ==> p.raisedBy == q.raisedBy && p.reason == q.reason)
  }

  predicate AgreedContents(ss: seq<Statement>) {
    forall p, q | p in ss && q in ss :: AgreeOnContent(p, q)
  }

  /** Where `s` ran early, nothing that has no effect without it has one with it. */
  predicate Undisturbed(w: Tables, s: Statement, ss: seq<Statement>) {
    forall i | 0 <= i < |ss| :: Missing(Exec(w, ss[..i]), ss[i]) ==> Missing(Apply(Exec(w, ss[..i]), s), ss[i])
  }

  lemma UndisturbedTail(w: Tables, s: Statement, ss: seq<Statement>)
    requires ss != [] && Undisturbed(w, s, ss)
    ensures Missing(w, ss[0]) ==> Missing(Apply(w, s), ss[0])
    ensures Undisturbed(Apply(w, ss[0]), s, ss[1..])
  {
    hide Missing, Apply;
    assert ss[..0] == [];
    forall i | 0 <= i < |ss| - 1
      ensures Missing(Exec(Apply(w, ss[0]), ss[1..][..i]), ss[1..][i]) ==>
              Missing(Apply(Exec(Apply(w, ss[0]), ss[1..][..i]), s), ss[1..][i])
    {
      assert ss[..i + 1][0] == ss[0] && ss[..i + 1][1..] == ss[1..][..i];
      assert ss[1..][i] == ss[i + 1];
    }
  }

  /** The first insert of the row, after an early one with the same content: `s` itself makes up for the rest. */
  lemma TwoInserts(w: Tables, s: Statement, h: Statement)
    requires !Landed(w, s) && !Missing(w, s) && RowOf(h) == RowOf(s) && !Missing(w, h) && AgreeOnContent(h, s)
    ensures var z, v := Apply(Apply(w, s), h), Apply(w, h);
      SameKeys(z, v) && Landed(z, s) && Apply(z, s) == Apply(v, s)
  {
  }

  /** An insert that ran early is absorbed when it runs in its place. */
  lemma {:induction false} EarlyInsertAbsorbed(w: Tables, s: Statement, ss: seq<Statement>)
    requires !Landed(w, s) && !Missing(w, s) && Undisturbed(w, s, ss)
    requires forall h <- ss :: AgreeOnContent(h, s)
    ensures Apply(Exec(Apply(w, s), ss), s) == Apply(Exec(w, ss), s)
    decreases |ss|
  {
    hide Missing, Apply, Landed, AgreeOnContent, Undisturbed;
    if ss == [] {
      ApplyTwice(w, s);
    } else {
      var h, rest := ss[0], ss[1..];
      assert h in ss;
      UndisturbedTail(w, s, ss);
      if RowOf(h) == RowOf(s) {
        InsertLands(w, s, h);
        TwoInserts(w, s, h);
        AnyRunUnderOverwrite(Apply(Apply(w, s), h), Apply(w, h), s, rest);
      } else {
        if Missing(w, h) {
          ApplyKeepsRows(w, h);
          ApplyKeepsRows(Apply(w, s), h);
        } else {
          InsertCommutes(w, s, h);
          OtherRowsStayAbsent(w, h, s);
        }
        EarlyInsertAbsorbed(Apply(w, h), s, rest);
      }
    }
  }

  lemma InsertLands(w: Tables, s: Statement, h: Statement)
    requires !Missing(w, s) && RowOf(h) == RowOf(s) && (Missing(w, h) ==> Missing(Apply(w, s), h))
    ensures !Missing(w, h)
  {
    hide Apply;
    ApplyKeepsRows(w, s);
    LandingIsByRow(Apply(w, s), s, h);
    LandedIsNotMissing(Apply(w, s), s);
  }

  /** In a causal list, an early run of the statement at `k` wakes nothing before it. */
  lemma CausalIsUndisturbed(t: Tables, ss: seq<Statement>, k: nat)
    requires Causal(t, ss) && k < |ss|
    ensures Undisturbed(t, ss[k], ss[..k])
  {
    hide Missing, Apply, Exec;
    var before := ss[..k];
    forall i | 0 <= i < k && Missing(Exec(t, before[..i]), before[i])
      ensures Missing(Apply(Exec(t, before[..i]), ss[k]), before[i])
    {
      assert before[..i] == ss[..i];
      PrefixKeepsRows(t, before, i);
      ApplyRowsMonotone(Exec(t, before[..i]), Exec(t, before), ss[k]);
      ExecSnoc(t, before, ss[k]);
      assert before + [ss[k]] == ss[..k + 1];
      PrefixKeepsRows(t, ss, k + 1);
      RowsWithinTransitive(Apply(Exec(t, before[..i]), ss[k]), Exec(t, ss[..k + 1]), Exec(t, ss));
      MissingAntitone(Apply(Exec(t, before[..i]), ss[k]), Exec(t, ss), before[i]);
    }
  }

  lemma RowsWithinTransitive(t: Tables, u: Tables, v: Tables)
    requires RowsWithin(t, u) && RowsWithin(u, v)
    ensures RowsWithin(t, v)
  {
  }

  /** One statement of the list, run beforehand, is absorbed. */
  lemma OneAbsorbed(t: Tables, ss: seq<Statement>, k: nat)
    requires Causal(t, ss) && k < |ss| && AgreedContents(ss)
    ensures Exec(Apply(t, ss[k]), ss) == Exec(t, ss)
    ensures Causal(Apply(t, ss[k]), ss)
  {
    hide Missing, Apply, Exec, Landed, AgreeOnContent, Undisturbed;
    var s, before, after := ss[k], ss[..k], ss[k + 1..];
    ApplyKeepsRows(t, s);
    if Landed(t, s) {
      SettledKeepsRows(t, s);
      ApplyTwice(t, s);
      LandedStays(t, Apply(t, s), s);
      AnyRunUnderOverwrite(Apply(t, s), t, s, before);
    } else if !Missing(t, s) {
      CausalIsUndisturbed(t, ss, k);
      forall h <- before ensures AgreeOnContent(h, s) { assert h in ss && s in ss; }
      EarlyInsertAbsorbed(t, s, before);
    }
    assert ss == (before + [s]) + after;
    ExecSnoc(t, before, s);
    ExecSnoc(Apply(t, s), before, s);
    ExecAppend(t, before + [s], after);
    ExecAppend(Apply(t, s), before + [s], after);
    CausalWithMoreRows(t, Apply(t, s), ss);
  }

  /** More rows and the same outcome: still causal. */
  lemma CausalWithMoreRows(t: Tables, u: Tables, ss: seq<Statement>)
    requires Causal(t, ss) && RowsWithin(t, u) && Exec(u, ss) == Exec(t, ss)
    ensures Causal(u, ss)
  {
    hide Missing, Exec;
    forall i | 0 <= i < |ss| && Missing(Exec(u, ss[..i]), ss[i]) ensures Missing(Exec(u, ss), ss[i]) {
      ExecRowsMonotone(t, u, ss[..i]);
      MissingAntitone(Exec(t, ss[..i]), Exec(u, ss[..i]), ss[i]);
    }
  }

  /**
   * Any statements of a causal list, run beforehand in any order and any number of times, are absorbed by
   * the list, when its inserts of each row agree in content.
   */
  lemma {:induction false} DisorderAbsorbed(t: Tables, ss: seq<Statement>, some: seq<Statement>)
    requires Causal(t, ss) && forall p <- some :: p in ss
    requires forall p, q | p in ss && q in ss ::
               && (p.UpsertEscrow? && q.UpsertEscrow? && p.id == q.id ==> p.escrowTerms == q.escrowTerms)
               && (p.UpsertMilestone? && q.UpsertMilestone? && p.key == q.key ==> p.milestoneTerms == q.milestoneTerms)
               && (p.InsertDispute? && q.InsertDispute? && p.key == q.key ==>
                     p.raisedBy == q.raisedBy && p.reason == q.reason)
    ensures Exec(Exec(t, some), ss) == Exec(t, ss) && Causal(Exec(t, some), ss)
    decreases |some|
  {
    hide Apply, Causal;
    if some == [] {
    } else {
      assert some[0] in some;
      var k :| 0 <= k < |ss| && ss[k] == some[0];
      OneAbsorbed(t, ss, k);
      forall p <- some[1..] ensures p in ss { assert p in some; }
      DisorderAbsorbed(Apply(t, some[0]), ss, some[1..]);
    }
  }

  /**
   * Contents do have to agree: a causal list that raises a dispute twice does not absorb an early run of
   * its second raise, because the first writer of a dispute wins.
   */
  lemma ContentsMustAgree()
    ensures var t := Exec(EMPTY, [SAMPLE_CREATE]);
            var ss := [InsertDispute(SAMPLE_KEY, "G1", ""), InsertDispute(SAMPLE_KEY, "G2", "")];
      Causal(t, ss) && Exec(Exec(t, [ss[1]]), ss) != Exec(t, ss)
  {
    hide Apply, Missing;
    var t := Exec(EMPTY, [SAMPLE_CREATE]);
    var a, b := InsertDispute(SAMPLE_KEY, "G1", ""), InsertDispute(SAMPLE_KEY, "G2", "");
    RunThree(EMPTY, SAMPLE_CREATE, a, b);
    RunThree(t, a, b, b);
    RunThree(t, b, a, b);
    RunThree(Apply(t, b), a, b, b);
    TwoRaisesInTurn(t, a, b);
    var ss := [a, b];
    assert ss[..0] == [] && ss[..1] == [a];
  }

  lemma TwoRaisesInTurn(t: Tables, a: Statement, b: Statement)
    requires t == Apply(EMPTY, SAMPLE_CREATE)
    requires a == InsertDispute(SAMPLE_KEY, "G1", "") && b == InsertDispute(SAMPLE_KEY, "G2", "")
    ensures !Missing(t, a) && !Missing(Apply(t, a), b)
    ensures Apply(Apply(Apply(t, b), a), b) != Apply(Apply(t, a), b)
  {
    assert Apply(Apply(t, a), b).disputes[SAMPLE_KEY].raisedBy == "G1";
    assert Apply(Apply(Apply(t, b), a), b).disputes[SAMPLE_KEY].raisedBy == "G2";
  }
}
