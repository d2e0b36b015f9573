/** The three projected tables and the statements that write them (src/db.rs). */
module Tables {
  import opened Base

  type EscrowId = i64

  /** Primary key shared by `milestones` and `disputes`. */
  datatype Key = Key(escrow: EscrowId, milestone: i32)

  /** Columns of `escrows` that only the inserting statement writes. */
  datatype EscrowTerms = EscrowTerms(
    contractId: string,
    client: string,
    provider: string,
    arbitrator: string,
    token: string,
    reviewPeriod: i64,
    chainCreatedAt: Option<int>,
    title: Option<string>,
    metadataUri: Option<string>,
    metadataHash: Option<string>)

  datatype EscrowRow = EscrowRow(terms: EscrowTerms, status: string, updatedLedger: i64)

  /** Columns of `milestones` that only the inserting statement writes. */
  datatype MilestoneTerms = MilestoneTerms(description: string, amount: int, deadline: Option<int>)

  datatype MilestoneRow = MilestoneRow(
    terms: MilestoneTerms,
    status: string,
    submittedAt: Option<int>,
    evidenceUri: Option<string>,
    evidenceHash: Option<string>,
    releasedVia: Option<string>)

  datatype DisputeRow = DisputeRow(
    raisedBy: string,
    reason: string,
    status: string,
    resolutionKind: Option<string>,
    resolutionBps: Option<i32>)

  datatype Tables = Tables(
    escrows: map<EscrowId, EscrowRow>,
    milestones: map<Key, MilestoneRow>,
    disputes: map<Key, DisputeRow>)

  const EMPTY: Tables := Tables(map[], map[], map[])

  /** One constructor per writer of the projected tables. */
  datatype Statement =
    | UpsertEscrow(id: EscrowId, escrowTerms: EscrowTerms, status: string, ledger: i64)
    | SetEscrowStatus(id: EscrowId, status: string, ledger: i64)
    | UpsertMilestone(key: Key, milestoneTerms: MilestoneTerms, status: string)
    | SetMilestoneStatus(key: Key, status: string)
    | MarkSubmitted(key: Key, uri: Option<string>, hash: Option<string>, at: int)
    | ReleaseMilestone(key: Key, via: string)
    | InsertDispute(key: Key, raisedBy: string, reason: string)
    | ResolveDispute(key: Key, kind: string, bps: Option<i32>)
  {
    /** The escrow the statement is about. */
    function Escrow(): EscrowId {
      if UpsertEscrow? || SetEscrowStatus? then id else key.escrow
    }
  }

  /** The ledger guard: an update carrying an older ledger than the row is dropped. */
  function GuardedUpdate(row: EscrowRow, status: string, ledger: i64): EscrowRow {
    if ledger >= row.updatedLedger then row.(status := status, updatedLedger := ledger) else row
  }

  /** The statement raises a foreign-key error. */
  predicate Fails(t: Tables, s: Statement) {
    match s
    case UpsertMilestone(key, _, _) => key !in t.milestones && key.escrow !in t.escrows
    case InsertDispute(key, _, _) => key !in t.disputes && key.escrow !in t.escrows
    case _ => false
  }

  /** The tables after one statement; a failing statement leaves them as they were. */
  function Apply(t: Tables, s: Statement): Tables {
    match s
    case UpsertEscrow(id, terms, status, ledger) =>
      t.(escrows := t.escrows[id :=
        if id in t.escrows then GuardedUpdate(t.escrows[id], status, ledger)
        else EscrowRow(terms, status, ledger)])
    case SetEscrowStatus(id, status, ledger) =>
      if id !in t.escrows then t
      else t.(escrows := t.escrows[id := GuardedUpdate(t.escrows[id], status, ledger)])
    case UpsertMilestone(key, terms, status) =>
      if Fails(t, s) then t
      else t.(milestones := t.milestones[key :=
        if key in t.milestones then t.milestones[key].(status := status)
        else MilestoneRow(terms, status, None, None, None, None)])
    case SetMilestoneStatus(key, status) =>
      if key !in t.milestones then t
      else t.(milestones := t.milestones[key := t.milestones[key].(status := status)])
    case MarkSubmitted(key, uri, hash, at) =>
      if key !in t.milestones then t
      else t.(milestones := t.milestones[key := t.milestones[key].(
        status := "submitted", evidenceUri := uri, evidenceHash := hash, submittedAt := Some(at))])
    case ReleaseMilestone(key, via) =>
      if key !in t.milestones then t
      else t.(milestones := t.milestones[key := t.milestones[key].(
        status := "released", releasedVia := Some(via))])
    case InsertDispute(key, raisedBy, reason) =>
      if Fails(t, s) || key in t.disputes then t
      else t.(disputes := t.disputes[key := DisputeRow(raisedBy, reason, "open", None, None)])
    case ResolveDispute(key, kind, bps) =>
      if key !in t.disputes then t
      else t.(disputes := t.disputes[key := t.disputes[key].(
        status := "resolved", resolutionKind := Some(kind), resolutionBps := bps)])
  }

  /** The tables after a list of statements, each tried whatever the earlier ones did. */
  function Exec(t: Tables, ss: seq<Statement>): Tables
    decreases |ss|
  {
    if ss == [] then t else Exec(Apply(t, ss[0]), ss[1..])
  }

  lemma {:induction false} ExecAppend(t: Tables, a: seq<Statement>, b: seq<Statement>)
    ensures Exec(t, a + b) == Exec(Exec(t, a), b)
    decreases |a|
  {
    if a == [] {
      assert a + b == b;
    } else {
      assert (a + b)[0] == a[0] && (a + b)[1..] == a[1..] + b;
      ExecAppend(Apply(t, a[0]), a[1..], b);
    }
  }

  lemma ExecSnoc(t: Tables, a: seq<Statement>, s: Statement)
    ensures Exec(t, a + [s]) == Apply(Exec(t, a), s)
  {
    ExecAppend(t, a, [s]);
    assert [s][1..] == [];
  }
}
