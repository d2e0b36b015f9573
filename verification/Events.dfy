/** From a contract event to the statements it runs (`process_event` in src/indexer/mod.rs). */
module Events {
  import opened Base
  import opened Decode
  import opened Tables

  /** An event as the RPC returns it; a topic or value that is not valid XDR is `None`. */
  datatype RpcEvent = RpcEvent(
    contractId: string,
    ledger: u32,
    ledgerClosedAt: int,
    id: nat,
    topic: seq<Option<ScVal>>,
    value: Option<ScVal>,
    inSuccessfulContractCall: bool)

  /** What follows the last statement: notify, nothing (unknown event), or a decoding error. */
  datatype Finish = Notify(escrow: EscrowId, name: string) | Ignore | Abort(error: DecodeError)

  /** The statements of an event, up to the first decoding error. */
  datatype Plan = Plan(statements: seq<Statement>, finish: Finish)

  function Failed(error: DecodeError): Plan { Plan([], Abort(error)) }

  datatype Head = Head(name: string, escrow: EscrowId, data: ScVal)

  /** The event name, the escrow id and the data, in the order the code decodes them. */
  function DecodeHead(event: RpcEvent): Decoded<Head> {
    if exists t <- event.topic :: t.None? then Err(Undecodable)
    else if event.value.None? then Err(Undecodable)
    else if event.topic == [] then Err(NoTopics)
    else
      var name := ToText(event.topic[0].value);
      if name.Err? then Err(name.error)
      else if |event.topic| < 2 then Err(NoEscrowTopic)
      else
        var id := ToU64(event.topic[1].value);
        if id.Err? then Err(id.error) else Ok(Head(name.value, U64AsI64(id.value), event.value.value))
  }

  function AddressField(data: ScVal, field: string): Decoded<string> {
    var v := MapGet(data, field);
    if v.Err? then Err(v.error) else ToAddress(v.value)
  }

  function TextField(data: ScVal, field: string): Decoded<string> {
    var v := MapGet(data, field);
    if v.Err? then Err(v.error) else ToText(v.value)
  }

  function U64Field(data: ScVal, field: string): Decoded<u64> {
    var v := MapGet(data, field);
    if v.Err? then Err(v.error) else ToU64(v.value)
  }

  function MilestoneField(data: ScVal): Decoded<i32> {
    var v := MapGet(data, "milestone_id");
    if v.Err? then Err(v.error)
    else var id := ToU32(v.value); if id.Err? then Err(id.error) else Ok(U32AsI32(id.value))
  }

  /** An optional URI with the hash that must come with it. */
  function UriAndHash(data: ScVal, uriField: string, hashField: string): Decoded<(Option<string>, Option<string>)> {
    var uri := TextField(data, uriField);
    if uri.Err? then Err(uri.error)
    else if uri.value == "" then Ok((None, None))
    else
      var v := MapGet(data, hashField);
      if v.Err? then Err(v.error)
      else var hash := ToHex(v.value); if hash.Err? then Err(hash.error) else Ok((Some(uri.value), Some(hash.value)))
  }

  function DecodeTerms(contractId: string, data: ScVal): Decoded<EscrowTerms> {
    var client := AddressField(data, "client");
    if client.Err? then Err(client.error) else
    var provider := AddressField(data, "provider");
    if provider.Err? then Err(provider.error) else
    var arbitrator := AddressField(data, "arbitrator");
    if arbitrator.Err? then Err(arbitrator.error) else
    var token := AddressField(data, "token");
    if token.Err? then Err(token.error) else
    var review := U64Field(data, "review_period");
    if review.Err? then Err(review.error) else
    var created := U64Field(data, "created_at");
    if created.Err? then Err(created.error) else
    var createdAt := ToDateTime(created.value);
    if createdAt.Err? then Err(createdAt.error) else
    var title := TextField(data, "title");
    if title.Err? then Err(title.error) else
    var metadata := UriAndHash(data, "metadata_uri", "metadata_hash");
    if metadata.Err? then Err(metadata.error) else
    Ok(EscrowTerms(contractId, client.value, provider.value, arbitrator.value, token.value,
                   U64AsI64(review.value), Some(createdAt.value), EmptyAsNone(title.value),
                   metadata.value.0, metadata.value.1))
  }

  function MilestoneRowOf(escrow: EscrowId, m: Milestone): Decoded<Statement> {
    var deadline := ToDateTime(m.deadline);
    if deadline.Err? then Err(deadline.error)
    else Ok(UpsertMilestone(Key(escrow, U32AsI32(m.id)),
                            MilestoneTerms(m.description, m.amount, Some(deadline.value)), "pending"))
  }

  /** One upsert a milestone, until a deadline that is out of range. */
  function MilestonePlan(escrow: EscrowId, ms: seq<Milestone>, finish: Finish): Plan {
    if ms == [] then Plan([], finish)
    else
      var first := MilestoneRowOf(escrow, ms[0]);
      if first.Err? then Failed(first.error)
      else
        var rest := MilestonePlan(escrow, ms[1..], finish);
        Plan([first.value] + rest.statements, rest.finish)
  }

  function CreatedPlan(contractId: string, head: Head, ledger: i64): Plan {
    var terms := DecodeTerms(contractId, head.data);
    if terms.Err? then Failed(terms.error)
    else
      var upsert := UpsertEscrow(head.escrow, terms.value, "created", ledger);
      var field := MapGet(head.data, "milestones");
      if field.Err? then Plan([upsert], Abort(field.error))
      else
        var ms := DecodeMilestones(field.value);
        if ms.Err? then Plan([upsert], Abort(ms.error))
        else
          var rest := MilestonePlan(head.escrow, ms.value, Notify(head.escrow, head.name));
          Plan([upsert] + rest.statements, rest.finish)
  }

  function SubmittedPlan(head: Head, ledger: i64, closedAt: int): Plan {
    var id := MilestoneField(head.data);
    if id.Err? then Failed(id.error)
    else
      var evidence := UriAndHash(head.data, "evidence_uri", "evidence_hash");
      if evidence.Err? then Failed(evidence.error)
      else Plan([SetEscrowStatus(head.escrow, "in_progress", ledger),
                 MarkSubmitted(Key(head.escrow, id.value), evidence.value.0, evidence.value.1, closedAt)],
                Notify(head.escrow, head.name))
  }

  function RaisedPlan(head: Head): Plan {
    var id := MilestoneField(head.data);
    if id.Err? then Failed(id.error)
    else
      var raisedBy := AddressField(head.data, "raised_by");
      if raisedBy.Err? then Failed(raisedBy.error)
      else
        var reason := TextField(head.data, "reason");
        if reason.Err? then Failed(reason.error)
        else Plan([SetMilestoneStatus(Key(head.escrow, id.value), "disputed"),
                   InsertDispute(Key(head.escrow, id.value), raisedBy.value, reason.value)],
                  Notify(head.escrow, head.name))
  }

  function ResolvedPlan(head: Head): Plan {
    var id := MilestoneField(head.data);
    if id.Err? then Failed(id.error)
    else
      var field := MapGet(head.data, "resolution");
      if field.Err? then Failed(field.error)
      else
        var resolution := DecodeResolution(field.value);
        if resolution.Err? then Failed(resolution.error)
        else Plan([SetMilestoneStatus(Key(head.escrow, id.value), "resolved"),
                   ResolveDispute(Key(head.escrow, id.value), resolution.value.0, resolution.value.1)],
                  Notify(head.escrow, head.name))
  }

  function OneStatementPlan(head: Head, s: Statement): Plan {
    Plan([s], Notify(head.escrow, head.name))
  }

  function EscrowStatusPlan(head: Head, status: string, ledger: i64): Plan {
    OneStatementPlan(head, SetEscrowStatus(head.escrow, status, ledger))
  }

  function ReleasedPlan(head: Head, via: string): Plan {
    var id := MilestoneField(head.data);
    if id.Err? then Failed(id.error)
    else OneStatementPlan(head, ReleaseMilestone(Key(head.escrow, id.value), via))
  }

  function ExpiredPlan(head: Head): Plan {
    var id := MilestoneField(head.data);
    if id.Err? then Failed(id.error)
    else OneStatementPlan(head, SetMilestoneStatus(Key(head.escrow, id.value), "expired"))
  }

  const EVENT_NAMES: set<string> := {
    "escrow_created", "escrow_funded", "milestone_submitted", "milestone_approved", "milestone_auto_released",
    "milestone_expired", "escrow_cancelled", "escrow_mutually_cancelled", "escrow_completed",
    "dispute_raised", "dispute_resolved"}

  function PlanFor(event: RpcEvent, head: Head): Plan {
    if head.name == "escrow_created" then CreatedPlan(event.contractId, head, event.ledger)
    else if head.name == "escrow_funded" then EscrowStatusPlan(head, "funded", event.ledger)
    else if head.name == "milestone_submitted" then SubmittedPlan(head, event.ledger, event.ledgerClosedAt)
    else if head.name == "milestone_approved" then ReleasedPlan(head, "approved")
    else if head.name == "milestone_auto_released" then ReleasedPlan(head, "auto_release")
    else if head.name == "milestone_expired" then ExpiredPlan(head)
    else if head.name == "escrow_cancelled" then EscrowStatusPlan(head, "cancelled", event.ledger)
    else if head.name == "escrow_mutually_cancelled" then EscrowStatusPlan(head, "cancelled", event.ledger)
    else if head.name == "escrow_completed" then EscrowStatusPlan(head, "completed", event.ledger)
    else if head.name == "dispute_raised" then RaisedPlan(head)
    else if head.name == "dispute_resolved" then ResolvedPlan(head)
    else Plan([], Ignore)
  }

  function PlanOf(event: RpcEvent): Plan {
    var head := DecodeHead(event);
    if head.Err? then Failed(head.error) else PlanFor(event, head.value)
  }

  // ----- what every planned statement looks like -----

  const ESCROW_STATUSES: set<string> := {"created", "funded", "in_progress", "completed", "cancelled"}
  const PLAIN_MILESTONE_STATUSES: set<string> := {"pending", "expired", "disputed", "resolved"}
  const RELEASES: set<string> := {"approved", "auto_release"}
  const KINDS: set<string> := {"release", "refund", "split"}

  /** The literals and optional pairs the indexer passes to each writer. */
  predicate WellFormed(s: Statement) {
    match s
    case UpsertEscrow(_, terms, status, _) =>
      status in ESCROW_STATUSES && (terms.metadataUri.Some? <==> terms.metadataHash.Some?)
    case SetEscrowStatus(_, status, _) => status in ESCROW_STATUSES
    case UpsertMilestone(_, terms, status) => status == "pending" && -TWO_127 <= terms.amount < TWO_127
    case SetMilestoneStatus(_, status) => status in PLAIN_MILESTONE_STATUSES
    case MarkSubmitted(_, uri, hash, _) => uri.Some? <==> hash.Some?
    case ReleaseMilestone(_, via) => via in RELEASES
    case InsertDispute(_, _, _) => true
    case ResolveDispute(_, kind, bps) => kind in KINDS && (bps.Some? <==> kind == "split")
  }

  lemma {:induction false} DecodedAmountsInRange(items: seq<ScVal>)
    ensures DecodeAll(items).Ok? ==> forall m <- DecodeAll(items).value :: -TWO_127 <= m.amount < TWO_127
  {
    if items == [] || DecodeMilestone(items[0]).Err? {
    } else {
      var amount := MapGet(items[0], "amount").value;
      AmountFromParts(amount.hi, amount.lo);
      DecodedAmountsInRange(items[1..]);
    }
  }

  lemma {:induction false} MilestonePlanShape(escrow: EscrowId, ms: seq<Milestone>, finish: Finish)
    requires forall m <- ms :: -TWO_127 <= m.amount < TWO_127
    ensures forall s <- MilestonePlan(escrow, ms, finish).statements ::
              s.UpsertMilestone? && s.key.escrow == escrow && WellFormed(s)
    ensures MilestonePlan(escrow, ms, finish).finish == finish || MilestonePlan(escrow, ms, finish).finish.Abort?
  {
    if ms == [] {
    } else {
      assert ms[0] in ms;
      MilestonePlanShape(escrow, ms[1..], finish);
    }
  }

  /**
   * The statements of an event all name one escrow and are well formed, and only two shapes
   * can meet a foreign key: the milestones after their escrow, and a final dispute insert.
   * A milestone's dispute statuses are written together with its dispute row.
   */
  predicate WellPlanned(plan: Plan) {
    var ss := plan.statements;
    && (forall s <- ss :: WellFormed(s) && s.Escrow() == ss[0].Escrow())
    && (forall i | 0 <= i < |ss| && ss[i].UpsertMilestone? :: i > 0 && ss[0].UpsertEscrow?)
    && (forall i | 0 <= i < |ss| && ss[i].InsertDispute? :: i == |ss| - 1)
    && (forall i | 0 <= i < |ss|
                && (ss[i].ResolveDispute? || (ss[i].SetMilestoneStatus? && ss[i].status == "resolved")) ::
          && |ss| == 2 && ss[0] == SetMilestoneStatus(ss[i].key, "resolved")
          && ss[1].ResolveDispute? && ss[1].key == ss[i].key)
    && (forall i | 0 <= i < |ss| && ss[i].SetMilestoneStatus? && ss[i].status == "disputed" ::
          |ss| == 2 && i == 0 && ss[1].InsertDispute? && ss[1].key == ss[0].key)
    && (plan.finish.Notify? ==> ss != [] && plan.finish.escrow == ss[0].Escrow())
  }

  lemma CreatedIsWellPlanned(contractId: string, head: Head, ledger: i64)
    ensures WellPlanned(CreatedPlan(contractId, head, ledger))
  {
    hide DecodeMilestone, MilestonePlan;
    TermsPairUriAndHash(contractId, head.data);
    var field := MapGet(head.data, "milestones");
    if field.Ok? && DecodeMilestones(field.value).Ok? {
      DecodedAmountsInRange(field.value.items.value);
      MilestonePlanShape(head.escrow, DecodeMilestones(field.value).value, Notify(head.escrow, head.name));
    }
  }

  lemma TermsPairUriAndHash(contractId: string, data: ScVal)
    ensures var terms := DecodeTerms(contractId, data);
            terms.Ok? ==> (terms.value.metadataUri.Some? <==> terms.value.metadataHash.Some?)
  {
  }

  lemma ResolvedIsWellPlanned(head: Head)
    ensures WellPlanned(ResolvedPlan(head))
  {
    hide DecodeResolution, MapGet;
    var field := MapGet(head.data, "resolution");
    if field.Ok? { ResolutionsStoredFaithfully(field.value, RefundToClient, RefundToClient); }
  }

  lemma SubmittedIsWellPlanned(head: Head, ledger: i64, closedAt: int)
    ensures WellPlanned(SubmittedPlan(head, ledger, closedAt))
  {
    hide MilestoneField, TextField, ToHex, MapGet;
  }

  lemma RaisedIsWellPlanned(head: Head)
    ensures WellPlanned(RaisedPlan(head))
  {
    hide MilestoneField, AddressField, TextField;
    assert |"disputed"| == |"resolved"| && "disputed"[0] != "resolved"[0];
  }

  lemma OneStatementIsWellPlanned(head: Head, s: Statement)
    requires WellFormed(s) && s.Escrow() == head.escrow
    requires s.SetEscrowStatus? || s.ReleaseMilestone? || (s.SetMilestoneStatus? && s.status == "expired")
    ensures WellPlanned(OneStatementPlan(head, s))
  {
    hide WellFormed;
    assert |"expired"| == 7 && |"disputed"| == |"resolved"| == 8;
  }

  lemma SmallPlansAreWellPlanned(head: Head, ledger: i64)
    ensures WellPlanned(ReleasedPlan(head, "approved")) && WellPlanned(ReleasedPlan(head, "auto_release"))
    ensures WellPlanned(ExpiredPlan(head))
    ensures forall status <- ESCROW_STATUSES :: WellPlanned(EscrowStatusPlan(head, status, ledger))
  {
    hide MilestoneField, WellPlanned, OneStatementPlan;
    var id := MilestoneField(head.data);
    if id.Ok? {
      OneStatementIsWellPlanned(head, ReleaseMilestone(Key(head.escrow, id.value), "approved"));
      OneStatementIsWellPlanned(head, ReleaseMilestone(Key(head.escrow, id.value), "auto_release"));
      OneStatementIsWellPlanned(head, SetMilestoneStatus(Key(head.escrow, id.value), "expired"));
    }
    forall status <- ESCROW_STATUSES ensures WellPlanned(EscrowStatusPlan(head, status, ledger)) {
      OneStatementIsWellPlanned(head, SetEscrowStatus(head.escrow, status, ledger));
    }
    NothingIsWellPlanned();
  }

  lemma EveryEventIsWellPlanned(event: RpcEvent)
    ensures WellPlanned(PlanOf(event))
  {
    hide DecodeHead, WellPlanned, CreatedPlan, SubmittedPlan, RaisedPlan, ResolvedPlan, ReleasedPlan, ExpiredPlan,
         EscrowStatusPlan;
    var head := DecodeHead(event);
    if head.Ok? {
      CreatedIsWellPlanned(event.contractId, head.value, event.ledger);
      ResolvedIsWellPlanned(head.value);
      SubmittedIsWellPlanned(head.value, event.ledger, event.ledgerClosedAt);
      RaisedIsWellPlanned(head.value);
      SmallPlansAreWellPlanned(head.value, event.ledger);
    }
    NothingIsWellPlanned();
  }

  lemma NothingIsWellPlanned()
    ensures WellPlanned(Plan([], Ignore))
    ensures forall error :: WellPlanned(Plan([], Abort(error)))
  {
  }
}
