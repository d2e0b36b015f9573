/** Every event the contract can emit is decoded to the statements it stands for (src/indexer/mod.rs). */
module ChainEvents {
  import opened Base
  import opened Decode
  import opened Tables
  import opened Events

  /** What the contract says happened, before any encoding. */
  datatype ChainEvent =
    | EscrowCreated(client: ScAddress, provider: ScAddress, arbitrator: ScAddress, token: ScAddress,
                    reviewPeriod: u64, createdAt: u64, title: string, uri: string, hash: seq<byte>,
                    milestones: seq<Milestone>)
    | EscrowFunded
    | EscrowCancelled
    | EscrowMutuallyCancelled
    | EscrowCompleted
    | MilestoneSubmitted(milestone: u32, uri: string, hash: seq<byte>)
    | MilestoneApproved(milestone: u32)
    | MilestoneAutoReleased(milestone: u32)
    | MilestoneExpired(milestone: u32)
    | DisputeRaised(milestone: u32, raisedBy: ScAddress, reason: string)
    | DisputeResolved(milestone: u32, resolution: Resolution)

  function NameOf(e: ChainEvent): string {
    match e
    case EscrowCreated(_, _, _, _, _, _, _, _, _, _) => "escrow_created"
    case EscrowFunded => "escrow_funded"
    case EscrowCancelled => "escrow_cancelled"
    case EscrowMutuallyCancelled => "escrow_mutually_cancelled"
    case EscrowCompleted => "escrow_completed"
    case MilestoneSubmitted(_, _, _) => "milestone_submitted"
    case MilestoneApproved(_) => "milestone_approved"
    case MilestoneAutoReleased(_) => "milestone_auto_released"
    case MilestoneExpired(_) => "milestone_expired"
    case DisputeRaised(_, _, _) => "dispute_raised"
    case DisputeResolved(_, _) => "dispute_resolved"
  }

  // ----- encodings: a map with the right fields, in any order, among any other distinct fields -----

  predicate Has(data: ScVal, field: string, val: ScVal) {
    data.Map? && data.entries.Some? && DistinctFields(data.entries.value)
    && Entry(Symbol(field), val) in data.entries.value
  }

  predicate HasText(data: ScVal, field: string, s: string) {
    Has(data, field, Text(s)) || Has(data, field, Symbol(s))
  }

  predicate HasAddress(data: ScVal, field: string, a: ScAddress) {
    !a.OtherAddress? && Has(data, field, Address(a))
  }

  /** A hash accompanies a URI that is set. */
  predicate HasUri(data: ScVal, uriField: string, hashField: string, uri: string, hash: seq<byte>) {
    HasText(data, uriField, uri) && (uri != "" ==> Has(data, hashField, Bytes(hash)))
  }

  predicate EncodesMilestones(val: ScVal, ms: seq<Milestone>) {
    val.Vec? && val.items.Some? && |val.items.value| == |ms|
    && forall i | 0 <= i < |ms| ::
         && -TWO_127 <= ms[i].amount < TWO_127
         && val.items.value[i].Map? && val.items.value[i].entries.Some?
         && Encodes(val.items.value[i].entries.value, ms[i])
  }

  predicate HasResolution(data: ScVal, r: Resolution) {
    Has(data, "resolution", EncodeResolution(r))
  }

  /** All fields of a creation but the milestones. */
  predicate CarriesTerms(data: ScVal, e: ChainEvent)
    requires e.EscrowCreated?
  {
    && HasAddress(data, "client", e.client) && HasAddress(data, "provider", e.provider)
    && HasAddress(data, "arbitrator", e.arbitrator) && HasAddress(data, "token", e.token)
    && Has(data, "review_period", U64(e.reviewPeriod)) && Has(data, "created_at", U64(e.createdAt))
    && HasText(data, "title", e.title) && HasUri(data, "metadata_uri", "metadata_hash", e.uri, e.hash)
  }

  /** `data` carries the fields of `e`; the milestones of a created escrow are its field `list`. */
  predicate Carries(data: ScVal, e: ChainEvent, list: ScVal) {
    match e
    case EscrowCreated(_, _, _, _, _, _, _, _, _, milestones) =>
      CarriesTerms(data, e) && Has(data, "milestones", list) && EncodesMilestones(list, milestones)
    case MilestoneSubmitted(milestone, uri, hash) =>
      Has(data, "milestone_id", U32(milestone)) && HasUri(data, "evidence_uri", "evidence_hash", uri, hash)
    case DisputeRaised(milestone, raisedBy, reason) =>
      Has(data, "milestone_id", U32(milestone)) && HasAddress(data, "raised_by", raisedBy)
      && HasText(data, "reason", reason)
    case DisputeResolved(milestone, resolution) =>
      Has(data, "milestone_id", U32(milestone)) && HasResolution(data, resolution)
    case MilestoneApproved(milestone) => Has(data, "milestone_id", U32(milestone))
    case MilestoneAutoReleased(milestone) => Has(data, "milestone_id", U32(milestone))
    case MilestoneExpired(milestone) => Has(data, "milestone_id", U32(milestone))
    case _ => true
  }

  /** The RPC event reports `e` on the on-chain escrow `id`; further topics are of no account. */
  predicate Reports(event: RpcEvent, id: u64, e: ChainEvent, list: ScVal) {
    |event.topic| >= 2 && event.topic[1] == Some(U64(id))
    && (event.topic[0] == Some(Symbol(NameOf(e))) || event.topic[0] == Some(Text(NameOf(e))))
    && (forall t <- event.topic :: t.Some?)
    && event.value.Some? && Carries(event.value.value, e, list)
  }

  // ----- what an event stands for -----

  function Terms(contractId: string, e: ChainEvent, createdAt: int): EscrowTerms
    requires e.EscrowCreated? && !e.client.OtherAddress? && !e.provider.OtherAddress?
    requires !e.arbitrator.OtherAddress? && !e.token.OtherAddress?
  {
    EscrowTerms(
      contractId := contractId,
      client := e.client.strkey,
      provider := e.provider.strkey,
      arbitrator := e.arbitrator.strkey,
      token := e.token.strkey,
      reviewPeriod := U64AsI64(e.reviewPeriod),
      chainCreatedAt := Some(createdAt),
      title := EmptyAsNone(e.title),
      metadataUri := EmptyAsNone(e.uri),
      metadataHash := if e.uri == "" then None else Some(Hex(e.hash)))
  }

  /** The first `n` milestones, each inserted as pending. */
  function Inserts(escrow: EscrowId, ms: seq<Milestone>, n: nat): seq<Statement>
    requires n <= |ms| && forall i | 0 <= i < n :: Timely(ms[i].deadline)
  {
    seq(n, i requires 0 <= i < n && Timely(ms[i].deadline) =>
      UpsertMilestone(Key(escrow, U32AsI32(ms[i].id)),
                      MilestoneTerms(ms[i].description, ms[i].amount, Some(ToDateTime(ms[i].deadline).value)),
                      "pending"))
  }

  predicate Timely(secs: u64) { ToDateTime(secs).Ok? }

  /** The statements of every event but the creation of an escrow. */
  function Meaning(e: ChainEvent, escrow: EscrowId, ledger: i64, closedAt: int): seq<Statement>
    requires !e.EscrowCreated? && (e.DisputeRaised? ==> !e.raisedBy.OtherAddress?)
  {
    match e
    case EscrowFunded => [SetEscrowStatus(escrow, "funded", ledger)]
    case EscrowCancelled => [SetEscrowStatus(escrow, "cancelled", ledger)]
    case EscrowMutuallyCancelled => [SetEscrowStatus(escrow, "cancelled", ledger)]
    case EscrowCompleted => [SetEscrowStatus(escrow, "completed", ledger)]
    case MilestoneSubmitted(m, uri, hash) =>
      [SetEscrowStatus(escrow, "in_progress", ledger),
       MarkSubmitted(Key(escrow, U32AsI32(m)), EmptyAsNone(uri), if uri == "" then None else Some(Hex(hash)), closedAt)]
    case MilestoneApproved(m) => [ReleaseMilestone(Key(escrow, U32AsI32(m)), "approved")]
    case MilestoneAutoReleased(m) => [ReleaseMilestone(Key(escrow, U32AsI32(m)), "auto_release")]
    case MilestoneExpired(m) => [SetMilestoneStatus(Key(escrow, U32AsI32(m)), "expired")]
    case DisputeRaised(m, raisedBy, reason) =>
      [SetMilestoneStatus(Key(escrow, U32AsI32(m)), "disputed"),
       InsertDispute(Key(escrow, U32AsI32(m)), raisedBy.strkey, reason)]
    case DisputeResolved(m, r) =>
      [SetMilestoneStatus(Key(escrow, U32AsI32(m)), "resolved"),
       ResolveDispute(Key(escrow, U32AsI32(m)),
         if r.ReleaseToProvider? then "release" else if r.RefundToClient? then "refund" else "split",
         if r.Split? then Some(U32AsI32(r.bps)) else None)]
  }

  // ----- decoding inverts encoding -----

  lemma FieldIs(data: ScVal, field: string, val: ScVal)
    requires Has(data, field, val)
    ensures MapGet(data, field) == Ok(val)
  {
    FindEntry(data.entries.value, field, val);
  }

  lemma TextIs(data: ScVal, field: string, s: string)
    requires HasText(data, field, s)
    ensures TextField(data, field) == Ok(s)
  {
    hide Has;
    if Has(data, field, Text(s)) { FieldIs(data, field, Text(s)); } else { FieldIs(data, field, Symbol(s)); }
  }

  lemma AddressIs(data: ScVal, field: string, a: ScAddress)
    requires HasAddress(data, field, a)
    ensures AddressField(data, field) == Ok(a.strkey)
  {
    hide Has;
    FieldIs(data, field, Address(a));
  }

  lemma MilestoneIdIs(data: ScVal, m: u32)
    requires Has(data, "milestone_id", U32(m))
    ensures MilestoneField(data) == Ok(U32AsI32(m))
  {
    hide Has;
    FieldIs(data, "milestone_id", U32(m));
  }

  lemma UriIs(data: ScVal, uriField: string, hashField: string, uri: string, hash: seq<byte>)
    requires HasUri(data, uriField, hashField, uri, hash)
    ensures UriAndHash(data, uriField, hashField)
         == Ok((EmptyAsNone(uri), if uri == "" then None else Some(Hex(hash))))
  {
    hide Has, HasText;
    TextIs(data, uriField, uri);
    if uri != "" { FieldIs(data, hashField, Bytes(hash)); }
  }

  lemma TermsAre(contractId: string, data: ScVal, e: ChainEvent)
    requires e.EscrowCreated? && CarriesTerms(data, e)
    ensures DecodeTerms(contractId, data)
         == if Timely(e.createdAt) then Ok(Terms(contractId, e, ToDateTime(e.createdAt).value))
            else Err(TimestampOutOfRange(e.createdAt))
  {
    hide Has, HasUri, HasText, UriAndHash, TextField, AddressField;
    AddressIs(data, "client", e.client);
    AddressIs(data, "provider", e.provider);
    AddressIs(data, "arbitrator", e.arbitrator);
    AddressIs(data, "token", e.token);
    FieldIs(data, "review_period", U64(e.reviewPeriod));
    FieldIs(data, "created_at", U64(e.createdAt));
    TextIs(data, "title", e.title);
    UriIs(data, "metadata_uri", "metadata_hash", e.uri, e.hash);
  }

  lemma MilestonesAre(val: ScVal, ms: seq<Milestone>)
    requires EncodesMilestones(val, ms)
    ensures DecodeMilestones(val) == Ok(ms)
  {
    hide Encodes, DecodeMilestone;
    var items := val.items.value;
    forall i | 0 <= i < |items| ensures DecodeMilestone(items[i]) == Ok(ms[i]) {
      MilestoneRoundTrip(items[i].entries.value, ms[i]);
    }
    DecodesItemwise(items, ms);
  }

  /** The milestone inserts, up to the first deadline out of range. */
  lemma {:induction false} InsertsAre(escrow: EscrowId, ms: seq<Milestone>, finish: Finish, n: nat)
    requires n <= |ms| && (forall i | 0 <= i < n :: Timely(ms[i].deadline)) && (n < |ms| ==> !Timely(ms[n].deadline))
    ensures MilestonePlan(escrow, ms, finish)
         == Plan(Inserts(escrow, ms, n), if n < |ms| then Abort(TimestampOutOfRange(ms[n].deadline)) else finish)
    decreases |ms|
  {
    if ms != [] && n > 0 {
      InsertsAre(escrow, ms[1..], finish, n - 1);
      assert Timely(ms[0].deadline);
      assert Inserts(escrow, ms, n) == [MilestoneRowOf(escrow, ms[0]).value] + Inserts(escrow, ms[1..], n - 1);
    }
  }

  lemma HeadIs(event: RpcEvent, id: u64, e: ChainEvent, list: ScVal)
    requires Reports(event, id, e, list)
    ensures DecodeHead(event) == Ok(Head(NameOf(e), U64AsI64(id), event.value.value))
  {
    hide Carries, NameOf;
  }

  /** Each name reaches its own arm. */
  lemma ArmOf(event: RpcEvent, head: Head, e: ChainEvent)
    requires head.name == NameOf(e)
    ensures PlanFor(event, head) ==
      match e
      case EscrowCreated(_, _, _, _, _, _, _, _, _, _) => CreatedPlan(event.contractId, head, event.ledger)
      case EscrowFunded => EscrowStatusPlan(head, "funded", event.ledger)
      case EscrowCancelled => EscrowStatusPlan(head, "cancelled", event.ledger)
      case EscrowMutuallyCancelled => EscrowStatusPlan(head, "cancelled", event.ledger)
      case EscrowCompleted => EscrowStatusPlan(head, "completed", event.ledger)
      case MilestoneSubmitted(_, _, _) => SubmittedPlan(head, event.ledger, event.ledgerClosedAt)
      case MilestoneApproved(_) => ReleasedPlan(head, "approved")
      case MilestoneAutoReleased(_) => ReleasedPlan(head, "auto_release")
      case MilestoneExpired(_) => ExpiredPlan(head)
      case DisputeRaised(_, _, _) => RaisedPlan(head)
      case DisputeResolved(_, _) => ResolvedPlan(head)
  {
    hide CreatedPlan, SubmittedPlan, RaisedPlan, ResolvedPlan, ReleasedPlan, ExpiredPlan, EscrowStatusPlan;
    assert |"escrow_created"| == |"dispute_raised"| == 14 && |"escrow_funded"| == 13 && |"milestone_submitted"| == 19;
    assert |"milestone_approved"| == 18 && |"milestone_auto_released"| == 23 && |"milestone_expired"| == 17;
    assert |"escrow_cancelled"| == |"escrow_completed"| == |"dispute_resolved"| == 16
           && |"escrow_mutually_cancelled"| == 25;
    assert "escrow_cancelled"[8] == 'a' && "escrow_completed"[8] == 'o' && "dispute_resolved"[0] == 'd';
  }

  /** A created escrow: its terms field by field, then its milestones in order while deadlines are in range. */
  lemma CreationIsDecoded(event: RpcEvent, id: u64, e: ChainEvent, list: ScVal, n: nat)
    requires e.EscrowCreated? && Reports(event, id, e, list)
    requires n <= |e.milestones| && (forall i | 0 <= i < n :: Timely(e.milestones[i].deadline))
    requires n < |e.milestones| ==> !Timely(e.milestones[n].deadline)
    ensures !Timely(e.createdAt) ==> PlanOf(event) == Plan([], Abort(TimestampOutOfRange(e.createdAt)))
    ensures Timely(e.createdAt) ==>
      PlanOf(event) == Plan(
        [UpsertEscrow(U64AsI64(id), Terms(event.contractId, e, ToDateTime(e.createdAt).value), "created", event.ledger)]
          + Inserts(U64AsI64(id), e.milestones, n),
        if n < |e.milestones| then Abort(TimestampOutOfRange(e.milestones[n].deadline))
        else Notify(U64AsI64(id), NameOf(e)))
  {
    hide Has, HasUri, HasText, HasAddress, EncodesMilestones, Timely, Terms, Inserts, PlanFor, DecodeHead,
         DecodeTerms, DecodeMilestones, NameOf;
    HeadIs(event, id, e, list);
    var head := DecodeHead(event).value;
    ArmOf(event, head, e);
    TermsAre(event.contractId, head.data, e);
    FieldIs(head.data, "milestones", list);
    MilestonesAre(list, e.milestones);
    InsertsAre(head.escrow, e.milestones, Notify(head.escrow, head.name), n);
  }

  lemma SubmissionIs(head: Head, ledger: i64, closedAt: int, e: ChainEvent, list: ScVal)
    requires e.MilestoneSubmitted? && Carries(head.data, e, list)
    ensures SubmittedPlan(head, ledger, closedAt)
            == Plan(Meaning(e, head.escrow, ledger, closedAt), Notify(head.escrow, head.name))
  {
    hide Has, HasUri, MilestoneField, UriAndHash, Hex;
    MilestoneIdIs(head.data, e.milestone);
    UriIs(head.data, "evidence_uri", "evidence_hash", e.uri, e.hash);
  }

  lemma RaiseIs(head: Head, e: ChainEvent, list: ScVal)
    requires e.DisputeRaised? && Carries(head.data, e, list)
    ensures RaisedPlan(head) == Plan(Meaning(e, head.escrow, 0, 0), Notify(head.escrow, head.name))
  {
    hide Has, HasText, MilestoneField, TextField, AddressField;
    MilestoneIdIs(head.data, e.milestone);
    AddressIs(head.data, "raised_by", e.raisedBy);
    TextIs(head.data, "reason", e.reason);
  }

  lemma ResolutionIs(head: Head, e: ChainEvent, list: ScVal)
    requires e.DisputeResolved? && Carries(head.data, e, list)
    ensures ResolvedPlan(head) == Plan(Meaning(e, head.escrow, 0, 0), Notify(head.escrow, head.name))
  {
    hide Has, MilestoneField;
    MilestoneIdIs(head.data, e.milestone);
    FieldIs(head.data, "resolution", EncodeResolution(e.resolution));
    assert "ReleaseToProvider"[2] == 'l' && "RefundToClient"[2] == 'f' && |"Split"| == 5;
  }

  lemma ReleasesAre(head: Head, m: u32)
    requires Has(head.data, "milestone_id", U32(m))
    ensures forall via ::
              ReleasedPlan(head, via)
              == Plan([ReleaseMilestone(Key(head.escrow, U32AsI32(m)), via)], Notify(head.escrow, head.name))
    ensures ExpiredPlan(head) == Plan([SetMilestoneStatus(Key(head.escrow, U32AsI32(m)), "expired")],
                                      Notify(head.escrow, head.name))
  {
    hide Has, MilestoneField;
    MilestoneIdIs(head.data, m);
  }

  /** Every other event: exactly the statements it stands for, and a notification under its name. */
  lemma EventsAreDecoded(event: RpcEvent, id: u64, e: ChainEvent, list: ScVal)
    requires !e.EscrowCreated? && Reports(event, id, e, list)
    ensures PlanOf(event)
         == Plan(Meaning(e, U64AsI64(id), event.ledger, event.ledgerClosedAt), Notify(U64AsI64(id), NameOf(e)))
  {
    hide Has, HasUri, HasText, PlanFor, DecodeHead, NameOf, SubmittedPlan, RaisedPlan, ResolvedPlan, ReleasedPlan,
         ExpiredPlan, Hex;
    HeadIs(event, id, e, list);
    var head := DecodeHead(event).value;
    ArmOf(event, head, e);
    match e
    case MilestoneSubmitted(_, _, _) => SubmissionIs(head, event.ledger, event.ledgerClosedAt, e, list);
    case DisputeRaised(_, _, _) => RaiseIs(head, e, list);
    case DisputeResolved(_, _) => ResolutionIs(head, e, list);
    case MilestoneApproved(m) => ReleasesAre(head, m);
    case MilestoneAutoReleased(m) => ReleasesAre(head, m);
    case MilestoneExpired(m) => ReleasesAre(head, m);
    case _ =>
  }

  // ----- the same, event by event, from the topics and fields themselves -----

  /** The events about an escrow's status. */
  lemma EscrowEventsRun(event: RpcEvent, id: u64)
    requires |event.topic| >= 2 && (forall t <- event.topic :: t.Some?) && event.value.Some?
    requires event.topic[1] == Some(U64(id))
    ensures event.topic[0] == Some(Symbol("escrow_funded")) ==>
      PlanOf(event)
      == Plan([SetEscrowStatus(U64AsI64(id), "funded", event.ledger)], Notify(U64AsI64(id), "escrow_funded"))
    ensures event.topic[0] == Some(Symbol("escrow_cancelled")) ==>
      PlanOf(event)
      == Plan([SetEscrowStatus(U64AsI64(id), "cancelled", event.ledger)], Notify(U64AsI64(id), "escrow_cancelled"))
    ensures event.topic[0] == Some(Symbol("escrow_mutually_cancelled")) ==>
      PlanOf(event)
      == Plan([SetEscrowStatus(U64AsI64(id), "cancelled", event.ledger)],
              Notify(U64AsI64(id), "escrow_mutually_cancelled"))
    ensures event.topic[0] == Some(Symbol("escrow_completed")) ==>
      PlanOf(event)
      == Plan([SetEscrowStatus(U64AsI64(id), "completed", event.ledger)], Notify(U64AsI64(id), "escrow_completed"))
  {
    hide PlanOf;
    if event.topic[0] == Some(Symbol("escrow_funded")) {
      EventsAreDecoded(event, id, EscrowFunded, event.value.value);
    } else if event.topic[0] == Some(Symbol("escrow_cancelled")) {
      EventsAreDecoded(event, id, EscrowCancelled, event.value.value);
    } else if event.topic[0] == Some(Symbol("escrow_mutually_cancelled")) {
      EventsAreDecoded(event, id, EscrowMutuallyCancelled, event.value.value);
    } else if event.topic[0] == Some(Symbol("escrow_completed")) {
      EventsAreDecoded(event, id, EscrowCompleted, event.value.value);
    }
  }

  /** The events that say no more than which milestone. */
  lemma MilestoneEventsRun(event: RpcEvent, id: u64, entries: seq<Entry>, m: u32)
    requires |event.topic| >= 2 && (forall t <- event.topic :: t.Some?) && event.value == Some(Map(Some(entries)))
    requires event.topic[1] == Some(U64(id))
    requires forall i, j | 0 <= i < j < |entries| :: entries[i].key != entries[j].key
    requires Entry(Symbol("milestone_id"), U32(m)) in entries
    ensures event.topic[0] == Some(Symbol("milestone_approved")) ==>
      PlanOf(event)
      == Plan([ReleaseMilestone(Key(U64AsI64(id), U32AsI32(m)), "approved")],
              Notify(U64AsI64(id), "milestone_approved"))
    ensures event.topic[0] == Some(Symbol("milestone_auto_released")) ==>
      PlanOf(event)
      == Plan([ReleaseMilestone(Key(U64AsI64(id), U32AsI32(m)), "auto_release")],
              Notify(U64AsI64(id), "milestone_auto_released"))
    ensures event.topic[0] == Some(Symbol("milestone_expired")) ==>
      PlanOf(event)
      == Plan([SetMilestoneStatus(Key(U64AsI64(id), U32AsI32(m)), "expired")],
              Notify(U64AsI64(id), "milestone_expired"))
  {
    hide PlanOf;
    if event.topic[0] == Some(Symbol("milestone_approved")) {
      EventsAreDecoded(event, id, MilestoneApproved(m), event.value.value);
    } else if event.topic[0] == Some(Symbol("milestone_auto_released")) {
      EventsAreDecoded(event, id, MilestoneAutoReleased(m), event.value.value);
    } else if event.topic[0] == Some(Symbol("milestone_expired")) {
      EventsAreDecoded(event, id, MilestoneExpired(m), event.value.value);
    }
  }

  /** A submission moves its escrow on too, and carries its evidence only under a URI that is set. */
  lemma SubmissionsRun(event: RpcEvent, id: u64, entries: seq<Entry>, m: u32, uri: string, hash: seq<byte>)
    requires |event.topic| >= 2 && (forall t <- event.topic :: t.Some?) && event.value == Some(Map(Some(entries)))
    requires event.topic[0] == Some(Symbol("milestone_submitted")) && event.topic[1] == Some(U64(id))
    requires forall i, j | 0 <= i < j < |entries| :: entries[i].key != entries[j].key
    requires Entry(Symbol("milestone_id"), U32(m)) in entries
    requires Entry(Symbol("evidence_uri"), Text(uri)) in entries
    requires uri != "" ==> Entry(Symbol("evidence_hash"), Bytes(hash)) in entries
    ensures PlanOf(event) == Plan(
      [SetEscrowStatus(U64AsI64(id), "in_progress", event.ledger),
       MarkSubmitted(key := Key(U64AsI64(id), U32AsI32(m)),
                     uri := if uri == "" then None else Some(uri),
                     hash := if uri == "" then None else Some(Hex(hash)),
                     at := event.ledgerClosedAt)],
      Notify(U64AsI64(id), "milestone_submitted"))
  {
    hide PlanOf;
    EventsAreDecoded(event, id, ChainEvent.MilestoneSubmitted(m, uri, hash), event.value.value);
  }

  /** A dispute is raised by an account or a contract. */
  lemma RaisesRun(event: RpcEvent, id: u64, entries: seq<Entry>, m: u32, who: ScAddress, reason: string)
    requires |event.topic| >= 2 && (forall t <- event.topic :: t.Some?) && event.value == Some(Map(Some(entries)))
    requires event.topic[0] == Some(Symbol("dispute_raised")) && event.topic[1] == Some(U64(id))
    requires forall i, j | 0 <= i < j < |entries| :: entries[i].key != entries[j].key
    requires Entry(Symbol("milestone_id"), U32(m)) in entries
    requires (who.Account? || who.Contract?) && Entry(Symbol("raised_by"), Address(who)) in entries
    requires Entry(Symbol("reason"), Text(reason)) in entries
    ensures PlanOf(event) == Plan(
      [SetMilestoneStatus(Key(U64AsI64(id), U32AsI32(m)), "disputed"),
       InsertDispute(key := Key(U64AsI64(id), U32AsI32(m)), raisedBy := who.strkey, reason := reason)],
      Notify(U64AsI64(id), "dispute_raised"))
  {
    hide PlanOf;
    EventsAreDecoded(event, id, ChainEvent.DisputeRaised(m, who, reason), event.value.value);
  }

  lemma ResolvesRun(event: RpcEvent, id: u64, entries: seq<Entry>, m: u32, resolution: ScVal, bps: u32)
    requires |event.topic| >= 2 && (forall t <- event.topic :: t.Some?) && event.value == Some(Map(Some(entries)))
    requires event.topic[0] == Some(Symbol("dispute_resolved")) && event.topic[1] == Some(U64(id))
    requires forall i, j | 0 <= i < j < |entries| :: entries[i].key != entries[j].key
    requires Entry(Symbol("milestone_id"), U32(m)) in entries && Entry(Symbol("resolution"), resolution) in entries
    ensures resolution == Vec(Some([Symbol("ReleaseToProvider")])) ==>
      PlanOf(event) == Plan(
        [SetMilestoneStatus(Key(U64AsI64(id), U32AsI32(m)), "resolved"),
         ResolveDispute(Key(U64AsI64(id), U32AsI32(m)), "release", None)],
        Notify(U64AsI64(id), "dispute_resolved"))
    ensures resolution == Vec(Some([Symbol("RefundToClient")])) ==>
      PlanOf(event) == Plan(
        [SetMilestoneStatus(Key(U64AsI64(id), U32AsI32(m)), "resolved"),
         ResolveDispute(Key(U64AsI64(id), U32AsI32(m)), "refund", None)],
        Notify(U64AsI64(id), "dispute_resolved"))
    ensures resolution == Vec(Some([Symbol("Split"), U32(bps)])) ==>
      PlanOf(event) == Plan(
        [SetMilestoneStatus(Key(U64AsI64(id), U32AsI32(m)), "resolved"),
         ResolveDispute(Key(U64AsI64(id), U32AsI32(m)), "split", Some(U32AsI32(bps)))],
        Notify(U64AsI64(id), "dispute_resolved"))
  {
    hide PlanOf;
    if resolution == Vec(Some([Symbol("ReleaseToProvider")])) {
      EventsAreDecoded(event, id, ChainEvent.DisputeResolved(m, ReleaseToProvider), event.value.value);
    } else if resolution == Vec(Some([Symbol("RefundToClient")])) {
      EventsAreDecoded(event, id, ChainEvent.DisputeResolved(m, RefundToClient), event.value.value);
    } else if resolution == Vec(Some([Symbol("Split"), U32(bps)])) {
      EventsAreDecoded(event, id, ChainEvent.DisputeResolved(m, Split(bps)), event.value.value);
    }
  }

  /** How far a creation gets: each of its failures leaves what the code wrote before it. */
  lemma CreationIs(event: RpcEvent, id: u64, e: ChainEvent)
    requires |event.topic| >= 2 && (forall t <- event.topic :: t.Some?) && event.value.Some?
    requires event.topic[0] == Some(Symbol("escrow_created")) && event.topic[1] == Some(U64(id))
    requires e.EscrowCreated? && CarriesTerms(event.value.value, e)
    ensures !Timely(e.createdAt) ==> PlanOf(event) == Plan([], Abort(TimestampOutOfRange(e.createdAt)))
    ensures Timely(e.createdAt) ==>
      var upsert := UpsertEscrow(U64AsI64(id), Terms(event.contractId, e, ToDateTime(e.createdAt).value), "created",
                                 event.ledger);
      var field := MapGet(event.value.value, "milestones");
      PlanOf(event) ==
        if field.Err? then Plan([upsert], Abort(field.error))
        else if DecodeMilestones(field.value).Err? then Plan([upsert], Abort(DecodeMilestones(field.value).error))
        else
          var rest := MilestonePlan(U64AsI64(id), DecodeMilestones(field.value).value,
                                    Notify(U64AsI64(id), "escrow_created"));
          Plan([upsert] + rest.statements, rest.finish)
  {
    hide CarriesTerms, Timely, Terms, PlanFor, MapGet, DecodeHead, DecodeTerms, DecodeMilestones, MilestonePlan;
    var head := Head("escrow_created", U64AsI64(id), event.value.value);
    NamedHeadIs(event, id, "escrow_created");
    ArmOf(event, head, e);
    TermsAre(event.contractId, head.data, e);
  }

  lemma NamedHeadIs(event: RpcEvent, id: u64, name: string)
    requires |event.topic| >= 2 && (forall t <- event.topic :: t.Some?) && event.value.Some?
    requires event.topic[0] == Some(Symbol(name)) || event.topic[0] == Some(Text(name))
    requires event.topic[1] == Some(U64(id))
    ensures DecodeHead(event) == Ok(Head(name, U64AsI64(id), event.value.value))
  {
  }

  /**
   * A creation writes its escrow row, column by column, before it looks at its milestones: without the
   * field, or with a list any item of which does not decode, the row alone is written and the event is
   * given up.
   */
  lemma CreationsRun(event: RpcEvent, id: u64, entries: seq<Entry>, client: ScAddress, provider: ScAddress,
                     arbitrator: ScAddress, token: ScAddress, period: u64, created: u64, title: string, uri: string,
                     hash: seq<byte>)
    requires |event.topic| >= 2 && (forall t <- event.topic :: t.Some?) && event.value == Some(Map(Some(entries)))
    requires event.topic[0] == Some(Symbol("escrow_created")) && event.topic[1] == Some(U64(id))
    requires forall i, j | 0 <= i < j < |entries| :: entries[i].key != entries[j].key
    requires (client.Account? || client.Contract?) && Entry(Symbol("client"), Address(client)) in entries
    requires (provider.Account? || provider.Contract?) && Entry(Symbol("provider"), Address(provider)) in entries
    requires (arbitrator.Account? || arbitrator.Contract?)
             && Entry(Symbol("arbitrator"), Address(arbitrator)) in entries
    requires (token.Account? || token.Contract?) && Entry(Symbol("token"), Address(token)) in entries
    requires Entry(Symbol("review_period"), U64(period)) in entries
    requires Entry(Symbol("created_at"), U64(created)) in entries
    requires Entry(Symbol("title"), Text(title)) in entries
    requires Entry(Symbol("metadata_uri"), Text(uri)) in entries
    requires uri != "" ==> Entry(Symbol("metadata_hash"), Bytes(hash)) in entries
    ensures ToDateTime(created).Err? ==> PlanOf(event) == Plan([], Abort(TimestampOutOfRange(created)))
    ensures ToDateTime(created).Ok? ==>
      var plan := PlanOf(event);
      && |plan.statements| >= 1
      && plan.statements[0] == UpsertEscrow(
           id := U64AsI64(id),
           escrowTerms := EscrowTerms(
             contractId := event.contractId,
             client := client.strkey,
             provider := provider.strkey,
             arbitrator := arbitrator.strkey,
             token := token.strkey,
             reviewPeriod := U64AsI64(period),
             chainCreatedAt := Some(ToDateTime(created).value),
             title := if title == "" then None else Some(title),
             metadataUri := if uri == "" then None else Some(uri),
             metadataHash := if uri == "" then None else Some(Hex(hash))),
           status := "created",
           ledger := event.ledger)
      && ((forall val :: Entry(Symbol("milestones"), val) !in entries) ==>
            plan == Plan([plan.statements[0]], Abort(MissingField("milestones"))))
      && (forall val | Entry(Symbol("milestones"), val) in entries ::
            && (!(val.Vec? && val.items.Some?) ==> plan == Plan([plan.statements[0]], Abort(WrongKind("Vec"))))
            && (val.Vec? && val.items.Some?
                && (exists i | 0 <= i < |val.items.value| :: DecodeMilestone(val.items.value[i]).Err?) ==>
                  |plan.statements| == 1 && plan.finish.Abort?))
  {
    hide Hex, PlanOf, MilestonePlan, Find, DecodeAll;
    var e := EscrowCreated(client, provider, arbitrator, token, period, created, title, uri, hash, []);
    CreationIs(event, id, e);
    if forall val :: Entry(Symbol("milestones"), val) !in entries {
      forall i | 0 <= i < |entries| ensures !Names(entries[i], "milestones") {
        assert Entry(Symbol("milestones"), entries[i].val) !in entries;
      }
      FindMissing(entries, "milestones");
    }
    forall val | Entry(Symbol("milestones"), val) in entries
      ensures Find(entries, "milestones") == Ok(val)
      ensures val.Vec? && val.items.Some? ==>
                (DecodeAll(val.items.value).Err? <==>
                 exists i | 0 <= i < |val.items.value| :: DecodeMilestone(val.items.value[i]).Err?)
    {
      FindEntry(entries, "milestones", val);
      if val.Vec? && val.items.Some? { OneBadItemFails(val.items.value); }
    }
  }

  /** Then its milestones, in order, each pending under its own id, until a deadline that is no date. */
  lemma CreationsInsert(event: RpcEvent, id: u64, entries: seq<Entry>, items: seq<ScVal>, ms: seq<Milestone>, n: nat)
    requires |event.topic| >= 2 && (forall t <- event.topic :: t.Some?) && event.value == Some(Map(Some(entries)))
    requires event.topic[0] == Some(Symbol("escrow_created")) && event.topic[1] == Some(U64(id))
    requires forall i, j | 0 <= i < j < |entries| :: entries[i].key != entries[j].key
    requires Entry(Symbol("milestones"), Vec(Some(items))) in entries
    requires |ms| == |items| && forall i | 0 <= i < |items| :: DecodeMilestone(items[i]) == Ok(ms[i])
    requires n <= |ms| && (forall i | 0 <= i < n :: ToDateTime(ms[i].deadline).Ok?)
    requires n < |ms| ==> ToDateTime(ms[n].deadline).Err?
    requires PlanOf(event).statements != []
    ensures var plan := PlanOf(event);
      && |plan.statements| == 1 + n
      && (forall i | 0 <= i < n :: plan.statements[1 + i] == UpsertMilestone(
            key := Key(U64AsI64(id), U32AsI32(ms[i].id)),
            milestoneTerms := MilestoneTerms(description := ms[i].description, amount := ms[i].amount,
                                             deadline := Some(ToDateTime(ms[i].deadline).value)),
            status := "pending"))
      && (if n < |ms| then plan.finish == Abort(TimestampOutOfRange(ms[n].deadline))
          else plan.finish == Notify(U64AsI64(id), "escrow_created"))
  {
    hide PlanOf, DecodeMilestone, ToDateTime, Inserts, U64AsI64, U32AsI32;
    var upsert := PlanAfterUpsert(event, id, entries, items, ms, n);
    InsertsOneByOne(PlanOf(event).statements, upsert, U64AsI64(id), ms, n);
  }

  lemma InsertAt(escrow: EscrowId, ms: seq<Milestone>, n: nat, i: nat)
    requires i < n <= |ms| && forall k | 0 <= k < n :: Timely(ms[k].deadline)
    ensures Inserts(escrow, ms, n)[i]
         == UpsertMilestone(Key(escrow, U32AsI32(ms[i].id)),
                            MilestoneTerms(ms[i].description, ms[i].amount, Some(ToDateTime(ms[i].deadline).value)),
                            "pending")
  {
    hide ToDateTime, U32AsI32;
  }

  lemma InsertsOneByOne(ss: seq<Statement>, upsert: Statement, escrow: EscrowId, ms: seq<Milestone>, n: nat)
    requires n <= |ms| && forall i | 0 <= i < n :: Timely(ms[i].deadline)
    requires ss == [upsert] + Inserts(escrow, ms, n)
    ensures |ss| == 1 + n
    ensures forall i | 0 <= i < n ::
              ss[1 + i] == UpsertMilestone(Key(escrow, U32AsI32(ms[i].id)),
                                           MilestoneTerms(ms[i].description, ms[i].amount,
                                                          Some(ToDateTime(ms[i].deadline).value)),
                                           "pending")
  {
    InsertsCount(escrow, ms, n);
    hide ToDateTime, U32AsI32, Inserts, Timely;
    forall i | 0 <= i < n
      ensures ss[1 + i] == UpsertMilestone(Key(escrow, U32AsI32(ms[i].id)),
                                           MilestoneTerms(ms[i].description, ms[i].amount,
                                                          Some(ToDateTime(ms[i].deadline).value)),
                                           "pending")
    {
      InsertAt(escrow, ms, n, i);
    }
  }

  lemma InsertsCount(escrow: EscrowId, ms: seq<Milestone>, n: nat)
    requires n <= |ms| && forall i | 0 <= i < n :: Timely(ms[i].deadline)
    ensures |Inserts(escrow, ms, n)| == n
  {
    hide ToDateTime, U32AsI32;
  }

  lemma PlanAfterUpsert(event: RpcEvent, id: u64, entries: seq<Entry>, items: seq<ScVal>, ms: seq<Milestone>, n: nat)
    returns (upsert: Statement)
    requires |event.topic| >= 2 && (forall t <- event.topic :: t.Some?) && event.value == Some(Map(Some(entries)))
    requires event.topic[0] == Some(Symbol("escrow_created")) && event.topic[1] == Some(U64(id))
    requires DistinctFields(entries) && Entry(Symbol("milestones"), Vec(Some(items))) in entries
    requires |ms| == |items| && forall i | 0 <= i < |items| :: DecodeMilestone(items[i]) == Ok(ms[i])
    requires n <= |ms| && (forall i | 0 <= i < n :: Timely(ms[i].deadline))
    requires n < |ms| ==> !Timely(ms[n].deadline)
    requires PlanOf(event).statements != []
    ensures PlanOf(event) == Plan(
      [upsert] + Inserts(U64AsI64(id), ms, n),
      if n < |ms| then Abort(TimestampOutOfRange(ms[n].deadline)) else Notify(U64AsI64(id), "escrow_created"))
  {
    hide PlanFor, DecodeTerms, MilestonePlan, MapGet, DecodeMilestone, DecodeAll, Timely, Inserts, DecodeHead;
    var head := Head("escrow_created", U64AsI64(id), event.value.value);
    NamedHeadIs(event, id, "escrow_created");
    CreatedArm(event, head);
    FieldIs(head.data, "milestones", Vec(Some(items)));
    DecodesItemwise(items, ms);
    InsertsAre(head.escrow, ms, Notify(head.escrow, head.name), n);
    upsert := PlanOf(event).statements[0];
  }

  lemma CreatedArm(event: RpcEvent, head: Head)
    requires head.name == "escrow_created"
    ensures PlanFor(event, head) == CreatedPlan(event.contractId, head, event.ledger)
  {
  }

  // ----- and what does not decode writes nothing -----

  /** Events without two legible topics and a legible value are given up; unknown names are passed over. */
  lemma MalformedEventsWriteNothing(event: RpcEvent)
    ensures ((exists t <- event.topic :: t.None?) || event.value.None? || |event.topic| < 2
             || !(event.topic[0].value.Symbol? || event.topic[0].value.Text?) || !event.topic[1].value.U64?) ==>
              PlanOf(event).statements == [] && PlanOf(event).finish.Abort?
    ensures forall name, id: u64 |
              && |event.topic| >= 2 && (forall t <- event.topic :: t.Some?) && event.value.Some?
              && (event.topic[0].value == Symbol(name) || event.topic[0].value == Text(name))
              && event.topic[1].value == U64(id)
              && name !in {"escrow_created", "escrow_funded", "milestone_submitted", "milestone_approved",
                           "milestone_auto_released", "milestone_expired", "escrow_cancelled",
                           "escrow_mutually_cancelled", "escrow_completed", "dispute_raised", "dispute_resolved"} ::
              PlanOf(event) == Plan([], Ignore)
  {
    hide PlanFor;
    forall name, id: u64 |
      && |event.topic| >= 2 && (forall t <- event.topic :: t.Some?) && event.value.Some?
      && (event.topic[0].value == Symbol(name) || event.topic[0].value == Text(name))
      && event.topic[1].value == U64(id) && name !in EVENT_NAMES
      ensures PlanOf(event) == Plan([], Ignore)
    {
      NamedHeadIs(event, id, name);
      UnknownArm(event, Head(name, U64AsI64(id), event.value.value));
    }
  }

  lemma UnknownArm(event: RpcEvent, head: Head)
    requires head.name !in EVENT_NAMES
    ensures PlanFor(event, head) == Plan([], Ignore)
  {
  }

  lemma FieldRead(data: ScVal, field: string)
    requires MapGet(data, field).Ok?
    ensures data.Map? && data.entries.Some? && Entry(Symbol(field), MapGet(data, field).value) in data.entries.value
  {
    hide Find;
    FoundIsThere(data.entries.value, field);
  }

  /** What a field must hold to be read as what it is read as. */
  lemma FieldsRead(data: ScVal, field: string)
    ensures AddressField(data, field).Ok? ==>
              && data.Map? && data.entries.Some?
              && (exists a: ScAddress :: !a.OtherAddress? && Entry(Symbol(field), Address(a)) in data.entries.value)
    ensures TextField(data, field).Ok? ==>
              && data.Map? && data.entries.Some?
              && (exists s: string :: Entry(Symbol(field), Text(s)) in data.entries.value
                                      || Entry(Symbol(field), Symbol(s)) in data.entries.value)
    ensures U64Field(data, field).Ok? ==>
              data.Map? && data.entries.Some? && exists v: u64 :: Entry(Symbol(field), U64(v)) in data.entries.value
    ensures MilestoneField(data).Ok? ==>
              data.Map? && data.entries.Some?
              && exists m: u32 :: Entry(Symbol("milestone_id"), U32(m)) in data.entries.value
  {
    hide MapGet;
    if MapGet(data, field).Ok? { FieldRead(data, field); }
    if MapGet(data, "milestone_id").Ok? { FieldRead(data, "milestone_id"); }
  }

  lemma TermsRead(contractId: string, data: ScVal)
    requires DecodeTerms(contractId, data).Ok?
    ensures data.Map? && data.entries.Some?
    ensures forall field <- ["client", "provider", "arbitrator", "token"] ::
              exists a: ScAddress :: !a.OtherAddress? && Entry(Symbol(field), Address(a)) in data.entries.value
    ensures forall field <- ["review_period", "created_at"] ::
              exists v: u64 :: Entry(Symbol(field), U64(v)) in data.entries.value
    ensures forall field <- ["title", "metadata_uri"] ::
              exists s: string :: Entry(Symbol(field), Text(s)) in data.entries.value
                                  || Entry(Symbol(field), Symbol(s)) in data.entries.value
  {
    hide MapGet, AddressField, TextField, U64Field, MilestoneField, ToDateTime, Hex;
    FieldsRead(data, "client");
    FieldsRead(data, "provider");
    FieldsRead(data, "arbitrator");
    FieldsRead(data, "token");
    FieldsRead(data, "review_period");
    FieldsRead(data, "created_at");
    FieldsRead(data, "title");
    FieldsRead(data, "metadata_uri");
  }

  /** A creation that writes anything holds all the columns of its row. */
  lemma CreationsThatWriteHoldTheirFields(event: RpcEvent, id: u64)
    requires |event.topic| >= 2 && (forall t <- event.topic :: t.Some?) && event.value.Some?
    requires event.topic[0] == Some(Symbol("escrow_created")) && event.topic[1] == Some(U64(id))
    requires PlanOf(event).statements != []
    ensures event.value.value.Map? && event.value.value.entries.Some?
    ensures forall field <- ["client", "provider", "arbitrator", "token"] ::
              exists a: ScAddress :: !a.OtherAddress?
                  && Entry(Symbol(field), Address(a)) in event.value.value.entries.value
    ensures forall field <- ["review_period", "created_at"] ::
              exists v: u64 :: Entry(Symbol(field), U64(v)) in event.value.value.entries.value
    ensures forall field <- ["title", "metadata_uri"] ::
              exists s: string :: Entry(Symbol(field), Text(s)) in event.value.value.entries.value
                                  || Entry(Symbol(field), Symbol(s)) in event.value.value.entries.value
  {
    hide MapGet, DecodeTerms, DecodeMilestones, MilestonePlan, PlanFor, DecodeHead;
    NamedHeadIs(event, id, "escrow_created");
    CreatedArm(event, Head("escrow_created", U64AsI64(id), event.value.value));
    TermsRead(event.contractId, event.value.value);
  }

  /** So does an event about a milestone. */
  lemma EventsThatWriteHoldTheirFields(event: RpcEvent, name: string, id: u64)
    requires |event.topic| >= 2 && (forall t <- event.topic :: t.Some?) && event.value.Some?
    requires event.topic[0] == Some(Symbol(name)) && event.topic[1] == Some(U64(id))
    requires PlanOf(event).statements != []
    requires name in {"milestone_submitted", "milestone_approved", "milestone_auto_released", "milestone_expired",
                      "dispute_raised", "dispute_resolved"}
    ensures event.value.value.Map? && event.value.value.entries.Some?
    ensures var entries := event.value.value.entries.value;
      && (exists m: u32 :: Entry(Symbol("milestone_id"), U32(m)) in entries)
      && (name == "milestone_submitted" ==>
            exists s: string :: Entry(Symbol("evidence_uri"), Text(s)) in entries
                                || Entry(Symbol("evidence_uri"), Symbol(s)) in entries)
      && (name == "dispute_raised" ==>
            && (exists a: ScAddress :: !a.OtherAddress? && Entry(Symbol("raised_by"), Address(a)) in entries)
            && (exists s: string :: Entry(Symbol("reason"), Text(s)) in entries
                                    || Entry(Symbol("reason"), Symbol(s)) in entries))
      && (name == "dispute_resolved" ==>
            exists val :: Entry(Symbol("resolution"), val) in entries && DecodeResolution(val).Ok?)
  {
    hide MapGet, AddressField, TextField, MilestoneField, DecodeResolution, CreatedPlan, Hex, DecodeHead;
    var data := event.value.value;
    NamedHeadIs(event, id, name);
    FieldsRead(data, "evidence_uri");
    FieldsRead(data, "raised_by");
    FieldsRead(data, "reason");
    if MapGet(data, "resolution").Ok? { FieldRead(data, "resolution"); }
  }
}
