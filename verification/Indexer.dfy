/** The indexer as it runs: a database changed in place, one event at a time (src/db.rs, src/indexer/mod.rs). */
module Indexer {
  import opened Base
  import opened Decode
  import opened Tables
  import opened Events
  import opened Log
  import opened Machine
  import opened Poll
  import opened Framing
  import opened Deliveries

  class Database {
    var escrows: map<EscrowId, EscrowRow>
    var milestones: map<Key, MilestoneRow>
    var disputes: map<Key, DisputeRow>
    var webhooks: map<nat, Webhook>
    var cursor: Cursor

    /** The database right after the migrations. */
    constructor ()
      ensures escrows == map[] && milestones == map[] && disputes == map[] && webhooks == map[]
      ensures cursor == Cursor(0, None) && Rows() == EMPTY
    {
      escrows, milestones, disputes, webhooks := map[], map[], map[], map[];
      cursor := NO_CURSOR;
    }

    function Rows(): Tables
      reads this`escrows, this`milestones, this`disputes
    {
      Tables(escrows, milestones, disputes)
    }

    method UpsertEscrow(id: EscrowId, terms: EscrowTerms, status: string, ledger: i64)
      modifies this`escrows
      ensures Rows() == Apply(old(Rows()), Statement.UpsertEscrow(id, terms, status, ledger))
      ensures escrows == old(escrows)[id :=
                if id !in old(escrows) then EscrowRow(terms := terms, status := status, updatedLedger := ledger)
                else if ledger >= old(escrows)[id].updatedLedger
                then old(escrows)[id].(status := status, updatedLedger := ledger) else old(escrows)[id]]
    {
      if id !in escrows {
        escrows := escrows[id := EscrowRow(terms, status, ledger)];
      } else if ledger >= escrows[id].updatedLedger {
        escrows := escrows[id := escrows[id].(status := status, updatedLedger := ledger)];
      }
      assert escrows == Apply(old(Rows()), Statement.UpsertEscrow(id, terms, status, ledger)).escrows;
    }

    method SetEscrowStatus(id: EscrowId, status: string, ledger: i64)
      modifies this`escrows
      ensures Rows() == Apply(old(Rows()), Statement.SetEscrowStatus(id, status, ledger))
      ensures escrows == if id in old(escrows) && ledger >= old(escrows)[id].updatedLedger
                         then old(escrows)[id := old(escrows)[id].(status := status, updatedLedger := ledger)]
                         else old(escrows)
    {
      if id in escrows && ledger >= escrows[id].updatedLedger {
        escrows := escrows[id := escrows[id].(status := status, updatedLedger := ledger)];
      }
      assert escrows == Apply(old(Rows()), Statement.SetEscrowStatus(id, status, ledger)).escrows;
    }

    method UpsertMilestone(key: Key, terms: MilestoneTerms, status: string) returns (ok: bool)
      modifies this`milestones
      ensures Rows() == Apply(old(Rows()), Statement.UpsertMilestone(key, terms, status))
      ensures ok <==> !Fails(old(Rows()), Statement.UpsertMilestone(key, terms, status))
      ensures ok <==> key in old(milestones) || key.escrow in escrows
      ensures !ok ==> milestones == old(milestones)
      ensures ok ==> milestones == old(milestones)[key :=
                if key in old(milestones) then old(milestones)[key].(status := status)
                else MilestoneRow(terms := terms, status := status, submittedAt := None, evidenceUri := None,
                                  evidenceHash := None, releasedVia := None)]
    {
      ok := true;
      if key in milestones {
        milestones := milestones[key := milestones[key].(status := status)];
      } else if key.escrow in escrows {
        milestones := milestones[key := MilestoneRow(terms, status, None, None, None, None)];
      } else {
        ok := false;
      }
    }

    method SetMilestoneStatus(key: Key, status: string)
      modifies this`milestones
      ensures Rows() == Apply(old(Rows()), Statement.SetMilestoneStatus(key, status))
      ensures milestones == if key !in old(milestones) then old(milestones)
                            else old(milestones)[key := old(milestones)[key].(status := status)]
    {
      if key in milestones {
        milestones := milestones[key := milestones[key].(status := status)];
      }
    }

    method MarkMilestoneSubmitted(key: Key, uri: Option<string>, hash: Option<string>, at: int)
      modifies this`milestones
      ensures Rows() == Apply(old(Rows()), MarkSubmitted(key, uri, hash, at))
      ensures milestones == if key !in old(milestones) then old(milestones)
                            else old(milestones)[key := old(milestones)[key].(
                              status := "submitted", evidenceUri := uri, evidenceHash := hash,
                              submittedAt := Some(at))]
    {
      if key in milestones {
        milestones := milestones[key := milestones[key].(
          status := "submitted", evidenceUri := uri, evidenceHash := hash, submittedAt := Some(at))];
      }
    }

    method ReleaseMilestone(key: Key, via: string)
      modifies this`milestones
      ensures Rows() == Apply(old(Rows()), Statement.ReleaseMilestone(key, via))
      ensures milestones == if key !in old(milestones) then old(milestones)
                            else old(milestones)[key := old(milestones)[key].(
                              status := "released", releasedVia := Some(via))]
    {
      if key in milestones {
        milestones := milestones[key := milestones[key].(status := "released", releasedVia := Some(via))];
      }
    }

    method InsertDispute(key: Key, raisedBy: string, reason: string) returns (ok: bool)
      modifies this`disputes
      ensures Rows() == Apply(old(Rows()), Statement.InsertDispute(key, raisedBy, reason))
      ensures ok <==> !Fails(old(Rows()), Statement.InsertDispute(key, raisedBy, reason))
      ensures ok <==> key in old(disputes) || key.escrow in escrows
      ensures disputes == if key in old(disputes) || key.escrow !in escrows then old(disputes)
                          else old(disputes)[key := DisputeRow(raisedBy := raisedBy, reason := reason,
                                                               status := "open", resolutionKind := None,
                                                               resolutionBps := None)]
    {
      ok := true;
      if key !in disputes {
        if key.escrow in escrows {
          disputes := disputes[key := DisputeRow(raisedBy, reason, "open", None, None)];
        } else {
          ok := false;
        }
      }
    }

    method ResolveDispute(key: Key, kind: string, bps: Option<i32>)
      modifies this`disputes
      ensures Rows() == Apply(old(Rows()), Statement.ResolveDispute(key, kind, bps))
      ensures disputes == if key !in old(disputes) then old(disputes)
                          else old(disputes)[key := old(disputes)[key].(
                            status := "resolved", resolutionKind := Some(kind), resolutionBps := bps)]
    {
      if key in disputes {
        disputes := disputes[key := disputes[key].(
          status := "resolved", resolutionKind := Some(kind), resolutionBps := bps)];
      }
    }

    /** Fails on an unknown escrow (foreign key) or a used id (primary key). */
    method InsertWebhook(id: nat, escrow: EscrowId, owner: string, url: string, secret: string) returns (ok: bool)
      modifies this`webhooks
      ensures ok <==> escrow in escrows && id !in old(webhooks)
      ensures webhooks == if ok then old(webhooks)[id := Webhook(escrow, owner, url, secret)] else old(webhooks)
    {
      ok := escrow in escrows && id !in webhooks;
      if ok { webhooks := webhooks[id := Webhook(escrow, owner, url, secret)]; }
    }

    /** Deletes only the owner's own webhook; says whether a row went. */
    method DeleteWebhook(id: nat, owner: string) returns (deleted: bool)
      modifies this`webhooks
      ensures deleted <==> id in old(webhooks) && old(webhooks)[id].owner == owner
      ensures webhooks == if deleted then old(webhooks) - {id} else old(webhooks)
    {
      deleted := id in webhooks && webhooks[id].owner == owner;
      if deleted { webhooks := webhooks - {id}; }
    }

    method SetCursor(lastLedger: i64, token: nat)
      modifies this`cursor
      ensures cursor == Cursor(lastLedger, Some(token))
    {
      cursor := Cursor(lastLedger, Some(token));
    }
  }

  datatype EventError = DecodeFailed(error: DecodeError) | ForeignKeyError

  /** What `process_event` returns. */
  function EventResult(t: Tables, plan: Plan): Result<(), EventError> {
    if !RunPlan(t, plan.statements).completed then Err(ForeignKeyError)
    else if plan.finish.Abort? then Err(DecodeFailed(plan.finish.error)) else Ok(())
  }

  lemma RunTwo(t: Tables, a: Statement, b: Statement)
    ensures RunPlan(t, [a, b]) == if Fails(t, a) then Outcome(t, false) else RunPlan(Apply(t, a), [b])
    ensures RunPlan(t, [a]) == if Fails(t, a) then Outcome(t, false) else Outcome(Apply(t, a), true)
    ensures RunPlan(t, []) == Outcome(t, true)
  {
    assert [a, b][1..] == [b] && [a][1..] == [];
  }

  class Indexer {
    const db: Database
    var outbox: seq<Notice>
    /** The requests spawned so far. */
    var deliveries: seq<Delivery>

    constructor (db: Database)
      ensures this.db == db && outbox == [] && deliveries == []
    {
      this.db := db;
      outbox, deliveries := [], [];
    }

    /** Inserts the escrow, then decodes its milestones, then inserts them one by one. */
    method ProcessCreated(event: RpcEvent, head: Head) returns (r: Result<(), EventError>)
      modifies db`escrows, db`milestones
      ensures var plan := CreatedPlan(event.contractId, head, event.ledger);
              db.Rows() == RunPlan(old(db.Rows()), plan.statements).tables && r == EventResult(old(db.Rows()), plan)
    {
      hide DecodeTerms, MapGet, DecodeMilestones, MilestoneRowOf, Apply, Fails;
      var terms := DecodeTerms(event.contractId, head.data);
      if terms.Err? { return Err(DecodeFailed(terms.error)); }
      db.UpsertEscrow(head.escrow, terms.value, "created", event.ledger);
      ghost var upsert := Statement.UpsertEscrow(head.escrow, terms.value, "created", event.ledger);
      UpsertEscrowNeverFails(old(db.Rows()), upsert);
      RunTwo(old(db.Rows()), upsert, upsert);
      var field := MapGet(head.data, "milestones");
      if field.Err? { return Err(DecodeFailed(field.error)); }
      var ms := DecodeMilestones(field.value);
      if ms.Err? { return Err(DecodeFailed(ms.error)); }
      ghost var finish := Notify(head.escrow, head.name);
      ghost var plan := MilestonePlan(head.escrow, ms.value, finish);
      ghost var inserted := db.Rows();
      RunCons(old(db.Rows()), upsert, plan.statements);
      var i := 0;
      assert ms.value[0..] == ms.value;
      while i < |ms.value|
        invariant i <= |ms.value|
        invariant RunPlan(inserted, plan.statements)
                  == RunPlan(db.Rows(), MilestonePlan(head.escrow, ms.value[i..], finish).statements)
        invariant plan.finish == MilestonePlan(head.escrow, ms.value[i..], finish).finish
      {
        ghost var rest := ms.value[i..];
        assert rest[0] == ms.value[i] && rest[1..] == ms.value[i + 1..];
        var row := MilestoneRowOf(head.escrow, ms.value[i]);
        if row.Err? { return Err(DecodeFailed(row.error)); }
        MilestoneRowShape(head.escrow, ms.value[i]);
        RunCons(db.Rows(), row.value, MilestonePlan(head.escrow, rest[1..], finish).statements);
        label before:
        var ok := db.UpsertMilestone(row.value.key, row.value.milestoneTerms, row.value.status);
        if !ok {
          FailureChangesNothing(old@before(db.Rows()), row.value);
          return Err(ForeignKeyError);
        }
        i := i + 1;
      }
      return Ok(());
    }

    method ProcessSubmitted(event: RpcEvent, head: Head) returns (r: Result<(), EventError>)
      modifies db`escrows, db`milestones
      ensures var plan := SubmittedPlan(head, event.ledger, event.ledgerClosedAt);
              db.Rows() == RunPlan(old(db.Rows()), plan.statements).tables && r == EventResult(old(db.Rows()), plan)
    {
      hide MilestoneField, UriAndHash;
      var id := MilestoneField(head.data);
      if id.Err? { return Err(DecodeFailed(id.error)); }
      var evidence := UriAndHash(head.data, "evidence_uri", "evidence_hash");
      if evidence.Err? { return Err(DecodeFailed(evidence.error)); }
      var key := Key(head.escrow, id.value);
      RunTwo(old(db.Rows()), Statement.SetEscrowStatus(head.escrow, "in_progress", event.ledger),
             MarkSubmitted(key, evidence.value.0, evidence.value.1, event.ledgerClosedAt));
      db.SetEscrowStatus(head.escrow, "in_progress", event.ledger);
      RunTwo(db.Rows(), MarkSubmitted(key, evidence.value.0, evidence.value.1, event.ledgerClosedAt),
             Statement.SetMilestoneStatus(key, ""));
      db.MarkMilestoneSubmitted(key, evidence.value.0, evidence.value.1, event.ledgerClosedAt);
      return Ok(());
    }

    method ProcessReleased(head: Head, via: string) returns (r: Result<(), EventError>)
      modifies db`milestones
      ensures var plan := ReleasedPlan(head, via);
              db.Rows() == RunPlan(old(db.Rows()), plan.statements).tables && r == EventResult(old(db.Rows()), plan)
    {
      hide MilestoneField;
      var id := MilestoneField(head.data);
      if id.Err? { return Err(DecodeFailed(id.error)); }
      var key := Key(head.escrow, id.value);
      RunTwo(old(db.Rows()), Statement.ReleaseMilestone(key, via), Statement.ReleaseMilestone(key, via));
      db.ReleaseMilestone(key, via);
      return Ok(());
    }

    method ProcessExpired(head: Head) returns (r: Result<(), EventError>)
      modifies db`milestones
      ensures var plan := ExpiredPlan(head);
              db.Rows() == RunPlan(old(db.Rows()), plan.statements).tables && r == EventResult(old(db.Rows()), plan)
    {
      hide MilestoneField;
      var id := MilestoneField(head.data);
      if id.Err? { return Err(DecodeFailed(id.error)); }
      var key := Key(head.escrow, id.value);
      RunTwo(old(db.Rows()), Statement.SetMilestoneStatus(key, "expired"),
             Statement.SetMilestoneStatus(key, "expired"));
      db.SetMilestoneStatus(key, "expired");
      return Ok(());
    }

    method ProcessEscrowStatus(head: Head, status: string, ledger: i64) returns (r: Result<(), EventError>)
      modifies db`escrows
      ensures var plan := EscrowStatusPlan(head, status, ledger);
              db.Rows() == RunPlan(old(db.Rows()), plan.statements).tables && r == EventResult(old(db.Rows()), plan)
    {
      RunTwo(old(db.Rows()), Statement.SetEscrowStatus(head.escrow, status, ledger),
             Statement.SetEscrowStatus(head.escrow, status, ledger));
      db.SetEscrowStatus(head.escrow, status, ledger);
      return Ok(());
    }

    method ProcessRaised(head: Head) returns (r: Result<(), EventError>)
      modifies db`milestones, db`disputes
      ensures var plan := RaisedPlan(head);
              db.Rows() == RunPlan(old(db.Rows()), plan.statements).tables && r == EventResult(old(db.Rows()), plan)
    {
      hide MilestoneField, AddressField, TextField;
      var id := MilestoneField(head.data);
      if id.Err? { return Err(DecodeFailed(id.error)); }
      var raisedBy := AddressField(head.data, "raised_by");
      if raisedBy.Err? { return Err(DecodeFailed(raisedBy.error)); }
      var reason := TextField(head.data, "reason");
      if reason.Err? { return Err(DecodeFailed(reason.error)); }
      var key := Key(head.escrow, id.value);
      ghost var insert := Statement.InsertDispute(key, raisedBy.value, reason.value);
      RunTwo(old(db.Rows()), Statement.SetMilestoneStatus(key, "disputed"), insert);
      db.SetMilestoneStatus(key, "disputed");
      RunTwo(db.Rows(), insert, insert);
      var ok := db.InsertDispute(key, raisedBy.value, reason.value);
      if !ok { return Err(ForeignKeyError); }
      return Ok(());
    }

    method ProcessResolved(head: Head) returns (r: Result<(), EventError>)
      modifies db`milestones, db`disputes
      ensures var plan := ResolvedPlan(head);
              db.Rows() == RunPlan(old(db.Rows()), plan.statements).tables && r == EventResult(old(db.Rows()), plan)
    {
      hide MilestoneField, MapGet, DecodeResolution;
      var id := MilestoneField(head.data);
      if id.Err? { return Err(DecodeFailed(id.error)); }
      var field := MapGet(head.data, "resolution");
      if field.Err? { return Err(DecodeFailed(field.error)); }
      var resolution := DecodeResolution(field.value);
      if resolution.Err? { return Err(DecodeFailed(resolution.error)); }
      var key := Key(head.escrow, id.value);
      ghost var resolve := Statement.ResolveDispute(key, resolution.value.0, resolution.value.1);
      RunTwo(old(db.Rows()), Statement.SetMilestoneStatus(key, "resolved"), resolve);
      db.SetMilestoneStatus(key, "resolved");
      RunTwo(db.Rows(), resolve, resolve);
      db.ResolveDispute(key, resolution.value.0, resolution.value.1);
      return Ok(());
    }

    /**
     * Signs and sends one event to each webhook of its escrow, in whatever order the query lists them;
     * `now` is the clock.
     */
    method NotifyWebhooks(id: nat, escrow: EscrowId, name: string, now: i64)
      requires IsWords(name)
      modifies this`outbox, this`deliveries
      ensures outbox == old(outbox) + [Notice(id, escrow, name, HooksOf(db.webhooks, escrow))]
      ensures old(deliveries) <= deliveries
      ensures Sent(old(deliveries), deliveries, old(outbox), outbox, db.webhooks)
      ensures forall h :: (h in db.webhooks && db.webhooks[h].escrow == escrow)
                     <==> exists d <- deliveries[|old(deliveries)|..] :: d.webhook == h
      ensures |deliveries| - |old(deliveries)| == |set h | h in db.webhooks && db.webhooks[h].escrow == escrow|
      ensures forall d <- deliveries[|old(deliveries)|..] ::
                && d.url == db.webhooks[d.webhook].url && d.key == db.webhooks[d.webhook].secret
                && d.body == Payload(escrow, name) && d.signed == Frame(now, d.body)
      ensures forall h :: h in outbox[|old(outbox)|].targets <==> h in db.webhooks && db.webhooks[h].escrow == escrow
      ensures forall d <- deliveries[|old(deliveries)|..] :: d.timestamp == now
    {
      hide Payload, Frame, IsWords, OneEach, Sent;
      NoneYet(db.webhooks, escrow, name);
      var body := Payload(escrow, name);
      var rest := HooksOf(db.webhooks, escrow);
      var sent: seq<Delivery> := [];
      ghost var done: set<nat> := {};
      while rest != {}
        invariant done + rest == HooksOf(db.webhooks, escrow) && done !! rest
        invariant OneEach(sent, db.webhooks, escrow, name, done)
        invariant forall d <- sent :: d.timestamp == now
        invariant deliveries == old(deliveries) && outbox == old(outbox)
        decreases |rest|
      {
        var h :| h in rest;
        var webhook := db.webhooks[h];
        var mac := SignPayload(webhook.secret, now, body);
        var delivery := Delivery(h, webhook.url, now, body, mac.key, mac.input);
        OneMore(sent, delivery, db.webhooks, escrow, name, done);
        sent := sent + [delivery];
        rest, done := rest - {h}, done + {h};
      }
      assert done == HooksOf(db.webhooks, escrow);
      EachIs(sent, db.webhooks, escrow, name);
      assert (deliveries + sent)[|deliveries|..] == sent;
      SentOne(deliveries, deliveries + sent, outbox, Notice(id, escrow, name, HooksOf(db.webhooks, escrow)),
              db.webhooks);
      deliveries := deliveries + sent;
      outbox := outbox + [Notice(id, escrow, name, HooksOf(db.webhooks, escrow))];
    }

    /** Runs the event's statements in order, and notifies if the event is known and all went through. */
    method ProcessEvent(event: RpcEvent, now: i64) returns (r: Result<(), EventError>)
      modifies this`outbox, this`deliveries, db`escrows, db`milestones, db`disputes
      ensures Sent(old(deliveries), deliveries, old(outbox), outbox, db.webhooks)
      ensures db.Rows() == RunPlan(old(db.Rows()), PlanOf(event).statements).tables
      ensures var plan := PlanOf(event);
        && r == (if !RunPlan(old(db.Rows()), plan.statements).completed then Err(ForeignKeyError)
                 else if plan.finish.Abort? then Err(DecodeFailed(plan.finish.error)) else Ok(()))
        && (if r.Ok? && plan.finish.Notify?
            then outbox == old(outbox) + [Notice(id := event.id, escrow := plan.finish.escrow,
                                                 name := plan.finish.name,
                                                 targets := HooksOf(db.webhooks, plan.finish.escrow))]
                 && forall h :: h in outbox[|old(outbox)|].targets <==>
                      h in db.webhooks && db.webhooks[h].escrow == plan.finish.escrow
            else outbox == old(outbox))
    {
      hide IsWords, Sent, DecodeHead, CreatedPlan, SubmittedPlan, ReleasedPlan, ExpiredPlan, EscrowStatusPlan,
           RaisedPlan, ResolvedPlan, RunPlan;
      SentNothing(deliveries, outbox, db.webhooks);
      var decoded := DecodeHead(event);
      RunTwo(db.Rows(), Statement.SetEscrowStatus(0, "", 0), Statement.SetEscrowStatus(0, "", 0));
      if decoded.Err? { return Err(DecodeFailed(decoded.error)); }
      var head := decoded.value;
      var name := head.name;
      PlanFinishes(event, head);
      if name == "escrow_created" {
        r := ProcessCreated(event, head);
      } else if name == "escrow_funded" {
        r := ProcessEscrowStatus(head, "funded", event.ledger);
      } else if name == "milestone_submitted" {
        r := ProcessSubmitted(event, head);
      } else if name == "milestone_approved" {
        r := ProcessReleased(head, "approved");
      } else if name == "milestone_auto_released" {
        r := ProcessReleased(head, "auto_release");
      } else if name == "milestone_expired" {
        r := ProcessExpired(head);
      } else if name == "escrow_cancelled" {
        r := ProcessEscrowStatus(head, "cancelled", event.ledger);
      } else if name == "escrow_mutually_cancelled" {
        r := ProcessEscrowStatus(head, "cancelled", event.ledger);
      } else if name == "escrow_completed" {
        r := ProcessEscrowStatus(head, "completed", event.ledger);
      } else if name == "dispute_raised" {
        r := ProcessRaised(head);
      } else if name == "dispute_resolved" {
        r := ProcessResolved(head);
      } else {
        return Ok(());
      }
      if r.Ok? {
        EventNamesAreWords(name);
        NotifyWebhooks(event.id, head.escrow, name, now);
      }
    }

    /**
     * One poll.  `cursorReads` and `commits` say whether the two cursor statements succeed, `latest`
     * and `respond` what the RPC answers, `clock` the time read for each event.  Only a fetched page
     * changes the tables, and only a commit after the page moves the cursor.
     */
    method PollOnce(cursorReads: bool, latest: Option<u32>, respond: Request -> Option<Page>, commits: bool,
                    clock: RpcEvent -> i64)
      returns (r: Result<nat, PollError>)
      modifies this`outbox, this`deliveries, db`escrows, db`milestones, db`disputes, db`cursor
      ensures Sent(old(deliveries), deliveries, old(outbox), outbox, db.webhooks)
      ensures r.Err? && (r.error.RpcError? || !cursorReads) ==>
                db.Rows() == old(db.Rows()) && outbox == old(outbox) && db.cursor == old(db.cursor)
      ensures !cursorReads ==> r == Err(SqlError)
      ensures var c := old(db.cursor);
              var bootstrap := c.token.None? && c.lastLedger == 0;
              cursorReads && (bootstrap ==> latest.Some?) ==>
                var request :=
                  if c.token.Some? then Request(startLedger := None, cursor := c.token, limit := 100)
                  else if !bootstrap then Request(startLedger := None, cursor := None, limit := 100)
                  else Request(startLedger := Some(if latest.value > 17_280 then latest.value - 17_280 else 1),
                               cursor := None, limit := 100);
                match respond(request)
                case None => r == Err(RpcError)
                case Some(page) =>
                  var next := if page.cursor.Some? then page.cursor
                              else if page.events != [] then Some(page.events[|page.events| - 1].id) else None;
                  && Progress(db.Rows(), outbox)
                     == ProcessPage(Progress(old(db.Rows()), old(outbox)), db.webhooks, EntriesOf(page.events))
                  && db.cursor == (if next.Some? && commits then Cursor(lastLedger := page.latestLedger, token := next)
                                   else c)
                  && r == (if next.Some? && !commits then Err(SqlError)
                           else Ok(|set i | 0 <= i < |page.events| && page.events[i].inSuccessfulContractCall|))
      ensures cursorReads && old(db.cursor) == Cursor(0, None) && latest.None? ==> r == Err(RpcError)
    {
      hide PlanOf, RunPlan, HooksOf, ProcessPage, Sent;
      SentNothing(deliveries, outbox, db.webhooks);
      if !cursorReads { return Err(SqlError); }
      var lastLedger, lastCursor := db.cursor.lastLedger, db.cursor.token;
      var startLedger: Option<u32> := None;
      if lastCursor.None? && lastLedger == 0 {
        if latest.None? { return Err(RpcError); }
        startLedger := Some(StartLedger(latest.value));
      }
      var request := Request(if lastCursor.Some? then None else startLedger, lastCursor, PAGE_LIMIT);
      var result := respond(request);
      if result.None? { return Err(RpcError); }
      var page := result.value;
      ghost var entries := EntriesOf(page.events);
      ghost var start := Progress(db.Rows(), outbox);
      var processed := 0;
      var i := 0;
      PageStarts(start, db.webhooks, page.events);
      while i < |page.events|
        invariant i <= |page.events|
        invariant Progress(db.Rows(), outbox) == ProcessPage(start, db.webhooks, entries[..i])
        invariant processed == Counted(page.events[..i])
        invariant db.cursor == old(db.cursor)
        invariant Sent(old(deliveries), deliveries, old(outbox), outbox, db.webhooks)
      {
        var event := page.events[i];
        PageGrows(start, db.webhooks, page.events, i);
        if event.inSuccessfulContractCall {
          label before:
          var _ := ProcessEvent(event, clock(event));
          SentThen(old(deliveries), old@before(deliveries), deliveries, old(outbox), old@before(outbox), outbox,
                   db.webhooks);
          processed := processed + 1;
        }
        i := i + 1;
      }
      assert entries[..|entries|] == entries && page.events[..|page.events|] == page.events;
      var next := if page.cursor.Some? then page.cursor
                  else if page.events != [] then Some(page.events[|page.events| - 1].id) else None;
      if next.Some? {
        if !commits { return Err(SqlError); }
        db.SetCursor(page.latestLedger, next.value);
      }
      return Ok(processed);
    }
  }

  lemma UpsertEscrowNeverFails(t: Tables, s: Statement)
    requires s.UpsertEscrow?
    ensures !Fails(t, s)
  {
  }

  lemma FailureChangesNothing(t: Tables, s: Statement)
    requires Fails(t, s)
    ensures Apply(t, s) == t
  {
  }

  lemma RunCons(t: Tables, s: Statement, rest: seq<Statement>)
    ensures RunPlan(t, [s] + rest) == if Fails(t, s) then Outcome(t, false) else RunPlan(Apply(t, s), rest)
  {
    assert ([s] + rest)[1..] == rest;
  }

  lemma MilestoneRowShape(escrow: EscrowId, m: Milestone)
    ensures MilestoneRowOf(escrow, m).Ok? ==> MilestoneRowOf(escrow, m).value.UpsertMilestone?
  {
  }

  /** A known event ends in a notification, unless it fails to decode. */
  lemma PlanFinishes(event: RpcEvent, head: Head)
    ensures var finish := PlanFor(event, head).finish;
            finish == Notify(head.escrow, head.name) || finish.Abort?
            || (head.name !in EVENT_NAMES && PlanFor(event, head) == Plan([], Ignore))
  {
    hide DecodeTerms, DecodeMilestones, MapGet, MilestonePlan, MilestoneField, UriAndHash, AddressField, TextField,
         DecodeResolution;
    var field := MapGet(head.data, "milestones");
    if field.Ok? && DecodeMilestones(field.value).Ok? {
      MilestonePlanFinish(head.escrow, DecodeMilestones(field.value).value, Notify(head.escrow, head.name));
    }
  }

  lemma {:induction false} MilestonePlanFinish(escrow: EscrowId, ms: seq<Milestone>, finish: Finish)
    ensures MilestonePlan(escrow, ms, finish).finish == finish || MilestonePlan(escrow, ms, finish).finish.Abort?
  {
    if ms == [] {
    } else {
      MilestonePlanFinish(escrow, ms[1..], finish);
    }
  }
}
