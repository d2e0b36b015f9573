/** The webhook endpoints (src/api/webhooks.rs). */
module WebhookApi {
  import opened Base
  import opened Tables
  import opened Machine
  import opened Safety
  import opened Indexer

  datatype ApiError = NotFound | BadRequest | Forbidden | DatabaseError

  /** Checks the URL, then that the escrow is there, then that the caller is a party, then inserts. */
  method RegisterWebhook(db: Database, caller: string, escrow: EscrowId, url: string, id: nat, secret: string)
    returns (r: Result<Webhook, ApiError>)
    modifies db`webhooks
    ensures r.Ok? <==>
              && ("https://" <= url || "http://" <= url)
              && escrow in db.escrows
              && (caller == db.escrows[escrow].terms.client || caller == db.escrows[escrow].terms.provider
                  || caller == db.escrows[escrow].terms.arbitrator)
              && id !in old(db.webhooks)
    ensures r.Ok? ==> r.value == Webhook(escrow, caller, url, secret) && db.webhooks == old(db.webhooks)[id := r.value]
    ensures r.Err? ==> db.webhooks == old(db.webhooks)
    ensures !("https://" <= url) && !("http://" <= url) <==> r == Err(BadRequest)
    ensures ("https://" <= url || "http://" <= url) ==> (escrow !in db.escrows <==> r == Err(NotFound))
    ensures ("https://" <= url || "http://" <= url) && escrow in db.escrows ==>
              (r == Err(Forbidden)
               <==> caller != db.escrows[escrow].terms.client && caller != db.escrows[escrow].terms.provider
                    && caller != db.escrows[escrow].terms.arbitrator)
    ensures HooksOwned(db.Rows(), old(db.webhooks), {}) ==> HooksOwned(db.Rows(), db.webhooks, {})
  {
    if !("https://" <= url) && !("http://" <= url) { return Err(BadRequest); }
    if escrow !in db.escrows { return Err(NotFound); }
    var terms := db.escrows[escrow].terms;
    if caller != terms.client && caller != terms.provider && caller != terms.arbitrator { return Err(Forbidden); }
    var ok := db.InsertWebhook(id, escrow, caller, url, secret);
    if !ok { return Err(DatabaseError); }
    return Ok(Webhook(escrow, caller, url, secret));
  }

  /** The caller's own webhooks on an escrow. */
  method ListWebhooks(db: Database, caller: string, escrow: EscrowId) returns (ids: set<nat>)
    ensures forall id :: id in ids <==>
                         id in db.webhooks && db.webhooks[id].escrow == escrow && db.webhooks[id].owner == caller
  {
    var all := HooksOf(db.webhooks, escrow);
    ids := set id | id in all && db.webhooks[id].owner == caller;
  }

  /** Only the owner can delete; anyone else is told there is nothing there. */
  method DeleteWebhook(db: Database, caller: string, id: nat) returns (r: Result<(), ApiError>)
    modifies db`webhooks
    ensures r.Ok? <==> id in old(db.webhooks) && old(db.webhooks)[id].owner == caller
    ensures r.Ok? ==> db.webhooks == old(db.webhooks) - {id}
    ensures r.Err? ==> r == Err(NotFound) && db.webhooks == old(db.webhooks)
    ensures HooksOwned(db.Rows(), old(db.webhooks), {}) ==> HooksOwned(db.Rows(), db.webhooks, {})
  {
    var deleted := db.DeleteWebhook(id, caller);
    return if deleted then Ok(()) else Err(NotFound);
  }
}
