/** What is sent for a notice: one signed request to each webhook (src/indexer/mod.rs, `notify_webhooks`). */
module Deliveries {
  import opened Base
  import opened Tables
  import opened Events
  import opened Machine
  import opened Framing

  /** One spawned request; the signature is the MAC of `signed` under `key`. */
  datatype Delivery = Delivery(webhook: nat, url: string, timestamp: i64, body: seq<byte>, key: string,
                               signed: seq<byte>)

  lemma EventNamesAreWords(name: string)
    requires name in EVENT_NAMES
    ensures IsWords(name)
  {
    if name[0] == 'e' { EscrowNamesAreWords(); }
    else if name[0] == 'd' { DisputeNamesAreWords(); }
    else { MilestoneNamesAreWords(); }
  }

  lemma EscrowNamesAreWords()
    ensures IsWords("escrow_created") && IsWords("escrow_funded") && IsWords("escrow_cancelled")
    ensures IsWords("escrow_mutually_cancelled") && IsWords("escrow_completed")
  {
  }

  lemma MilestoneNamesAreWords()
    ensures IsWords("milestone_submitted") && IsWords("milestone_approved")
    ensures IsWords("milestone_auto_released") && IsWords("milestone_expired")
  {
  }

  lemma DisputeNamesAreWords()
    ensures IsWords("dispute_raised") && IsWords("dispute_resolved")
  {
  }

  /** The request carries this event to this webhook, signed under the webhook's own secret. */
  predicate Carries(d: Delivery, hooks: map<nat, Webhook>, escrow: EscrowId, name: string) {
    IsWords(name) && d.webhook in hooks && hooks[d.webhook].escrow == escrow
    && d.url == hooks[d.webhook].url && d.key == hooks[d.webhook].secret
    && d.body == Payload(escrow, name) && d.signed == Frame(d.timestamp, d.body)
  }

  /** One request for each webhook of the escrow, and no other. */
  predicate OneEach(ds: seq<Delivery>, hooks: map<nat, Webhook>, escrow: EscrowId, name: string, targets: set<nat>) {
    |ds| == |targets|
    && (forall d <- ds :: Carries(d, hooks, escrow, name) && d.webhook in targets)
    && (forall h <- targets :: exists d <- ds :: d.webhook == h)
  }

  lemma NoneYet(hooks: map<nat, Webhook>, escrow: EscrowId, name: string)
    ensures OneEach([], hooks, escrow, name, {})
  {
  }

  /** The requests are one block per notice, in order: one request to each of its targets. */
  predicate Fulfils(ds: seq<Delivery>, notices: seq<Notice>, hooks: map<nat, Webhook>)
    decreases |notices|
  {
    if notices == [] then ds == []
    else
      var n := notices[0];
      |n.targets| <= |ds| && OneEach(ds[..|n.targets|], hooks, n.escrow, n.name, n.targets)
      && Fulfils(ds[|n.targets|..], notices[1..], hooks)
  }

  /** From one point of a run to a later one, the requests spawned fulfil the notices enqueued. */
  predicate Sent(a: seq<Delivery>, b: seq<Delivery>, x: seq<Notice>, y: seq<Notice>, hooks: map<nat, Webhook>) {
    a <= b && x <= y && Fulfils(b[|a|..], y[|x|..], hooks)
  }

  lemma SentNothing(a: seq<Delivery>, x: seq<Notice>, hooks: map<nat, Webhook>)
    ensures Sent(a, a, x, x, hooks)
  {
    assert a[|a|..] == [] && x[|x|..] == [];
  }

  lemma SentOne(a: seq<Delivery>, b: seq<Delivery>, x: seq<Notice>, n: Notice, hooks: map<nat, Webhook>)
    requires a <= b && OneEach(b[|a|..], hooks, n.escrow, n.name, n.targets)
    ensures Sent(a, b, x, x + [n], hooks)
  {
    hide OneEach;
    var ds, notices := b[|a|..], [n];
    OneEachCounts(ds, hooks, n);
    assert (x + [n])[|x|..] == notices && notices[1..] == [];
    assert ds[..|ds|] == ds && ds[|ds|..] == [];
    assert Fulfils([], [], hooks);
  }

  lemma OneEachCounts(ds: seq<Delivery>, hooks: map<nat, Webhook>, n: Notice)
    requires OneEach(ds, hooks, n.escrow, n.name, n.targets)
    ensures |ds| == |n.targets|
  {
    hide Carries;
  }

  lemma SentThen(a: seq<Delivery>, b: seq<Delivery>, c: seq<Delivery>,
                 x: seq<Notice>, y: seq<Notice>, z: seq<Notice>, hooks: map<nat, Webhook>)
    requires Sent(a, b, x, y, hooks) && Sent(b, c, y, z, hooks)
    ensures Sent(a, c, x, z, hooks)
  {
    hide Fulfils;
    assert c[|a|..] == b[|a|..] + c[|b|..] && z[|x|..] == y[|x|..] + z[|y|..];
    FulfilsTogether(b[|a|..], c[|b|..], y[|x|..], z[|y|..], hooks);
  }

  lemma {:induction false} FulfilsTogether(a: seq<Delivery>, b: seq<Delivery>, m: seq<Notice>, n: seq<Notice>,
                                           hooks: map<nat, Webhook>)
    requires Fulfils(a, m, hooks) && Fulfils(b, n, hooks)
    ensures Fulfils(a + b, m + n, hooks)
    decreases |m|
  {
    hide OneEach;
    if m == [] {
      assert m + n == n && a + b == b;
    } else {
      var k := |m[0].targets|;
      FulfilsTogether(a[k..], b, m[1..], n, hooks);
      assert (m + n)[0] == m[0] && (m + n)[1..] == m[1..] + n;
      assert (a + b)[..k] == a[..k] && (a + b)[k..] == a[k..] + b;
    }
  }

  /** How many of some requests go to one webhook. */
  function RequestsTo(ds: seq<Delivery>, h: nat): nat {
    if ds == [] then 0 else (if ds[0].webhook == h then 1 else 0) + RequestsTo(ds[1..], h)
  }

  /** How many of some notices address one webhook. */
  function NoticesTo(notices: seq<Notice>, h: nat): nat {
    if notices == [] then 0 else (if h in notices[0].targets then 1 else 0) + NoticesTo(notices[1..], h)
  }

  lemma {:induction false} RequestsToAppend(a: seq<Delivery>, b: seq<Delivery>, h: nat)
    ensures RequestsTo(a + b, h) == RequestsTo(a, h) + RequestsTo(b, h)
    decreases |a|
  {
    if a == [] {
      assert a + b == b;
    } else {
      assert (a + b)[0] == a[0] && (a + b)[1..] == a[1..] + b;
      RequestsToAppend(a[1..], b, h);
    }
  }

  /** As many requests as targets, each target reached: each exactly once. */
  lemma {:induction false} OneEachIsOnce(ds: seq<Delivery>, targets: set<nat>, h: nat)
    requires |ds| == |targets| && (forall d <- ds :: d.webhook in targets)
    requires forall t <- targets :: exists d <- ds :: d.webhook == t
    ensures RequestsTo(ds, h) == if h in targets then 1 else 0
    decreases |ds|
  {
    if ds == [] {
      assert targets == {};
    } else {
      var t, rest := ds[0].webhook, ds[1..];
      assert ds[0] in ds;
      var others := targets - {t};
      forall o <- others ensures exists d <- rest :: d.webhook == o {
        var d :| d in ds && d.webhook == o;
        assert d in rest;
      }
      if exists d <- rest :: d.webhook == t {
        TooFew(rest, targets);
      }
      forall d <- rest ensures d.webhook in others { assert d in ds; }
      OneEachIsOnce(rest, others, h);
    }
  }

  /** Fewer requests than targets miss one. */
  lemma {:induction false} TooFew(ds: seq<Delivery>, targets: set<nat>)
    requires forall t <- targets :: exists d <- ds :: d.webhook == t
    ensures |targets| <= |ds|
    decreases |ds|
  {
    if ds == [] {
      assert targets == {};
    } else {
      var t := ds[0].webhook;
      forall o <- targets - {t} ensures exists d <- ds[1..] :: d.webhook == o {
        var d :| d in ds && d.webhook == o;
        assert d in ds[1..];
      }
      TooFew(ds[1..], targets - {t});
    }
  }

  lemma OneForEach(ds: seq<Delivery>, hooks: map<nat, Webhook>, n: Notice, h: nat)
    requires OneEach(ds, hooks, n.escrow, n.name, n.targets)
    ensures RequestsTo(ds, h) == if h in n.targets then 1 else 0
  {
    hide Carries;
    OneEachIsOnce(ds, n.targets, h);
  }

  /** Each webhook gets exactly as many requests as there are notices addressed to it. */
  lemma {:induction false} OneRequestPerNotice(ds: seq<Delivery>, notices: seq<Notice>, hooks: map<nat, Webhook>,
                                               h: nat)
    requires Fulfils(ds, notices, hooks)
    ensures RequestsTo(ds, h) == NoticesTo(notices, h)
    decreases |notices|
  {
    hide OneEach;
    if notices == [] {
    } else {
      var n := notices[0];
      var k := |n.targets|;
      OneForEach(ds[..k], hooks, n, h);
      OneRequestPerNotice(ds[k..], notices[1..], hooks, h);
      assert ds == ds[..k] + ds[k..];
      RequestsToAppend(ds[..k], ds[k..], h);
    }
  }

  /** One request to each webhook of an escrow, written out. */
  lemma EachIs(ds: seq<Delivery>, hooks: map<nat, Webhook>, escrow: EscrowId, name: string)
    requires IsWords(name) && OneEach(ds, hooks, escrow, name, HooksOf(hooks, escrow))
    ensures |ds| == |set h | h in hooks && hooks[h].escrow == escrow|
    ensures forall h :: (h in hooks && hooks[h].escrow == escrow) <==> exists d <- ds :: d.webhook == h
    ensures forall d <- ds ::
              && d.webhook in hooks && d.url == hooks[d.webhook].url && d.key == hooks[d.webhook].secret
              && d.body == Payload(escrow, name) && d.signed == Frame(d.timestamp, d.body)
  {
    hide Payload, Frame, IsWords;
    assert HooksOf(hooks, escrow) == set h | h in hooks && hooks[h].escrow == escrow;
    forall h | h in hooks && hooks[h].escrow == escrow ensures exists d <- ds :: d.webhook == h {
      assert h in HooksOf(hooks, escrow);
    }
  }

  lemma {:induction false} NoticesToAppend(a: seq<Notice>, b: seq<Notice>, h: nat)
    ensures NoticesTo(a + b, h) == NoticesTo(a, h) + NoticesTo(b, h)
    decreases |a|
  {
    if a == [] {
      assert a + b == b;
    } else {
      assert (a + b)[0] == a[0] && (a + b)[1..] == a[1..] + b;
      NoticesToAppend(a[1..], b, h);
    }
  }

  lemma RequestsToSnoc(ds: seq<Delivery>, d: Delivery, h: nat)
    ensures RequestsTo(ds + [d], h) == RequestsTo(ds, h) + (if d.webhook == h then 1 else 0)
  {
    RequestsToAppend(ds, [d], h);
    assert [d][1..] == [];
  }

  lemma NoticesToSnoc(notices: seq<Notice>, n: Notice, h: nat)
    ensures NoticesTo(notices + [n], h) == NoticesTo(notices, h) + (if h in n.targets then 1 else 0)
  {
    NoticesToAppend(notices, [n], h);
    assert [n][1..] == [];
  }

  lemma {:induction false} RequestsToAre(ds: seq<Delivery>, h: nat)
    ensures RequestsTo(ds, h) == |set i | 0 <= i < |ds| && ds[i].webhook == h|
    decreases |ds|
  {
    var all := set i | 0 <= i < |ds| && ds[i].webhook == h;
    if |ds| == 0 {
      assert all == {};
    } else {
      hide RequestsTo;
      var n := |ds| - 1;
      var front := ds[..n];
      assert ds == front + [ds[n]];
      RequestsToSnoc(front, ds[n], h);
      RequestsToAre(front, h);
      var before := set i | 0 <= i < n && front[i].webhook == h;
      CountGrows(all, before, n, ds[n].webhook == h);
    }
  }

  lemma {:induction false} NoticesToAre(notices: seq<Notice>, h: nat)
    ensures NoticesTo(notices, h) == |set i | 0 <= i < |notices| && h in notices[i].targets|
    decreases |notices|
  {
    var all := set i | 0 <= i < |notices| && h in notices[i].targets;
    if |notices| == 0 {
      assert all == {};
    } else {
      hide NoticesTo;
      var n := |notices| - 1;
      var front := notices[..n];
      assert notices == front + [notices[n]];
      NoticesToSnoc(front, notices[n], h);
      NoticesToAre(front, h);
      var before := set i | 0 <= i < n && h in front[i].targets;
      CountGrows(all, before, n, h in notices[n].targets);
    }
  }

  /** Every request carries a notice that addresses its webhook, signed under that webhook's secret. */
  lemma {:induction false} RequestsCarryNotices(ds: seq<Delivery>, notices: seq<Notice>, hooks: map<nat, Webhook>)
    requires Fulfils(ds, notices, hooks)
    ensures forall d <- ds :: exists n <- notices ::
              && d.webhook in n.targets && IsWords(n.name)
              && d.webhook in hooks && hooks[d.webhook].escrow == n.escrow
              && d.url == hooks[d.webhook].url && d.key == hooks[d.webhook].secret
              && d.body == Payload(n.escrow, n.name) && d.signed == Frame(d.timestamp, d.body)
    decreases |notices|
  {
    hide Payload, Frame, IsWords;
    if notices != [] {
      var k := |notices[0].targets|;
      RequestsCarryNotices(ds[k..], notices[1..], hooks);
      assert ds == ds[..k] + ds[k..] && notices[0] in notices;
      forall n <- notices[1..] ensures n in notices {}
    }
  }

  /** What a run spawns, counted: each webhook's requests are the notices addressed to it. */
  lemma SentIs(a: seq<Delivery>, b: seq<Delivery>, x: seq<Notice>, y: seq<Notice>, hooks: map<nat, Webhook>, h: nat)
    requires Sent(a, b, x, y, hooks)
    ensures a <= b && x <= y
    ensures var ds, notices := b[|a|..], y[|x|..];
            |set i | 0 <= i < |ds| && ds[i].webhook == h|
              == |set i | 0 <= i < |notices| && h in notices[i].targets|
  {
    hide Fulfils;
    OneRequestPerNotice(b[|a|..], y[|x|..], hooks, h);
    RequestsToAre(b[|a|..], h);
    NoticesToAre(y[|x|..], h);
  }

  lemma OneMore(sent: seq<Delivery>, d: Delivery, hooks: map<nat, Webhook>, escrow: EscrowId, name: string,
                done: set<nat>)
    requires OneEach(sent, hooks, escrow, name, done) && Carries(d, hooks, escrow, name) && d.webhook !in done
    ensures OneEach(sent + [d], hooks, escrow, name, done + {d.webhook})
  {
    hide Carries;
    forall h <- done + {d.webhook} ensures exists m <- sent + [d] :: m.webhook == h {
      if h in done {
        var m :| m in sent && m.webhook == h;
        assert m in sent + [d];
      } else {
        assert d in sent + [d];
      }
    }
  }
}
