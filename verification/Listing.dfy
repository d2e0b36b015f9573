/** The escrow listing and its pages (src/api/escrows.rs, `list_escrows` in src/db.rs). */
module Listing {
  import opened Base
  import opened Tables
  import opened Events

  datatype EscrowStatus = Created | Funded | InProgress | Completed | Cancelled

  function StatusText(s: EscrowStatus): string {
    match s
    case Created => "created"
    case Funded => "funded"
    case InProgress => "in_progress"
    case Completed => "completed"
    case Cancelled => "cancelled"
  }

  function ParseStatus(s: string): Option<EscrowStatus> {
    if s == "created" then Some(Created)
    else if s == "funded" then Some(Funded)
    else if s == "in_progress" then Some(InProgress)
    else if s == "completed" then Some(Completed)
    else if s == "cancelled" then Some(Cancelled)
    else None
  }

  /** Parsing and printing are inverse, and the texts are exactly the statuses the indexer writes. */
  lemma StatusesRoundTrip(s: string, status: EscrowStatus)
    ensures ParseStatus(StatusText(status)) == Some(status)
    ensures ParseStatus(s).Some? ==> StatusText(ParseStatus(s).value) == s
    ensures ParseStatus(s).Some? <==> s in ESCROW_STATUSES
    ensures ParseStatus(s).Some? <==> s in {"created", "funded", "in_progress", "completed", "cancelled"}
    ensures StatusText(Created) == "created" && StatusText(Funded) == "funded"
    ensures StatusText(InProgress) == "in_progress" && StatusText(Completed) == "completed"
    ensures StatusText(Cancelled) == "cancelled"
  {
    assert |"created"| == 7 && |"funded"| == 6 && |"in_progress"| == 11;
    assert "completed"[1] == 'o' && "cancelled"[1] == 'a';
  }

  datatype Query = Query(
    client: Option<string>,
    provider: Option<string>,
    status: Option<string>,
    limit: Option<i64>,
    offset: Option<i64>)

  datatype Filter = Filter(client: Option<string>, provider: Option<string>, status: Option<string>)

  /** The WHERE clause. */
  predicate Matches(r: EscrowRow, f: Filter) {
    (f.client.Some? ==> r.terms.client == f.client.value)
    && (f.provider.Some? ==> r.terms.provider == f.provider.value)
    && (f.status.Some? ==> r.status == f.status.value)
  }

  function MatchingIds(t: Tables, f: Filter): set<EscrowId> {
    set id | id in t.escrows && Matches(t.escrows[id], f)
  }

  /** ORDER BY id DESC. */
  ghost function Descending(ids: set<int>): seq<int> {
    if ids == {} then []
    else
      HasGreatest(ids);
      var top :| top in ids && forall id <- ids :: id <= top;
      [top] + Descending(ids - {top})
  }

  lemma Inhabited(ids: set<int>)
    ensures ids == {} || exists id :: id in ids
  {
    if !exists id :: id in ids { assert ids == {}; }
  }

  lemma HasGreatest(ids: set<int>)
    requires ids != {}
    ensures exists top :: top in ids && forall id <- ids :: id <= top
  {
    Inhabited(ids);
    var some :| some in ids;
    if ids != {some} {
      HasGreatest(ids - {some});
      var rest :| rest in ids - {some} && forall id <- ids - {some} :: id <= rest;
      var top := if some > rest then some else rest;
      assert forall id <- ids :: id in ids - {some} || id == some;
      assert top in ids && forall id <- ids :: id <= top;
    } else {
      assert some in ids && forall id <- ids :: id <= some;
    }
  }

  lemma DescendingStep(ids: set<int>) returns (top: int)
    requires ids != {}
    ensures top in ids && (forall id <- ids :: id <= top) && Descending(ids) == [top] + Descending(ids - {top})
  {
    HasGreatest(ids);
    top := Descending(ids)[0];
  }

  lemma GreatestFirst(ids: set<int>, top: int, rest: seq<int>)
    requires top in ids && forall id <- ids :: id <= top
    requires |rest| == |ids - {top}| && forall id :: id in rest <==> id in ids - {top}
    requires forall i, j | 0 <= i < j < |rest| :: rest[i] > rest[j]
    ensures |[top] + rest| == |ids| && forall id :: id in [top] + rest <==> id in ids
    ensures forall i, j | 0 <= i < j < |[top] + rest| :: ([top] + rest)[i] > ([top] + rest)[j]
  {
    var all := [top] + rest;
    assert ids == (ids - {top}) + {top};
    forall i, j | 0 <= i < j < |all| ensures all[i] > all[j] {
      assert all[j] == rest[j - 1] && rest[j - 1] in rest;
    }
  }

  /** The listing holds every matching id once, in strictly descending order. */
  lemma {:induction false} DescendingListsAll(ids: set<int>)
    ensures |Descending(ids)| == |ids|
    ensures forall id :: id in Descending(ids) <==> id in ids
    ensures forall i, j | 0 <= i < j < |Descending(ids)| :: Descending(ids)[i] > Descending(ids)[j]
    decreases ids
  {
    if ids == {} {
    } else {
      var top := DescendingStep(ids);
      DescendingListsAll(ids - {top});
      GreatestFirst(ids, top, Descending(ids - {top}));
    }
  }

  /** `limit.unwrap_or(50).clamp(1, 200)`. */
  function EffectiveLimit(limit: Option<i64>): (l: int)
    ensures 1 <= l <= 200
    ensures limit.None? ==> l == 50
    ensures limit.Some? && 1 <= limit.value <= 200 ==> l == limit.value
    ensures limit.Some? && limit.value < 1 ==> l == 1
    ensures limit.Some? && limit.value > 200 ==> l == 200
  {
    var l := if limit.Some? then limit.value else 50;
    if l < 1 then 1 else if l > 200 then 200 else l
  }

  /** `offset.unwrap_or(0).max(0)`. */
  function EffectiveOffset(offset: Option<i64>): (o: nat)
    ensures offset.None? || offset.value <= 0 ==> o == 0
    ensures offset.Some? && offset.value >= 0 ==> o == offset.value
  {
    if offset.Some? && offset.value > 0 then offset.value else 0
  }

  function Least(a: int, b: int): int { if a < b then a else b }

  /** LIMIT and OFFSET. */
  function Window(all: seq<int>, limit: nat, offset: nat): seq<int> {
    all[Least(offset, |all|)..Least(offset + limit, |all|)]
  }

  /** The ids a listing request answers with; an unknown status is a bad request. */
  ghost function ListEscrows(t: Tables, q: Query): Option<seq<int>> {
    if q.status.Some? && ParseStatus(q.status.value).None? then None
    else
      var status := if q.status.Some? then Some(StatusText(ParseStatus(q.status.value).value)) else None;
      Some(Window(Descending(MatchingIds(t, Filter(q.client, q.provider, status))),
                  EffectiveLimit(q.limit), EffectiveOffset(q.offset)))
  }

  /** The answers to the first `n` pages of a query, one after the other. */
  ghost function Pages(t: Tables, q: Query, n: nat): Option<seq<int>>
    requires n * EffectiveLimit(q.limit) < TWO_63
  {
    if n == 0 then Some([])
    else
      PageStep(n, EffectiveLimit(q.limit));
      var before := Pages(t, q, n - 1);
      var page := ListEscrows(t, q.(offset := Some((n - 1) * EffectiveLimit(q.limit))));
      if before.None? || page.None? then None else Some(before.value + page.value)
  }

  lemma PageStep(n: nat, limit: nat)
    requires n > 0
    ensures 0 <= (n - 1) * limit == n * limit - limit
  {
  }

  lemma WindowExtends(all: seq<int>, limit: nat, from: nat)
    ensures all[..Least(from, |all|)] + Window(all, limit, from) == all[..Least(from + limit, |all|)]
  {
  }

  lemma NothingListed(all: seq<int>)
    ensures all[..Least(0, |all|)] == []
  {
  }

  /** Consecutive pages add up to the front of the listing, without gap or repetition. */
  lemma {:induction false} PagesAreTheFront(t: Tables, q: Query, n: nat)
    requires n * EffectiveLimit(q.limit) < TWO_63
    requires q.status.Some? ==> q.status.value in ESCROW_STATUSES
    ensures var all := Descending(MatchingIds(t, Filter(q.client, q.provider, q.status)));
            Pages(t, q, n) == Some(all[..Least(n * EffectiveLimit(q.limit), |all|)])
  {
    hide Descending, MatchingIds, StatusText, ParseStatus, Window;
    var all := Descending(MatchingIds(t, Filter(q.client, q.provider, q.status)));
    var limit := EffectiveLimit(q.limit);
    if q.status.Some? { StatusesRoundTrip(q.status.value, Created); }
    if n > 0 {
      PageStep(n, limit);
      PagesAreTheFront(t, q, n - 1);
      var from := (n - 1) * limit;
      assert ListEscrows(t, q.(offset := Some(from))) == Some(Window(all, limit, from));
      WindowExtends(all, limit, from);
    } else {
      NothingListed(all);
    }
  }

  /** What the WHERE clause selects, in the columns. */
  lemma MatchingIdsAre(t: Tables, client: Option<string>, provider: Option<string>, status: Option<string>)
    ensures MatchingIds(t, Filter(client, provider, status))
         == set id | && id in t.escrows
                     && (client.Some? ==> t.escrows[id].terms.client == client.value)
                     && (provider.Some? ==> t.escrows[id].terms.provider == provider.value)
                     && (status.Some? ==> t.escrows[id].status == status.value)
  {
  }

  lemma AboveTheRest(ids: set<int>, top: int, x: int)
    requires top in ids && x < top
    ensures |set id <- ids | id > x| == 1 + |set id <- ids - {top} | id > x|
  {
    CountGrows((set id <- ids | id > x), (set id <- ids - {top} | id > x), top, true);
  }

  lemma NoneAbove(ids: set<int>, top: int)
    requires forall id <- ids :: id <= top
    ensures |set id <- ids | id > top| == 0
  {
    assert (set id <- ids | id > top) == {};
  }

  /** An id's place in the listing is the number of greater ones. */
  lemma {:induction false} RankIs(ids: set<int>, k: nat)
    requires k < |Descending(ids)|
    ensures |set id <- ids | id > Descending(ids)[k]| == k
    decreases ids
  {
    hide Descending;
    DescendingListsAll(ids);
    assert ids != {};
    var top := DescendingStep(ids);
    if k == 0 {
      NoneAbove(ids, top);
    } else {
      var rest := Descending(ids - {top});
      var x := rest[k - 1];
      DescendingListsAll(ids - {top});
      assert x in rest;
      RankIs(ids - {top}, k - 1);
      AboveTheRest(ids, top, x);
    }
  }

  /**
   * One page: at most `limit` ids, those of the matching escrows with at least `offset` and fewer than
   * `offset + limit` matching escrows newer than them, each at its place.
   */
  lemma PageIs(t: Tables, q: Query)
    requires q.status.Some? ==> q.status.value in {"created", "funded", "in_progress", "completed", "cancelled"}
    ensures var ids := set id | && id in t.escrows
                                && (q.client.Some? ==> t.escrows[id].terms.client == q.client.value)
                                && (q.provider.Some? ==> t.escrows[id].terms.provider == q.provider.value)
                                && (q.status.Some? ==> t.escrows[id].status == q.status.value);
      var page := ListEscrows(t, q);
      && page.Some?
      && |page.value| == (if EffectiveOffset(q.offset) >= |ids| then 0
                          else if EffectiveOffset(q.offset) + EffectiveLimit(q.limit) >= |ids|
                          then |ids| - EffectiveOffset(q.offset) else EffectiveLimit(q.limit))
      && forall i | 0 <= i < |page.value| ::
           page.value[i] in ids && |set id <- ids | id > page.value[i]| == EffectiveOffset(q.offset) + i
  {
    hide MatchingIds, Descending, EffectiveLimit, EffectiveOffset, StatusText;
    if q.status.Some? { StatusesRoundTrip(q.status.value, Created); }
    MatchingIdsAre(t, q.client, q.provider, q.status);
    var ids := MatchingIds(t, Filter(q.client, q.provider, q.status));
    var all, page := Descending(ids), ListEscrows(t, q).value;
    DescendingListsAll(ids);
    forall i | 0 <= i < |page|
      ensures page[i] in ids && |set id <- ids | id > page[i]| == EffectiveOffset(q.offset) + i
    {
      assert page[i] == all[EffectiveOffset(q.offset) + i];
      RankIs(ids, EffectiveOffset(q.offset) + i);
    }
  }

  /**
   * Enough pages list every matching escrow exactly once, newest id first; a status outside the
   * five is refused whatever the page.
   */
  lemma PagesCoverTheListing(t: Tables, q: Query, n: nat)
    requires n * EffectiveLimit(q.limit) < TWO_63
    requires n * EffectiveLimit(q.limit)
          >= |set id | && id in t.escrows
                       && (q.client.Some? ==> t.escrows[id].terms.client == q.client.value)
                       && (q.provider.Some? ==> t.escrows[id].terms.provider == q.provider.value)
                       && (q.status.Some? ==> t.escrows[id].status == q.status.value)|
    ensures q.status.Some? && q.status.value !in {"created", "funded", "in_progress", "completed", "cancelled"} ==>
              ListEscrows(t, q).None?
    ensures (q.status.Some? ==> q.status.value in {"created", "funded", "in_progress", "completed", "cancelled"}) ==>
              var listed := Pages(t, q, n);
              && listed.Some?
              && (forall i, j | 0 <= i < j < |listed.value| :: listed.value[i] > listed.value[j])
              && (forall id :: id in listed.value <==>
                    && id in t.escrows
                    && (q.client.Some? ==> t.escrows[id].terms.client == q.client.value)
                    && (q.provider.Some? ==> t.escrows[id].terms.provider == q.provider.value)
                    && (q.status.Some? ==> t.escrows[id].status == q.status.value))
  {
    hide MatchingIds, Descending, Pages, EffectiveLimit, StatusText;
    if q.status.Some? { StatusesRoundTrip(q.status.value, Created); }
    MatchingIdsAre(t, q.client, q.provider, q.status);
    if q.status.Some? ==> ParseStatus(q.status.value).Some? {
      PagesAreTheFront(t, q, n);
      var ids := MatchingIds(t, Filter(q.client, q.provider, q.status));
      DescendingListsAll(ids);
      assert Pages(t, q, n).value == Descending(ids);
    }
  }
}
