/** Wallet sign-in challenges (src/auth.rs, src/api/auth.rs): one live challenge an address, used at most once. */
module Challenges {
  import opened Base

  const CHALLENGE_TTL: int := 300

  /** An operation on the store, in the order the lock admitted them; times are the clock readings used. */
  datatype Op =
    | Issued(address: string, nonce: string, at: int)
    | Verified(address: string, nonce: string, at: int, ok: bool)

  /** The last operation on an address. */
  function LastOn(history: seq<Op>, address: string): Option<Op> {
    if history == [] then None
    else
      var last := history[|history| - 1];
      if last.address == address then Some(last) else LastOn(history[..|history| - 1], address)
  }

  /** A nonce is good if the last thing that happened to the address was its issue, less than the lifetime ago. */
  predicate Accepts(history: seq<Op>, address: string, nonce: string, at: int) {
    match LastOn(history, address)
    case Some(Issued(_, n, issuedAt)) => n == nonce && at < issuedAt + CHALLENGE_TTL
    case _ => false
  }

  /** Each recorded verdict is the one the history before it calls for. */
  predicate Faithful(history: seq<Op>) {
    forall i | 0 <= i < |history| && history[i].Verified? ::
      history[i].ok == Accepts(history[..i], history[i].address, history[i].nonce, history[i].at)
  }

  function Issues(history: seq<Op>, address: string): nat {
    if history == [] then 0
    else
      var last := history[|history| - 1];
      Issues(history[..|history| - 1], address) + (if last.Issued? && last.address == address then 1 else 0)
  }

  function Successes(history: seq<Op>, address: string): nat {
    if history == [] then 0
    else
      var last := history[|history| - 1];
      Successes(history[..|history| - 1], address)
      + (if last.Verified? && last.address == address && last.ok then 1 else 0)
  }

  /** Every success uses up an issue of its own, and an open challenge is one not yet used. */
  lemma {:induction false} SuccessesUseUpIssues(history: seq<Op>, address: string)
    requires Faithful(history)
    ensures Successes(history, address) <= Issues(history, address)
    ensures LastOn(history, address).Some? && LastOn(history, address).value.Issued? ==>
              Successes(history, address) < Issues(history, address)
    decreases |history|
  {
    if history == [] {
    } else {
      var n := |history| - 1;
      var before := history[..n];
      forall i | 0 <= i < n && before[i].Verified?
        ensures before[i].ok == Accepts(before[..i], before[i].address, before[i].nonce, before[i].at)
      {
        assert before[..i] == history[..i];
      }
      SuccessesUseUpIssues(before, address);
      assert history[n].Verified? ==>
             history[n].ok == Accepts(history[..n], history[n].address, history[n].nonce, history[n].at);
    }
  }

  /** Right after any verification of an address, every nonce for it is refused. */
  lemma VerificationEmptiesTheSlot(history: seq<Op>, op: Op, nonce: string, at: int)
    requires op.Verified?
    ensures !Accepts(history + [op], op.address, nonce, at)
  {
    assert (history + [op])[|history|] == op;
  }

  lemma LastOnSnoc(history: seq<Op>, op: Op, address: string)
    ensures LastOn(history + [op], address) == if op.address == address then Some(op) else LastOn(history, address)
  {
    assert (history + [op])[..|history|] == history;
  }

  /** What the map holds for an address: the nonce and expiry of a last operation that is an issue, else nothing. */
  predicate SlotFits(challenges: map<string, (string, int)>, history: seq<Op>, address: string) {
    match LastOn(history, address)
    case Some(Issued(_, nonce, at)) => address in challenges && challenges[address] == (nonce, at + CHALLENGE_TTL)
    case _ => address !in challenges
  }

  /** The map holds exactly the challenges the history leaves open. */
  ghost predicate Holds(challenges: map<string, (string, int)>, history: seq<Op>) {
    forall address :: SlotFits(challenges, history, address)
  }

  /** An operation that rewrites its own slot only leaves a map that fits the longer history. */
  lemma HoldsAfter(before: map<string, (string, int)>, after: map<string, (string, int)>, history: seq<Op>, op: Op)
    requires Holds(before, history)
    requires after == if op.Issued? then before[op.address := (op.nonce, op.at + CHALLENGE_TTL)]
                      else before - {op.address}
    ensures Holds(after, history + [op])
  {
    forall address ensures SlotFits(after, history + [op], address) {
      LastOnSnoc(history, op, address);
      assert SlotFits(before, history, address);
    }
  }

  /** The lookup `verify_and_consume` makes is the verdict the history calls for. */
  lemma LookupIsAccepts(challenges: map<string, (string, int)>, history: seq<Op>, address: string, nonce: string,
                        at: int)
    requires Holds(challenges, history)
    ensures Accepts(history, address, nonce, at)
       <==> address in challenges && challenges[address].1 > at && challenges[address].0 == nonce
  {
    assert SlotFits(challenges, history, address);
  }

  lemma FaithfulSnoc(history: seq<Op>, op: Op)
    requires Faithful(history)
    requires op.Verified? ==> op.ok == Accepts(history, op.address, op.nonce, op.at)
    ensures Faithful(history + [op])
  {
    var longer := history + [op];
    forall i | 0 <= i < |longer| && longer[i].Verified?
      ensures longer[i].ok == Accepts(longer[..i], longer[i].address, longer[i].nonce, longer[i].at)
    {
      if i < |history| { assert longer[..i] == history[..i]; } else { assert longer[..i] == history; }
    }
  }

  class ChallengeStore {
    var challenges: map<string, (string, int)>
    ghost var history: seq<Op>

    ghost predicate Valid()
      reads this
    {
      Faithful(history) && Holds(challenges, history)
    }

    constructor ()
      ensures Valid() && history == []
    {
      challenges := map[];
      history := [];
    }

    /** `nonce` is the random value drawn and `now` the clock; a new challenge replaces the old one. */
    method Issue(address: string, nonce: string, now: int)
      requires Valid()
      modifies this
      ensures Valid() && history == old(history) + [Issued(address, nonce, now)]
      ensures Accepts(history, address, nonce, now + 299) && !Accepts(history, address, nonce, now + 300)
      ensures forall n, at :: n != nonce ==> !Accepts(history, address, n, at)
      ensures forall a, n, at :: a != address ==> Accepts(history, a, n, at) == Accepts(old(history), a, n, at)
    {
      hide Faithful, Holds, LastOn;
      challenges := challenges[address := (nonce, now + CHALLENGE_TTL)];
      history := history + [Issued(address, nonce, now)];
      FaithfulSnoc(old(history), Issued(address, nonce, now));
      HoldsAfter(old(challenges), challenges, old(history), Issued(address, nonce, now));
      LastOnSnoc(old(history), Issued(address, nonce, now), address);
      forall a ensures a != address ==> LastOn(history, a) == LastOn(old(history), a) {
        LastOnSnoc(old(history), Issued(address, nonce, now), a);
      }
    }

    /** Accepts the nonce of the last unexpired challenge, and removes the challenge either way. */
    method VerifyAndConsume(address: string, nonce: string, now: int) returns (ok: bool)
      requires Valid()
      modifies this
      ensures Valid()
      ensures ok == Accepts(old(history), address, nonce, now)
      ensures history == old(history) + [Verified(address, nonce, now, ok)]
    {
      hide Faithful, Holds, Accepts, LastOn;
      LookupIsAccepts(challenges, history, address, nonce, now);
      ok := false;
      if address in challenges {
        var (expected, expiresAt) := challenges[address];
        if expiresAt > now { ok := expected == nonce; }
      }
      challenges := challenges - {address};
      history := history + [Verified(address, nonce, now, ok)];
      FaithfulSnoc(old(history), Verified(address, nonce, now, ok));
      HoldsAfter(old(challenges), challenges, old(history), Verified(address, nonce, now, ok));
    }
  }

  /** The issues of an address, counted. */
  lemma {:induction false} IssuesAre(history: seq<Op>, address: string)
    ensures Issues(history, address)
         == |set i | 0 <= i < |history| && history[i].Issued? && history[i].address == address|
    decreases |history|
  {
    var all := set i | 0 <= i < |history| && history[i].Issued? && history[i].address == address;
    if history == [] {
      assert all == {};
    } else {
      var n := |history| - 1;
      var front := history[..n];
      IssuesAre(front, address);
      var before := set i | 0 <= i < n && front[i].Issued? && front[i].address == address;
      CountGrows(all, before, n, history[n].Issued? && history[n].address == address);
    }
  }

  datatype SignInError = Unauthorized | BadRequest | Internal

  /** Tokens issued to an address. */
  function TokensTo(tokens: seq<string>, address: string): nat {
    if tokens == [] then 0
    else TokensTo(tokens[..|tokens| - 1], address) + (if tokens[|tokens| - 1] == address then 1 else 0)
  }

  lemma {:induction false} TokensAre(tokens: seq<string>, address: string)
    ensures TokensTo(tokens, address) == |set i | 0 <= i < |tokens| && tokens[i] == address|
    decreases |tokens|
  {
    var all := set i | 0 <= i < |tokens| && tokens[i] == address;
    if tokens == [] {
      assert all == {};
    } else {
      var n := |tokens| - 1;
      var front := tokens[..n];
      TokensAre(front, address);
      var before := set i | 0 <= i < n && front[i] == address;
      CountGrows(all, before, n, tokens[n] == address);
    }
  }

  /** Each address has earned its tokens and its requests still being answered by successful verifications. */
  ghost predicate Earned(tokens: seq<string>, answering: multiset<string>, history: seq<Op>) {
    forall address :: TokensTo(tokens, address) + answering[address] <= Successes(history, address)
  }

  /** A successful verification allows one more request to be answered; any other operation none. */
  lemma EarnedAfter(tokens: seq<string>, answering: multiset<string>, history: seq<Op>, op: Op)
    requires Earned(tokens, answering, history)
    ensures Earned(tokens, answering, history + [op])
    ensures op.Verified? && op.ok ==> Earned(tokens, answering + multiset{op.address}, history + [op])
  {
    var longer := history + [op];
    assert longer[..|history|] == history;
    forall address
      ensures TokensTo(tokens, address) + answering[address] <= Successes(longer, address)
      ensures op.Verified? && op.ok ==>
                TokensTo(tokens, address) + (answering + multiset{op.address})[address] <= Successes(longer, address)
    {
      assert TokensTo(tokens, address) + answering[address] <= Successes(history, address);
    }
  }

  /** An answer turns a request being answered into a token, or into nothing. */
  lemma EarnedAnswer(tokens: seq<string>, answering: multiset<string>, history: seq<Op>, address: string)
    requires Earned(tokens, answering, history) && address in answering
    ensures Earned(tokens + [address], answering - multiset{address}, history)
    ensures Earned(tokens, answering - multiset{address}, history)
  {
    var more, left := tokens + [address], answering - multiset{address};
    assert more[..|tokens|] == tokens;
    forall a
      ensures TokensTo(more, a) + left[a] <= Successes(history, a)
      ensures TokensTo(tokens, a) + left[a] <= Successes(history, a)
    {
      assert TokensTo(tokens, a) + answering[a] <= Successes(history, a);
    }
  }

  /** The sign-in handlers; requests run side by side, taking turns between consuming a challenge and answering. */
  class SignIn {
    const store: ChallengeStore
    /** The address of every token handed out, in order. */
    var tokens: seq<string>
    /** Requests whose challenge was accepted and that have not been answered. */
    ghost var answering: multiset<string>

    ghost predicate Valid()
      reads this, store
    {
      store.Valid() && Earned(tokens, answering, store.history)
    }

    constructor ()
      ensures Valid() && tokens == [] && answering == multiset{} && fresh(store)
    {
      store := new ChallengeStore();
      tokens := [];
      answering := multiset{};
    }

    /** `validAddress` is the strkey check on the requested address. */
    method Challenge(address: string, validAddress: bool, nonce: string, now: int)
      returns (r: Result<string, SignInError>)
      requires Valid()
      modifies store
      ensures Valid()
      ensures r == if validAddress then Ok(nonce) else Err(BadRequest)
      ensures store.history == old(store.history) + (if validAddress then [Issued(address, nonce, now)] else [])
    {
      if !validAddress { return Err(BadRequest); }
      store.Issue(address, nonce, now);
      EarnedAfter(tokens, answering, old(store.history), Issued(address, nonce, now));
      return Ok(nonce);
    }

    /** The first half of the handler, under the lock: consumes the challenge. */
    method Consume(address: string, nonce: string, now: int) returns (ok: bool)
      requires Valid()
      modifies this`answering, store
      ensures Valid()
      ensures ok == Accepts(old(store.history), address, nonce, now)
      ensures store.history == old(store.history) + [Verified(address, nonce, now, ok)]
      ensures answering == old(answering) + (if ok then multiset{address} else multiset{})
      ensures forall n, at :: !Accepts(store.history, address, n, at)
    {
      hide Earned, Accepts, ChallengeStore.Valid;
      ok := store.VerifyAndConsume(address, nonce, now);
      EarnedAfter(tokens, answering, old(store.history), Verified(address, nonce, now, ok));
      forall n, at ensures !Accepts(store.history, address, n, at) {
        VerificationEmptiesTheSlot(old(store.history), Verified(address, nonce, now, ok), n, at);
      }
      if ok { answering := answering + multiset{address}; }
      assert answering == old(answering) + (if ok then multiset{address} else multiset{});
    }

    /**
     * The second half, after any number of other requests: decodes and checks the signature, then
     * issues the token; the last three arguments say whether those library steps succeed.
     */
    method Answer(address: string, signatureDecodes: bool, signature: Result<(), SignInError>, tokenEncodes: bool)
      returns (r: Result<string, SignInError>)
      requires Valid() && address in answering
      modifies this
      ensures Valid()
      ensures r.Ok? <==> signatureDecodes && signature.Ok? && tokenEncodes
      ensures r.Ok? ==> r.value == address
      ensures !signatureDecodes ==> r == Err(BadRequest)
      ensures signatureDecodes && signature.Err? ==> r == Err(signature.error)
      ensures tokens == old(tokens) + (if r.Ok? then [address] else [])
      ensures answering == old(answering) - multiset{address}
    {
      hide Earned, ChallengeStore.Valid;
      EarnedAnswer(tokens, answering, store.history, address);
      answering := answering - multiset{address};
      if !signatureDecodes { return Err(BadRequest); }
      if signature.Err? { return Err(signature.error); }
      if !tokenEncodes { return Err(Internal); }
      tokens := tokens + [address];
      return Ok(address);
    }

    /** The handler run on its own: a rejected challenge is unauthorized. */
    method Verify(address: string, nonce: string, now: int, signatureDecodes: bool,
                  signature: Result<(), SignInError>, tokenEncodes: bool)
      returns (r: Result<string, SignInError>)
      requires Valid()
      modifies this, store
      ensures Valid()
      ensures var ok := Accepts(old(store.history), address, nonce, now);
        && store.history == old(store.history) + [Verified(address, nonce, now, ok)]
        && (r.Ok? <==> ok && signatureDecodes && signature.Ok? && tokenEncodes)
        && (r.Ok? ==> r.value == address)
        && (!ok ==> r == Err(Unauthorized))
        && tokens == old(tokens) + (if r.Ok? then [address] else [])
      ensures answering == old(answering)
    {
      hide Earned, Accepts, ChallengeStore.Valid;
      var ok := Consume(address, nonce, now);
      if !ok { return Err(Unauthorized); }
      r := Answer(address, signatureDecodes, signature, tokenEncodes);
    }

    /** In every reachable state, requests in progress included, an address has had no more tokens than challenges. */
    lemma TokensNeverExceedIssues(address: string)
      requires Valid()
      ensures |set i | 0 <= i < |tokens| && tokens[i] == address| + answering[address]
           <= |set i | 0 <= i < |store.history| && store.history[i].Issued? && store.history[i].address == address|
    {
      SuccessesUseUpIssues(store.history, address);
      IssuesAre(store.history, address);
      TokensAre(tokens, address);
    }
  }
}
