/** Sequences of `cef` transactions, one instruction each, and what holds along
    them: request ids are handed out in order and never reused, a request pays
    out at most once, and the records only move forward (the model keeps an
    account whose lamports reach zero, which the runtime would delete). */
module CefTraces {
  import opened Solana
  import opened Cef
  import opened CefInvariant

  datatype Instruction =
    | InitializeFundIx(creator: Key, fund: Key, name: Utf8, description: Utf8)
    | DonateIx(donor: Key, fund: Key, amount: u64)
    | CreateWithdrawalRequestIx(maintainer: Key, fund: Key, request: Key, amount: u64, recipient: Key, reason: Utf8)
    | ExecuteWithdrawalIx(maintainer: Key, fund: Key, recipient: Key, request: Key)

  /** The program's entry point: dispatch to the handler. */
  function Process(s: State, ix: Instruction): (r: Result<State, Error>)
    requires Bounded(s.lamports)
    ensures r.Ok? ==> Total(r.value.lamports) == Total(s.lamports)
  {
    match ix
    case InitializeFundIx(creator, fund, name, description) =>
      InitializeFund(s, creator, fund, name, description)
    case DonateIx(donor, fund, amount) =>
      Donate(s, donor, fund, amount)
    case CreateWithdrawalRequestIx(maintainer, fund, request, amount, recipient, reason) =>
      CreateWithdrawalRequest(s, maintainer, fund, request, amount, recipient, reason)
    case ExecuteWithdrawalIx(maintainer, fund, recipient, request) =>
      ExecuteWithdrawal(s, maintainer, fund, recipient, request)
  }

  /** A transaction: the instruction's new state, or the old one if it fails. */
  function Step(s: State, ix: Instruction): (t: State)
    requires Bounded(s.lamports)
    ensures Bounded(t.lamports) && Total(t.lamports) == Total(s.lamports)
    ensures Process(s, ix).Err? ==> t == s
  {
    var r := Process(s, ix);
    if r.Ok? then r.value else s
  }

  function Run(s: State, ixs: seq<Instruction>): (t: State)
    requires Bounded(s.lamports)
    ensures Bounded(t.lamports) && Total(t.lamports) == Total(s.lamports)
    decreases |ixs|
  {
    if ixs == [] then s else Run(Step(s, ixs[0]), ixs[1..])
  }

  lemma StepPreservesValid(s: State, ix: Instruction)
    requires Valid(s)
    ensures Valid(Step(s, ix))
  {
    match ix
    case InitializeFundIx(creator, fund, name, description) =>
      InitializeFundPreservesValid(s, creator, fund, name, description);
    case DonateIx(donor, fund, amount) =>
      DonatePreservesValid(s, donor, fund, amount);
    case CreateWithdrawalRequestIx(maintainer, fund, request, amount, recipient, reason) =>
      CreateWithdrawalRequestPreservesValid(s, maintainer, fund, request, amount, recipient, reason);
    case ExecuteWithdrawalIx(maintainer, fund, recipient, request) =>
      ExecuteWithdrawalPreservesValid(s, maintainer, fund, recipient, request);
  }

  lemma {:induction false} RunPreservesValid(s: State, ixs: seq<Instruction>)
    requires Valid(s)
    ensures Valid(Run(s, ixs))
    decreases |ixs|
  {
    if ixs != [] {
      StepPreservesValid(s, ixs[0]);
      RunPreservesValid(Step(s, ixs[0]), ixs[1..]);
    }
  }

  // ---------------------------------------------------------------------------
  // Records only move forward
  // ---------------------------------------------------------------------------

  /** From `s` to `t` no record disappeared; a fund's creator, name and
      description stayed as they were and its counters did not fall; a
      request changed in nothing but `executed`, which never went back to false. */
  ghost predicate Keeps(s: State, t: State)
  {
    && (forall k | k in s.funds ::
          && k in t.funds
          && t.funds[k].creator == s.funds[k].creator
          && t.funds[k].name == s.funds[k].name
          && t.funds[k].description == s.funds[k].description
          && t.funds[k].totalDonations >= s.funds[k].totalDonations
          && t.funds[k].donationCount >= s.funds[k].donationCount
          && t.funds[k].requestCount >= s.funds[k].requestCount)
    && (forall k | k in s.requests ::
          && k in t.requests
          && t.requests[k] == s.requests[k].(executed := t.requests[k].executed)
          && (s.requests[k].executed ==> t.requests[k].executed))
  }

  lemma StepKeeps(s: State, ix: Instruction)
    requires Bounded(s.lamports)
    ensures Keeps(s, Step(s, ix))
  {
    match ix
    case InitializeFundIx(creator, fund, name, description) =>
      InitializeFundKeeps(s, creator, fund, name, description);
    case DonateIx(donor, fund, amount) =>
      DonateKeeps(s, donor, fund, amount);
    case CreateWithdrawalRequestIx(maintainer, fund, request, amount, recipient, reason) =>
      CreateWithdrawalRequestKeeps(s, maintainer, fund, request, amount, recipient, reason);
    case ExecuteWithdrawalIx(maintainer, fund, recipient, request) =>
      ExecuteWithdrawalKeeps(s, maintainer, fund, recipient, request);
  }

  lemma InitializeFundKeeps(s: State, creator: Key, fund: Key, name: Utf8, description: Utf8)
    ensures Keeps(s, s)
    ensures InitializeFund(s, creator, fund, name, description).Ok? ==>
      Keeps(s, InitializeFund(s, creator, fund, name, description).value)
  {
  }

  lemma DonateKeeps(s: State, donor: Key, fund: Key, amount: u64)
    requires Bounded(s.lamports)
    ensures Keeps(s, s)
    ensures Donate(s, donor, fund, amount).Ok? ==> Keeps(s, Donate(s, donor, fund, amount).value)
  {
  }

  lemma CreateWithdrawalRequestKeeps(
    s: State, maintainer: Key, fund: Key, request: Key, amount: u64, recipient: Key, reason: Utf8)
    ensures Keeps(s, s)
    ensures CreateWithdrawalRequest(s, maintainer, fund, request, amount, recipient, reason).Ok? ==>
      Keeps(s, CreateWithdrawalRequest(s, maintainer, fund, request, amount, recipient, reason).value)
  {
  }

  lemma ExecuteWithdrawalKeeps(s: State, maintainer: Key, fund: Key, recipient: Key, request: Key)
    requires Bounded(s.lamports)
    ensures Keeps(s, s)
    ensures ExecuteWithdrawal(s, maintainer, fund, recipient, request).Ok? ==>
      Keeps(s, ExecuteWithdrawal(s, maintainer, fund, recipient, request).value)
  {
    var r := ExecuteWithdrawal(s, maintainer, fund, recipient, request);
    if r.Ok? {
      var t := r.value;
      assert t.funds == s.funds;
      assert t.requests == s.requests[request := s.requests[request].(executed := true)];
    }
  }

  lemma {:induction false} RunKeeps(s: State, ixs: seq<Instruction>)
    requires Bounded(s.lamports)
    ensures Keeps(s, Run(s, ixs))
    decreases |ixs|
  {
    if ixs != [] {
      StepKeeps(s, ixs[0]);
      RunKeeps(Step(s, ixs[0]), ixs[1..]);
    }
  }

  // ---------------------------------------------------------------------------
  // Requests
  // ---------------------------------------------------------------------------

  /** Whatever runs after a request is executed, executing it again fails:
      with `AlreadyExecuted` when the creator asks, `Unauthorized` otherwise. */
  lemma ExecuteSucceedsOnce(
    s: State, maintainer: Key, fund: Key, recipient: Key, request: Key,
    ixs: seq<Instruction>, maintainer': Key, recipient': Key)
    requires Bounded(s.lamports)
    requires ExecuteWithdrawal(s, maintainer, fund, recipient, request).Ok?
    ensures var t := Run(ExecuteWithdrawal(s, maintainer, fund, recipient, request).value, ixs);
      ExecuteWithdrawal(t, maintainer', fund, recipient', request) ==
        if maintainer' == s.funds[fund].creator then Err(AlreadyExecuted) else Err(Unauthorized)
  {
    var s1 := ExecuteWithdrawal(s, maintainer, fund, recipient, request).value;
    RunKeeps(s1, ixs);
  }

  /** Along any run from a valid state each request is paid out at most once,
      and exactly once if it ends up executed. */
  lemma PaidOutAtMostOnce(s: State, ixs: seq<Instruction>, request: Key)
    requires Valid(s)
    ensures var t := Run(s, ixs);
      && ExecutionCount(t.events, request) <= 1
      && (request in t.requests ==> (ExecutionCount(t.events, request) == 1 <==> t.requests[request].executed))
  {
    var t := Run(s, ixs);
    RunPreservesValid(s, ixs);
    if request in t.requests {
      assert RequestWellFormed(t, request);
    }
  }

  /** Along any run from a valid state, a fund that has handed out `n` request
      ids has logged the ids 0 .. n - 1 in creation order, and request `id`
      is stored, under that id, at the address derived from the fund and `id`. */
  lemma RequestIdsInOrder(s: State, ixs: seq<Instruction>, fund: Key)
    requires Valid(s)
    ensures var t := Run(s, ixs);
      fund in t.funds ==>
        && RequestedIds(t.events, fund) == Iota(t.funds[fund].requestCount)
        && forall id: u64 | id < t.funds[fund].requestCount ::
             && RequestAddress(fund, id) in t.requests
             && t.requests[RequestAddress(fund, id)].id == id
             && t.requests[RequestAddress(fund, id)].fund == fund
  {
    var t := Run(s, ixs);
    RunPreservesValid(s, ixs);
    if fund in t.funds {
      assert FundWellFormed(t, fund);
      forall id: u64 | id < t.funds[fund].requestCount
        ensures t.requests[RequestAddress(fund, id)].id == id && t.requests[RequestAddress(fund, id)].fund == fund
      {
        var k := RequestAddress(fund, id);
        assert RequestWellFormed(t, k);
        RequestAddressInjective(t.requests[k].fund, t.requests[k].id, fund, id);
      }
    }
  }

  /** The `recipient` account of `execute_withdrawal` is the caller's choice:
      any account receives the payout, and the event still reports the
      recipient the request recorded. */
  lemma RecipientIsCallersChoice(s: State, maintainer: Key, fund: Key, recipient: Key, request: Key, other: Key)
    requires Bounded(s.lamports)
    requires ExecuteWithdrawal(s, maintainer, fund, recipient, request).Ok?
    ensures ExecuteWithdrawal(s, maintainer, fund, other, request).Ok?
    ensures ExecuteWithdrawal(s, maintainer, fund, other, request).value.events ==
      ExecuteWithdrawal(s, maintainer, fund, recipient, request).value.events
  {
  }

  // ---------------------------------------------------------------------------
  // A complete round
  // ---------------------------------------------------------------------------

  /** On a ledger with no records yet, a creator who holds at least 1000
      lamports runs four transactions: it opens a fund and donates 1000 to it,
      then requests 400 for a recipient and executes the request: the fund keeps 600, the recipient
      gains 400, the creator is down 1000, the request is executed and exactly
      one `WithdrawalExecuted` event names it. */
  lemma DonateRequestExecute(s: State, creator: Key, recipient: Key, name: Utf8, description: Utf8, reason: Utf8)
    requires Bounded(s.lamports) && s.funds == map[] && s.requests == map[]
    requires creator != recipient && recipient.Keypair? && creator.Keypair?
    requires Balance(s.lamports, creator) >= 1000
    requires |name| <= MAX_NAME_LEN && |description| <= MAX_DESCRIPTION_LEN && |reason| <= MAX_REASON_LEN
    requires ExecutionCount(s.events, RequestAddress(FundAddress(creator), 0)) == 0
    ensures
      var fund := FundAddress(creator);
      var request := RequestAddress(fund, 0);
      var t := Step(Step(Step(Step(s,
        InitializeFundIx(creator, fund, name, description)),
        DonateIx(creator, fund, 1000)),
        CreateWithdrawalRequestIx(creator, fund, request, 400, recipient, reason)),
        ExecuteWithdrawalIx(creator, fund, recipient, request));
      && Balance(t.lamports, fund) == Balance(s.lamports, fund) + 600
      && Balance(t.lamports, recipient) == Balance(s.lamports, recipient) + 400
      && Balance(t.lamports, creator) == Balance(s.lamports, creator) - 1000
      && fund in t.funds && t.funds[fund].totalDonations == 1000
      && request in t.requests && t.requests[request].executed
      && ExecutionCount(t.events, request) == 1
  {
    var fund := FundAddress(creator);
    var request := RequestAddress(fund, 0);
    OpenAndDonate(s, creator, name, description, recipient);
    FundAndRequestAddressesDiffer(creator, fund, 0);
    var s2 := Step(Step(s, InitializeFundIx(creator, fund, name, description)), DonateIx(creator, fund, 1000));
    RequestAndExecute(s2, creator, recipient, reason, creator);
  }

  /** The first half of the round: the fund is opened and receives 1000. */
  lemma OpenAndDonate(s: State, creator: Key, name: Utf8, description: Utf8, other: Key)
    requires Bounded(s.lamports) && s.funds == map[] && s.requests == map[]
    requires creator.Keypair? && Balance(s.lamports, creator) >= 1000
    requires |name| <= MAX_NAME_LEN && |description| <= MAX_DESCRIPTION_LEN
    ensures
      var fund := FundAddress(creator);
      var t := Step(Step(s, InitializeFundIx(creator, fund, name, description)), DonateIx(creator, fund, 1000));
      && t.funds == map[fund := Fund(creator, name, description, 1000, 1, 0)]
      && t.requests == map[]
      && Balance(t.lamports, fund) == Balance(s.lamports, fund) + 1000
      && Balance(t.lamports, creator) == Balance(s.lamports, creator) - 1000
      && (other != creator && other != fund ==> Balance(t.lamports, other) == Balance(s.lamports, other))
      && ExecutionCount(t.events, RequestAddress(fund, 0)) == ExecutionCount(s.events, RequestAddress(fund, 0))
  {
    var fund := FundAddress(creator);
    RoundOpen(s, creator, name, description);
    var s1 := Step(s, InitializeFundIx(creator, fund, name, description));
    RoundDonate(s1, creator, fund, 1000, RequestAddress(fund, 0));
  }

  /** The second half of the round: request 0 for 400 is filed and executed. */
  lemma RequestAndExecute(s: State, creator: Key, recipient: Key, reason: Utf8, other: Key)
    requires Bounded(s.lamports) && creator.Keypair? && recipient.Keypair? && creator != recipient
    requires FundAddress(creator) in s.funds && s.funds[FundAddress(creator)].creator == creator
    requires s.funds[FundAddress(creator)].requestCount == 0 && s.requests == map[]
    requires RequestAddress(FundAddress(creator), 0) !in s.funds
    requires Balance(s.lamports, FundAddress(creator)) >= 400 && |reason| <= MAX_REASON_LEN
    ensures
      var fund := FundAddress(creator);
      var request := RequestAddress(fund, 0);
      var t := Step(Step(s, CreateWithdrawalRequestIx(creator, fund, request, 400, recipient, reason)),
                    ExecuteWithdrawalIx(creator, fund, recipient, request));
      && t.funds == s.funds[fund := s.funds[fund].(requestCount := 1)]
      && request in t.requests && t.requests[request].executed
      && Balance(t.lamports, fund) == Balance(s.lamports, fund) - 400
      && Balance(t.lamports, recipient) == Balance(s.lamports, recipient) + 400
      && (other != recipient && other != fund ==> Balance(t.lamports, other) == Balance(s.lamports, other))
      && ExecutionCount(t.events, request) == ExecutionCount(s.events, request) + 1
  {
    var fund := FundAddress(creator);
    var request := RequestAddress(fund, 0);
    FundAndRequestAddressesDiffer(creator, fund, 0);
    RoundRequest(s, creator, fund, 400, recipient, reason);
    var s3 := Step(s, CreateWithdrawalRequestIx(creator, fund, request, 400, recipient, reason));
    RoundExecute(s3, creator, fund, recipient, request);
  }

  /** The creator opens a fund at its derived address. */
  lemma RoundOpen(s: State, creator: Key, name: Utf8, description: Utf8)
    requires Bounded(s.lamports) && !Occupied(s, FundAddress(creator))
    requires |name| <= MAX_NAME_LEN && |description| <= MAX_DESCRIPTION_LEN
    ensures var fund := FundAddress(creator);
      var t := Step(s, InitializeFundIx(creator, fund, name, description));
      && IsFundAccount(t, fund)
      && t.funds == s.funds[fund := Fund(creator, name, description, 0, 0, 0)]
      && t.requests == s.requests
      && t.lamports == s.lamports
      && ExecutionCount(t.events, RequestAddress(fund, 0)) == ExecutionCount(s.events, RequestAddress(fund, 0))
  {
    var fund := FundAddress(creator);
    ExecutionCountSnoc(s.events, FundInitialized(fund, creator, name), RequestAddress(fund, 0));
  }

  /** A donor with the lamports gives them to a fund whose counters have room. */
  lemma RoundDonate(s: State, donor: Key, fund: Key, amount: u64, request: Key)
    requires Bounded(s.lamports) && IsFundAccount(s, fund) && donor != fund
    requires 0 < amount <= Balance(s.lamports, donor)
    requires s.funds[fund].totalDonations + amount <= U64_MAX && s.funds[fund].donationCount < U64_MAX
    ensures var t := Step(s, DonateIx(donor, fund, amount));
      && IsFundAccount(t, fund)
      && t.funds == s.funds[fund := s.funds[fund].(
           totalDonations := s.funds[fund].totalDonations + amount,
           donationCount := s.funds[fund].donationCount + 1)]
      && t.requests == s.requests
      && Balance(t.lamports, donor) == Balance(s.lamports, donor) - amount
      && Balance(t.lamports, fund) == Balance(s.lamports, fund) + amount
      && (forall k :: k != donor && k != fund ==> Balance(t.lamports, k) == Balance(s.lamports, k))
      && ExecutionCount(t.events, request) == ExecutionCount(s.events, request)
  {
    ExecutionCountSnoc(s.events, DonationMade(fund, donor, amount), request);
  }

  /** The creator files the fund's next request. */
  lemma RoundRequest(s: State, maintainer: Key, fund: Key, amount: u64, recipient: Key, reason: Utf8)
    requires Bounded(s.lamports) && IsFundAccount(s, fund)
    requires !Occupied(s, RequestAddress(fund, s.funds[fund].requestCount))
    requires 0 < amount && |reason| <= MAX_REASON_LEN
    requires maintainer == s.funds[fund].creator && s.funds[fund].requestCount < U64_MAX
    ensures var f := s.funds[fund];
      var request := RequestAddress(fund, f.requestCount);
      var t := Step(s, CreateWithdrawalRequestIx(maintainer, fund, request, amount, recipient, reason));
      && IsFundAccount(t, fund)
      && t.funds == s.funds[fund := f.(requestCount := f.requestCount + 1)]
      && t.requests == s.requests[request := Request(f.requestCount, fund, amount, recipient, reason, maintainer, false)]
      && IsRequestAccount(t, fund, request)
      && t.lamports == s.lamports
      && ExecutionCount(t.events, request) == ExecutionCount(s.events, request)
  {
    var f := s.funds[fund];
    var request := RequestAddress(fund, f.requestCount);
    ExecutionCountSnoc(s.events, WithdrawalRequested(fund, request, f.requestCount, amount, recipient, maintainer), request);
  }

  /** The creator executes a pending request the fund can pay. */
  lemma RoundExecute(s: State, maintainer: Key, fund: Key, recipient: Key, request: Key)
    requires Bounded(s.lamports) && ExecuteAccountsOk(s, fund, request) && recipient != fund
    requires maintainer == s.funds[fund].creator && !s.requests[request].executed
    requires 0 < s.requests[request].amount <= Balance(s.lamports, fund)
    ensures var q := s.requests[request];
      var t := Step(s, ExecuteWithdrawalIx(maintainer, fund, recipient, request));
      && t.funds == s.funds
      && request in t.requests && t.requests[request] == q.(executed := true)
      && Balance(t.lamports, fund) == Balance(s.lamports, fund) - q.amount
      && Balance(t.lamports, recipient) == Balance(s.lamports, recipient) + q.amount
      && (forall k :: k != fund && k != recipient ==> Balance(t.lamports, k) == Balance(s.lamports, k))
      && ExecutionCount(t.events, request) == ExecutionCount(s.events, request) + 1
  {
    var q := s.requests[request];
    ExecutionCountSnoc(s.events, WithdrawalExecuted(fund, request, q.id, q.amount, q.recipient, maintainer), request);
  }
}
