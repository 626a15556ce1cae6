/** What every state the `cef` program reaches satisfies, and the proof that
    each of its four instructions keeps it. */
module CefInvariant {
  import opened Solana
  import opened Cef

  // ---------------------------------------------------------------------------
  // Views of the event log
  // ---------------------------------------------------------------------------

  /** 0, 1, ..., n - 1 */
  function Iota(n: nat): (ids: seq<nat>)
    ensures |ids| == n
    ensures forall i :: 0 <= i < n ==> ids[i] == i
  {
    if n == 0 then [] else Iota(n - 1) + [n - 1]
  }

  /** The ids of the `WithdrawalRequested` events of `fund`, oldest first. */
  function RequestedIds(events: seq<Event>, fund: Key): seq<nat>
  {
    if events == [] then []
    else
      var e := events[|events| - 1];
      RequestedIds(events[..|events| - 1], fund) + (if e.WithdrawalRequested? && e.fund == fund then [e.id] else [])
  }

  /** How many `WithdrawalExecuted` events name `request`. */
  function ExecutionCount(events: seq<Event>, request: Key): nat
  {
    if events == [] then 0
    else
      var e := events[|events| - 1];
      ExecutionCount(events[..|events| - 1], request) + (if e.WithdrawalExecuted? && e.request == request then 1 else 0)
  }

  lemma RequestedIdsSnoc(events: seq<Event>, e: Event, fund: Key)
    ensures RequestedIds(events + [e], fund) ==
      RequestedIds(events, fund) + (if e.WithdrawalRequested? && e.fund == fund then [e.id] else [])
  {
    assert (events + [e])[..|events|] == events;
  }

  lemma ExecutionCountSnoc(events: seq<Event>, e: Event, request: Key)
    ensures ExecutionCount(events + [e], request) ==
      ExecutionCount(events, request) + (if e.WithdrawalExecuted? && e.request == request then 1 else 0)
  {
    assert (events + [e])[..|events|] == events;
  }

  // ---------------------------------------------------------------------------
  // The invariant
  // ---------------------------------------------------------------------------

  /** A fund lives at its creator's derived address, its strings respect their
      bounds, and its `WithdrawalRequested` events carry the ids
      0 .. request_count - 1 in order. */
  ghost predicate FundWellFormed(s: State, k: Key)
    requires k in s.funds
  {
    var f := s.funds[k];
    && k == FundAddress(f.creator)
    && |f.name| <= MAX_NAME_LEN
    && |f.description| <= MAX_DESCRIPTION_LEN
    && RequestedIds(s.events, k) == Iota(f.requestCount)
  }

  /** A request lives at the address derived from its fund and id, its id is
      below the fund's counter, it was created by the fund's creator with a
      positive amount, and it was executed once if marked executed, else never. */
  ghost predicate RequestWellFormed(s: State, k: Key)
    requires k in s.requests
  {
    var q := s.requests[k];
    && k == RequestAddress(q.fund, q.id)
    && q.fund in s.funds
    && q.id < s.funds[q.fund].requestCount
    && q.amount > 0
    && |q.reason| <= MAX_REASON_LEN
    && q.createdBy == s.funds[q.fund].creator
    && ExecutionCount(s.events, k) == (if q.executed then 1 else 0)
  }

  ghost predicate Valid(s: State)
  {
    && Bounded(s.lamports)
    && (forall k | k in s.funds :: FundWellFormed(s, k))
    && (forall k | k in s.requests :: RequestWellFormed(s, k))
    // every id below a fund's counter names a stored request
    && (forall f, id: u64 | f in s.funds && id < s.funds[f].requestCount :: RequestAddress(f, id) in s.requests)
    && (forall k | k !in s.funds :: RequestedIds(s.events, k) == [])
    && (forall k | k !in s.requests :: ExecutionCount(s.events, k) == 0)
  }

  /** The state before the program's first instruction. */
  function Genesis(lamports: map<Key, u64>): State
  {
    State(lamports, map[], map[], [])
  }

  lemma GenesisValid(lamports: map<Key, u64>)
    requires Bounded(lamports)
    ensures Valid(Genesis(lamports))
  {
  }

  // ---------------------------------------------------------------------------
  // Consequences
  // ---------------------------------------------------------------------------

  /** The address of a fund's next request is always free, so `init` of the
      request account never fails on a reachable state. */
  lemma NextRequestAddressFree(s: State, fund: Key)
    requires Valid(s) && fund in s.funds
    ensures !Occupied(s, RequestAddress(fund, s.funds[fund].requestCount))
  {
    var a := RequestAddress(fund, s.funds[fund].requestCount);
    if a in s.requests {
      var q := s.requests[a];
      assert RequestWellFormed(s, a);
      RequestAddressInjective(q.fund, q.id, fund, s.funds[fund].requestCount);
      assert false;
    }
    if a in s.funds {
      assert FundWellFormed(s, a);
      FundAndRequestAddressesDiffer(s.funds[a].creator, fund, s.funds[fund].requestCount);
      assert false;
    }
  }

  /** A stored fund always passes its seeds constraint. */
  lemma FundAtItsAddress(s: State, fund: Key)
    requires Valid(s) && fund in s.funds
    ensures IsFundAccount(s, fund)
  {
    assert FundWellFormed(s, fund);
  }

  /** At most one fund per creator. */
  lemma OneFundPerCreator(s: State, k1: Key, k2: Key)
    requires Valid(s) && k1 in s.funds && k2 in s.funds
    requires s.funds[k1].creator == s.funds[k2].creator
    ensures k1 == k2
  {
    assert FundWellFormed(s, k1) && FundWellFormed(s, k2);
  }

  /** A request account checked against a fund belongs to that fund. */
  lemma RequestAccountBelongsToFund(s: State, fund: Key, request: Key)
    requires Valid(s) && IsRequestAccount(s, fund, request)
    ensures s.requests[request].fund == fund
  {
    var q := s.requests[request];
    assert RequestWellFormed(s, request);
    RequestAddressInjective(q.fund, q.id, fund, q.id);
  }

  /** Every stored request carries a positive amount: creation refuses zero
      and no instruction rewrites the amount afterwards. So `InvalidAmount`
      cannot stop `execute_withdrawal` on a reachable state. */
  lemma StoredRequestAmountPositive(s: State, request: Key)
    requires Valid(s) && request in s.requests
    ensures s.requests[request].amount > 0
  {
    assert RequestWellFormed(s, request);
  }

  /** Every stored record fits the space its `init` reserved: the strings of
      a fund and the reason of a request stay within their bounds. */
  lemma StoredRecordsFit(s: State, fund: Key, request: Key)
    requires Valid(s)
    ensures fund in s.funds ==>
      |s.funds[fund].name| <= MAX_NAME_LEN && |s.funds[fund].description| <= MAX_DESCRIPTION_LEN
      && FundEncodedSize(s.funds[fund]) <= FUND_MAX_SIZE
    ensures request in s.requests ==>
      |s.requests[request].reason| <= MAX_REASON_LEN && RequestEncodedSize(s.requests[request]) <= REQUEST_MAX_SIZE
  {
    if fund in s.funds {
      assert FundWellFormed(s, fund);
    }
    if request in s.requests {
      assert RequestWellFormed(s, request);
    }
  }

  // ---------------------------------------------------------------------------
  // Preservation
  // ---------------------------------------------------------------------------

  lemma InitializeFundPreservesValid(s: State, creator: Key, fund: Key, name: Utf8, description: Utf8)
    requires Valid(s)
    ensures InitializeFund(s, creator, fund, name, description).Ok? ==>
      Valid(InitializeFund(s, creator, fund, name, description).value)
  {
    var r := InitializeFund(s, creator, fund, name, description);
    if r.Ok? {
      var t := r.value;
      var e := FundInitialized(fund, creator, name);
      forall k ensures RequestedIds(t.events, k) == RequestedIds(s.events, k) {
        RequestedIdsSnoc(s.events, e, k);
      }
      forall k ensures ExecutionCount(t.events, k) == ExecutionCount(s.events, k) {
        ExecutionCountSnoc(s.events, e, k);
      }
      forall k | k in t.funds ensures FundWellFormed(t, k) {
        if k != fund {
          assert FundWellFormed(s, k);
        }
      }
      forall k | k in t.requests ensures RequestWellFormed(t, k) {
        assert RequestWellFormed(s, k);
      }
    }
  }

  lemma DonatePreservesValid(s: State, donor: Key, fund: Key, amount: u64)
    requires Valid(s)
    ensures Donate(s, donor, fund, amount).Ok? ==> Valid(Donate(s, donor, fund, amount).value)
  {
    var r := Donate(s, donor, fund, amount);
    if r.Ok? {
      var t := r.value;
      var e := DonationMade(fund, donor, amount);
      forall k ensures RequestedIds(t.events, k) == RequestedIds(s.events, k) {
        RequestedIdsSnoc(s.events, e, k);
      }
      forall k ensures ExecutionCount(t.events, k) == ExecutionCount(s.events, k) {
        ExecutionCountSnoc(s.events, e, k);
      }
      forall k | k in t.funds ensures FundWellFormed(t, k) {
        assert FundWellFormed(s, k);
      }
      forall k | k in t.requests ensures RequestWellFormed(t, k) {
        assert RequestWellFormed(s, k);
      }
    }
  }

  lemma CreateWithdrawalRequestPreservesValid(
    s: State, maintainer: Key, fund: Key, request: Key, amount: u64, recipient: Key, reason: Utf8)
    requires Valid(s)
    ensures CreateWithdrawalRequest(s, maintainer, fund, request, amount, recipient, reason).Ok? ==>
      Valid(CreateWithdrawalRequest(s, maintainer, fund, request, amount, recipient, reason).value)
  {
    var r := CreateWithdrawalRequest(s, maintainer, fund, request, amount, recipient, reason);
    if r.Ok? {
      var f := s.funds[fund];
      var q := Request(f.requestCount, fund, amount, recipient, reason, maintainer, false);
      RequestAddedValid(s, fund, request, q);
      assert r.value == WithRequest(s, fund, request, q);
    }
  }

  /** The state after a request `q` is stored at `request`, its fund's counter
      moves on and the creation is logged. */
  function WithRequest(s: State, fund: Key, request: Key, q: Request): State
    requires fund in s.funds && s.funds[fund].requestCount < U64_MAX
  {
    var f := s.funds[fund];
    State(
      s.lamports,
      s.funds[fund := f.(requestCount := f.requestCount + 1)],
      s.requests[request := q],
      s.events + [WithdrawalRequested(fund, request, q.id, q.amount, q.recipient, q.createdBy)])
  }

  /** What `create_withdrawal_request` guarantees about the request it stores. */
  ghost predicate ProperNewRequest(s: State, fund: Key, request: Key, q: Request)
  {
    && CreateRequestAccountsOk(s, fund, request)
    && s.funds[fund].requestCount < U64_MAX
    && q.id == s.funds[fund].requestCount && q.fund == fund && q.amount > 0
    && |q.reason| <= MAX_REASON_LEN && q.createdBy == s.funds[fund].creator && !q.executed
  }

  lemma RequestAddedValid(s: State, fund: Key, request: Key, q: Request)
    requires Valid(s) && ProperNewRequest(s, fund, request, q)
    ensures Valid(WithRequest(s, fund, request, q))
  {
    var t := WithRequest(s, fund, request, q);
    var n := s.funds[fund].requestCount;
    var e := WithdrawalRequested(fund, request, q.id, q.amount, q.recipient, q.createdBy);
    assert t.events == s.events + [e];
    forall k ensures RequestedIds(t.events, k) == RequestedIds(s.events, k) + (if k == fund then [n as nat] else []) {
      RequestedIdsSnoc(s.events, e, k);
    }
    forall k ensures ExecutionCount(t.events, k) == ExecutionCount(s.events, k) {
      ExecutionCountSnoc(s.events, e, k);
    }
    RequestAddedFunds(s, fund, request, q);
    RequestAddedRequests(s, fund, request, q);
    RequestAddedComplete(s, fund, request, q);
  }

  lemma RequestAddedFunds(s: State, fund: Key, request: Key, q: Request)
    requires Valid(s) && ProperNewRequest(s, fund, request, q)
    requires var t := WithRequest(s, fund, request, q);
      forall k :: RequestedIds(t.events, k) == RequestedIds(s.events, k) + (if k == fund then [q.id as nat] else [])
    ensures var t := WithRequest(s, fund, request, q);
      forall k | k in t.funds :: FundWellFormed(t, k)
  {
    var t := WithRequest(s, fund, request, q);
    var n := s.funds[fund].requestCount;
    forall k | k in t.funds ensures FundWellFormed(t, k) {
      assert FundWellFormed(s, k);
      if k == fund {
        assert Iota(n + 1) == Iota(n) + [n];
      }
    }
  }

  lemma RequestAddedRequests(s: State, fund: Key, request: Key, q: Request)
    requires Valid(s) && ProperNewRequest(s, fund, request, q)
    requires var t := WithRequest(s, fund, request, q);
      forall k :: ExecutionCount(t.events, k) == ExecutionCount(s.events, k)
    ensures var t := WithRequest(s, fund, request, q);
      forall k | k in t.requests :: RequestWellFormed(t, k)
  {
    var t := WithRequest(s, fund, request, q);
    forall k | k in t.requests ensures RequestWellFormed(t, k) {
      if k != request {
        assert RequestWellFormed(s, k);
      }
    }
  }

  lemma RequestAddedComplete(s: State, fund: Key, request: Key, q: Request)
    requires Valid(s) && ProperNewRequest(s, fund, request, q)
    ensures var t := WithRequest(s, fund, request, q);
      forall g, id: u64 | g in t.funds && id < t.funds[g].requestCount :: RequestAddress(g, id) in t.requests
  {
    var t := WithRequest(s, fund, request, q);
    var n := s.funds[fund].requestCount;
    forall g, id: u64 | g in t.funds && id < t.funds[g].requestCount ensures RequestAddress(g, id) in t.requests {
      if g != fund || id != n {
        assert RequestAddress(g, id) in s.requests;
      }
    }
  }

  lemma ExecuteWithdrawalPreservesValid(s: State, maintainer: Key, fund: Key, recipient: Key, request: Key)
    requires Valid(s)
    ensures ExecuteWithdrawal(s, maintainer, fund, recipient, request).Ok? ==>
      Valid(ExecuteWithdrawal(s, maintainer, fund, recipient, request).value)
  {
    var r := ExecuteWithdrawal(s, maintainer, fund, recipient, request);
    if r.Ok? {
      var q := s.requests[request];
      var e := WithdrawalExecuted(fund, request, q.id, q.amount, q.recipient, maintainer);
      RequestExecutedValid(s, r.value.lamports, request, e);
      assert r.value == WithExecuted(s, r.value.lamports, request, e);
    }
  }

  /** The state after the pending request at `request` is marked executed, the
      ledger becomes `lamports` and the execution is logged as `e`. */
  function WithExecuted(s: State, lamports: map<Key, u64>, request: Key, e: Event): State
    requires request in s.requests
  {
    State(lamports, s.funds, s.requests[request := s.requests[request].(executed := true)], s.events + [e])
  }

  lemma RequestExecutedValid(s: State, lamports: map<Key, u64>, request: Key, e: Event)
    requires Valid(s) && Bounded(lamports)
    requires request in s.requests && !s.requests[request].executed
    requires e.WithdrawalExecuted? && e.request == request
    ensures Valid(WithExecuted(s, lamports, request, e))
  {
    var t := WithExecuted(s, lamports, request, e);
    forall k ensures RequestedIds(t.events, k) == RequestedIds(s.events, k) {
      RequestedIdsSnoc(s.events, e, k);
    }
    forall k ensures ExecutionCount(t.events, k) == ExecutionCount(s.events, k) + (if k == request then 1 else 0) {
      ExecutionCountSnoc(s.events, e, k);
    }
    forall k | k in t.funds ensures FundWellFormed(t, k) {
      assert FundWellFormed(s, k);
    }
    RequestExecutedRequests(s, lamports, request, e);
  }

  lemma RequestExecutedRequests(s: State, lamports: map<Key, u64>, request: Key, e: Event)
    requires Valid(s)
    requires request in s.requests && !s.requests[request].executed
    requires var t := WithExecuted(s, lamports, request, e);
      forall k :: ExecutionCount(t.events, k) == ExecutionCount(s.events, k) + (if k == request then 1 else 0)
    ensures var t := WithExecuted(s, lamports, request, e);
      forall k | k in t.requests :: RequestWellFormed(t, k)
  {
    var t := WithExecuted(s, lamports, request, e);
    forall k | k in t.requests ensures RequestWellFormed(t, k) {
      assert RequestWellFormed(s, k);
    }
  }
}
