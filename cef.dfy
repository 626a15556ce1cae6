/** The community fund ledger (program `cef`): funds that collect donations and
    pay out through withdrawal requests that only the fund's creator may create
    and execute. Each instruction is a function from the state before it to the
    state after it, or to the error that makes the transaction fail. */
module Cef {
  import opened Solana

  const PROGRAM_ID: string := "GQ27gS3sM95CWmwbN4V9kPwKTeHQBfqWQBQn4rGNNrci"

  const MAX_NAME_LEN: nat := 64
  const MAX_DESCRIPTION_LEN: nat := 256
  const MAX_REASON_LEN: nat := 256

  /** Account space reserved by `init` (8 bytes of discriminator, then the
      Borsh fields; strings carry a 4-byte length prefix). */
  const FUND_MAX_SIZE: nat := 8 + 32 + (4 + MAX_NAME_LEN) + (4 + MAX_DESCRIPTION_LEN) + 8 + 8 + 8 + 1
  const REQUEST_MAX_SIZE: nat := 8 + 8 + 32 + 8 + 32 + (4 + MAX_REASON_LEN) + 32 + 1 + 1

  /** The literal seeds "fund" and "request", as bytes. */
  const FUND_SEED: seq<byte> := [0x66, 0x75, 0x6e, 0x64]
  const REQUEST_SEED: seq<byte> := [0x72, 0x65, 0x71, 0x75, 0x65, 0x73, 0x74]

  /** The bytes of a Rust `String`; their length is counted in bytes. Whether
      they are valid UTF-8 is not checked. */
  type Utf8 = seq<byte>

  datatype Fund = Fund(
    creator: Key,
    name: Utf8,
    description: Utf8,
    totalDonations: u64,
    donationCount: u64,
    requestCount: u64)

  datatype Request = Request(
    id: u64,
    fund: Key,
    amount: u64,
    recipient: Key,
    reason: Utf8,
    createdBy: Key,
    executed: bool)

  datatype Event =
    | FundInitialized(fund: Key, creator: Key, name: Utf8)
    | DonationMade(fund: Key, donor: Key, amount: u64)
    | WithdrawalRequested(fund: Key, request: Key, id: u64, amount: u64, recipient: Key, createdBy: Key)
    | WithdrawalExecuted(fund: Key, request: Key, id: u64, amount: u64, recipient: Key, executedBy: Key)

  datatype Error =
    // raised by Anchor while it validates the accounts of an instruction
    | AccountNotInitialized  // an `Account<Fund>` or `Account<Request>` that holds no such record
    | ConstraintSeeds        // the account is not at the address its seeds derive
    | AccountAlreadyInUse    // an `init` account that already exists
    // raised by the system program's transfer
    | ResultWithNegativeLamports
    // the program's own `ErrorCode`
    | NameTooLong
    | DescriptionTooLong
    | ReasonTooLong
    | InvalidAmount
    | InsufficientFunds
    | Unauthorized
    | AlreadyExecuted
    | Overflow

  /** Lamports of every account, the program's records by address, and the
      event log. */
  datatype State = State(
    lamports: map<Key, u64>,
    funds: map<Key, Fund>,
    requests: map<Key, Request>,
    events: seq<Event>)

  // ---------------------------------------------------------------------------
  // Addresses
  // ---------------------------------------------------------------------------

  /** A fund's address: derived under the program from the literal seed
      "fund" and the creator's key. The seed list has two entries, which sets
      fund addresses apart from request addresses. */
  function FundAddress(creator: Key): (k: Key)
    ensures k.ProgramAddress? && k.programId == PROGRAM_ID && |k.seeds| == 2
  {
    Derive(PROGRAM_ID, [Bytes(FUND_SEED), KeyOf(creator)])
  }

  /** A request's address: derived under the program from the literal seed
      "request", the fund's key and the eight little-endian bytes of the id. */
  function RequestAddress(fund: Key, id: u64): (k: Key)
    ensures k.ProgramAddress? && k.programId == PROGRAM_ID && |k.seeds| == 3
  {
    Derive(PROGRAM_ID, [Bytes(REQUEST_SEED), KeyOf(fund), Bytes(LeBytes(id))])
  }

  /** Two requests share an address only if they belong to the same fund and
      carry the same id; and no request shares an address with a fund. */
  lemma RequestAddressInjective(f1: Key, id1: u64, f2: Key, id2: u64)
    ensures RequestAddress(f1, id1) == RequestAddress(f2, id2) <==> f1 == f2 && id1 == id2
  {
    if RequestAddress(f1, id1) == RequestAddress(f2, id2) {
      assert Bytes(LeBytes(id1)) == RequestAddress(f1, id1).seeds[2];
      LeBytesInjective(id1, id2);
    }
  }

  lemma FundAndRequestAddressesDiffer(creator: Key, fund: Key, id: u64)
    ensures FundAddress(creator) != RequestAddress(fund, id)
  {
    assert |FundAddress(creator).seeds| != |RequestAddress(fund, id).seeds|;
  }

  /** A fund's record encodes within the space `init` reserves for it. */
  function FundEncodedSize(f: Fund): (n: nat)
    requires |f.name| <= MAX_NAME_LEN && |f.description| <= MAX_DESCRIPTION_LEN
    ensures n <= FUND_MAX_SIZE
    ensures |f.name| == MAX_NAME_LEN && |f.description| == MAX_DESCRIPTION_LEN ==> n == FUND_MAX_SIZE
  {
    8 + 32 + (4 + |f.name|) + (4 + |f.description|) + 8 + 8 + 8 + 1
  }

  /** A request's record encodes within the space `init` reserves for it. */
  function RequestEncodedSize(q: Request): (n: nat)
    requires |q.reason| <= MAX_REASON_LEN
    ensures n <= REQUEST_MAX_SIZE
    ensures |q.reason| == MAX_REASON_LEN ==> n == REQUEST_MAX_SIZE
  {
    8 + 8 + 32 + 8 + 32 + (4 + |q.reason|) + 32 + 1 + 1
  }

  // ---------------------------------------------------------------------------
  // Account validation
  // ---------------------------------------------------------------------------

  /** An account the program has written: `init` refuses it. A free address
      holds no fund, so no fund account can be valid there. */
  predicate Occupied(s: State, k: Key)
    ensures !Occupied(s, k) ==> !IsFundAccount(s, k)
  {
    k in s.funds || k in s.requests
  }

  /** A `fund` account that Anchor accepts: it holds a Fund record, and it
      sits at the address derived from the creator that record names. Such an
      account always lies in the program's own address space. */
  predicate IsFundAccount(s: State, fund: Key)
    ensures IsFundAccount(s, fund) ==> fund in s.funds && fund.ProgramAddress? && fund.programId == PROGRAM_ID
  {
    fund in s.funds && fund == FundAddress(s.funds[fund].creator)
  }

  /** The error Anchor raises for a `fund` account that is not valid. */
  function FundAccountError(s: State, fund: Key): (e: Error)
    requires !IsFundAccount(s, fund)
    ensures e == AccountNotInitialized <==> fund !in s.funds
    ensures e == ConstraintSeeds <==> fund in s.funds && fund != FundAddress(s.funds[fund].creator)
  {
    if fund !in s.funds then AccountNotInitialized else ConstraintSeeds
  }

  /** A `request` account that Anchor accepts: it holds a Request record, and
      it sits at the address derived from the given fund and the id that
      record carries. Such an account is never a fund address. */
  predicate IsRequestAccount(s: State, fund: Key, request: Key)
    ensures IsRequestAccount(s, fund, request) ==>
      request in s.requests && request.ProgramAddress? && |request.seeds| == 3 && request.seeds[1] == KeyOf(fund)
  {
    request in s.requests && request == RequestAddress(fund, s.requests[request].id)
  }

  // ---------------------------------------------------------------------------
  // Instructions
  // ---------------------------------------------------------------------------

  /** `initialize_fund`: the fund is created at the creator's derived address,
      which must still be free; then the name and the description are checked,
      in that order. */
  function InitializeFund(s: State, creator: Key, fund: Key, name: Utf8, description: Utf8): (r: Result<State, Error>)
    ensures r == Err(ConstraintSeeds) <==> fund != FundAddress(creator)
    ensures r == Err(AccountAlreadyInUse) <==> fund == FundAddress(creator) && Occupied(s, fund)
    ensures r == Err(NameTooLong) <==>
      fund == FundAddress(creator) && !Occupied(s, fund) && |name| > MAX_NAME_LEN
    ensures r == Err(DescriptionTooLong) <==>
      fund == FundAddress(creator) && !Occupied(s, fund) && |name| <= MAX_NAME_LEN && |description| > MAX_DESCRIPTION_LEN
    ensures r.Ok? <==>
      fund == FundAddress(creator) && !Occupied(s, fund) && |name| <= MAX_NAME_LEN && |description| <= MAX_DESCRIPTION_LEN
    ensures r.Ok? ==>
      var t := r.value;
      && fund in t.funds
      && t.funds[fund].creator == creator
      && t.funds[fund].name == name
      && t.funds[fund].description == description
      && t.funds[fund].totalDonations == 0
      && t.funds[fund].donationCount == 0
      && t.funds[fund].requestCount == 0
      && t.funds.Keys == s.funds.Keys + {fund}
      && (forall k :: k in s.funds ==> t.funds[k] == s.funds[k])
      && t.requests == s.requests
      && t.lamports == s.lamports
      && t.events == s.events + [FundInitialized(fund, creator, name)]
  {
    if fund != FundAddress(creator) then Err(ConstraintSeeds)
    else if Occupied(s, fund) then Err(AccountAlreadyInUse)
    else if |name| > MAX_NAME_LEN then Err(NameTooLong)
    else if |description| > MAX_DESCRIPTION_LEN then Err(DescriptionTooLong)
    else
      var f := Fund(creator, name, description, 0, 0, 0);
      Ok(s.(funds := s.funds[fund := f], events := s.events + [FundInitialized(fund, creator, name)]))
  }

  /** `donate`: any signer moves `amount` lamports into the fund, which counts
      the donation with checked additions. A failure of either addition fails
      the whole instruction, the transfer included. */
  function Donate(s: State, donor: Key, fund: Key, amount: u64): (r: Result<State, Error>)
    requires Bounded(s.lamports)
    ensures r == Err(AccountNotInitialized) <==> fund !in s.funds
    ensures r == Err(ConstraintSeeds) <==> fund in s.funds && !IsFundAccount(s, fund)
    ensures r == Err(InvalidAmount) <==> IsFundAccount(s, fund) && amount == 0
    ensures r == Err(ResultWithNegativeLamports) <==>
      IsFundAccount(s, fund) && amount > 0 && Balance(s.lamports, donor) < amount
    ensures r == Err(Overflow) <==>
      && IsFundAccount(s, fund) && 0 < amount <= Balance(s.lamports, donor)
      && (s.funds[fund].totalDonations + amount > U64_MAX || s.funds[fund].donationCount == U64_MAX)
    ensures r.Ok? <==>
      && IsFundAccount(s, fund) && 0 < amount <= Balance(s.lamports, donor)
      && s.funds[fund].totalDonations + amount <= U64_MAX && s.funds[fund].donationCount < U64_MAX
    ensures r.Ok? ==>
      var t := r.value;
      var f := s.funds[fund];
      && fund in t.funds && t.funds.Keys == s.funds.Keys
      && t.funds[fund].totalDonations == f.totalDonations + amount
      && t.funds[fund].donationCount == f.donationCount + 1
      && t.funds[fund].requestCount == f.requestCount
      && t.funds[fund].creator == f.creator
      && t.funds[fund].name == f.name
      && t.funds[fund].description == f.description
      && (forall k :: k in s.funds && k != fund ==> t.funds[k] == s.funds[k])
      && t.requests == s.requests
      && (donor != fund ==> Balance(t.lamports, donor) == Balance(s.lamports, donor) - amount)
      && (donor != fund ==> Balance(t.lamports, fund) == Balance(s.lamports, fund) + amount)
      && (forall k :: k != donor && k != fund ==> Balance(t.lamports, k) == Balance(s.lamports, k))
      && Total(t.lamports) == Total(s.lamports)
      && t.events == s.events + [DonationMade(fund, donor, amount)]
  {
    if !IsFundAccount(s, fund) then Err(FundAccountError(s, fund))
    else if amount == 0 then Err(InvalidAmount)
    else if Balance(s.lamports, donor) < amount then Err(ResultWithNegativeLamports)
    else
      var lamports := Transfer(s.lamports, donor, fund, amount);
      var f := s.funds[fund];
      if f.totalDonations + amount > U64_MAX then Err(Overflow)
      else if f.donationCount + 1 > U64_MAX then Err(Overflow)
      else
        var f' := f.(totalDonations := f.totalDonations + amount, donationCount := f.donationCount + 1);
        Ok(State(lamports, s.funds[fund := f'], s.requests, s.events + [DonationMade(fund, donor, amount)]))
  }

  /** Whether the accounts of `create_withdrawal_request` pass Anchor's checks:
      a valid fund, and a free request account at the address of the fund's
      next request id. The new request account is then never the fund itself. */
  predicate CreateRequestAccountsOk(s: State, fund: Key, request: Key)
    ensures CreateRequestAccountsOk(s, fund, request) ==> request != fund && request !in s.requests
  {
    && IsFundAccount(s, fund)
    && request == RequestAddress(fund, s.funds[fund].requestCount)
    && !Occupied(s, request)
  }

  /** `create_withdrawal_request`: the creator records a request that takes the
      fund's next id; the fund's request counter then moves on by one.
      Anchor loads the `fund` record first, then runs the `init` of `request`
      (its seeds, then its creation), and only then checks the seeds of
      `fund`. */
  function CreateWithdrawalRequest(
    s: State, maintainer: Key, fund: Key, request: Key, amount: u64, recipient: Key, reason: Utf8): (r: Result<State, Error>)
    ensures r == Err(AccountNotInitialized) <==> fund !in s.funds
    ensures r == Err(ConstraintSeeds) <==>
      && fund in s.funds
      && (request != RequestAddress(fund, s.funds[fund].requestCount) || (!Occupied(s, request) && !IsFundAccount(s, fund)))
    ensures r == Err(AccountAlreadyInUse) <==>
      fund in s.funds && request == RequestAddress(fund, s.funds[fund].requestCount) && Occupied(s, request)
    ensures r == Err(InvalidAmount) <==> CreateRequestAccountsOk(s, fund, request) && amount == 0
    ensures r == Err(ReasonTooLong) <==>
      CreateRequestAccountsOk(s, fund, request) && amount > 0 && |reason| > MAX_REASON_LEN
    ensures r == Err(Unauthorized) <==>
      && CreateRequestAccountsOk(s, fund, request) && amount > 0 && |reason| <= MAX_REASON_LEN
      && maintainer != s.funds[fund].creator
    ensures r == Err(Overflow) <==>
      && CreateRequestAccountsOk(s, fund, request) && amount > 0 && |reason| <= MAX_REASON_LEN
      && maintainer == s.funds[fund].creator && s.funds[fund].requestCount == U64_MAX
    ensures r.Ok? <==>
      && CreateRequestAccountsOk(s, fund, request) && amount > 0 && |reason| <= MAX_REASON_LEN
      && maintainer == s.funds[fund].creator && s.funds[fund].requestCount < U64_MAX
    ensures r.Ok? ==>
      var t := r.value;
      var f := s.funds[fund];
      && request in t.requests
      && t.requests[request].id == f.requestCount
      && t.requests[request].fund == fund
      && t.requests[request].amount == amount
      && t.requests[request].recipient == recipient
      && t.requests[request].reason == reason
      && t.requests[request].createdBy == maintainer
      && !t.requests[request].executed
      && t.requests.Keys == s.requests.Keys + {request}
      && (forall k :: k in s.requests ==> t.requests[k] == s.requests[k])
      && fund in t.funds && t.funds.Keys == s.funds.Keys
      && t.funds[fund].requestCount == f.requestCount + 1
      && t.funds[fund].totalDonations == f.totalDonations
      && t.funds[fund].donationCount == f.donationCount
      && t.funds[fund].creator == f.creator
      && t.funds[fund].name == f.name
      && t.funds[fund].description == f.description
      && (forall k :: k in s.funds && k != fund ==> t.funds[k] == s.funds[k])
      && t.lamports == s.lamports
      && t.events == s.events + [WithdrawalRequested(fund, request, f.requestCount, amount, recipient, maintainer)]
  {
    if fund !in s.funds then Err(AccountNotInitialized)
    else if request != RequestAddress(fund, s.funds[fund].requestCount) then Err(ConstraintSeeds)
    else if Occupied(s, request) then Err(AccountAlreadyInUse)
    else if !IsFundAccount(s, fund) then Err(ConstraintSeeds)
    else if amount == 0 then Err(InvalidAmount)
    else if |reason| > MAX_REASON_LEN then Err(ReasonTooLong)
    else if s.funds[fund].creator != maintainer then Err(Unauthorized)
    else
      var f := s.funds[fund];
      var id := f.requestCount;
      var q := Request(id, fund, amount, recipient, reason, maintainer, false);
      if f.requestCount + 1 > U64_MAX then Err(Overflow)
      else
        Ok(State(
          s.lamports,
          s.funds[fund := f.(requestCount := f.requestCount + 1)],
          s.requests[request := q],
          s.events + [WithdrawalRequested(fund, request, id, amount, recipient, maintainer)]))
  }

  /** Whether the accounts of `execute_withdrawal` pass Anchor's checks. */
  predicate ExecuteAccountsOk(s: State, fund: Key, request: Key)
  {
    IsFundAccount(s, fund) && IsRequestAccount(s, fund, request)
  }

  /** `execute_withdrawal`: the creator pays a pending request out of the fund
      to the `recipient` account passed in, which need not be the recipient the
      request records; the event reports the recorded one. Anchor loads the
      `fund` and `request` records before it checks the seeds of either. */
  function ExecuteWithdrawal(s: State, maintainer: Key, fund: Key, recipient: Key, request: Key): (r: Result<State, Error>)
    requires Bounded(s.lamports)
    ensures r == Err(AccountNotInitialized) <==> fund !in s.funds || request !in s.requests
    ensures r == Err(ConstraintSeeds) <==>
      fund in s.funds && request in s.requests && (!IsFundAccount(s, fund) || !IsRequestAccount(s, fund, request))
    ensures r == Err(Unauthorized) <==>
      ExecuteAccountsOk(s, fund, request) && maintainer != s.funds[fund].creator
    ensures r == Err(AlreadyExecuted) <==>
      ExecuteAccountsOk(s, fund, request) && maintainer == s.funds[fund].creator && s.requests[request].executed
    ensures r == Err(InvalidAmount) <==>
      && ExecuteAccountsOk(s, fund, request) && maintainer == s.funds[fund].creator
      && !s.requests[request].executed && s.requests[request].amount == 0
    ensures r == Err(InsufficientFunds) <==>
      && ExecuteAccountsOk(s, fund, request) && maintainer == s.funds[fund].creator
      && !s.requests[request].executed && 0 < s.requests[request].amount
      && Balance(s.lamports, fund) < s.requests[request].amount
    ensures r.Ok? <==>
      && ExecuteAccountsOk(s, fund, request) && maintainer == s.funds[fund].creator
      && !s.requests[request].executed && 0 < s.requests[request].amount <= Balance(s.lamports, fund)
    ensures r.Ok? ==>
      var t := r.value;
      var q := s.requests[request];
      && request in t.requests && t.requests.Keys == s.requests.Keys
      && t.requests[request] == q.(executed := true)
      && !q.executed
      && (forall k :: k in s.requests && k != request ==> t.requests[k] == s.requests[k])
      && t.funds == s.funds
      && (recipient != fund ==> Balance(t.lamports, fund) == Balance(s.lamports, fund) - q.amount)
      && (recipient != fund ==> Balance(t.lamports, recipient) == Balance(s.lamports, recipient) + q.amount)
      && (forall k :: k != fund && k != recipient ==> Balance(t.lamports, k) == Balance(s.lamports, k))
      && Total(t.lamports) == Total(s.lamports)
      && t.events == s.events + [WithdrawalExecuted(fund, request, q.id, q.amount, q.recipient, maintainer)]
  {
    if fund !in s.funds || request !in s.requests then Err(AccountNotInitialized)
    else if !IsFundAccount(s, fund) || !IsRequestAccount(s, fund, request) then Err(ConstraintSeeds)
    else
      var f := s.funds[fund];
      var q := s.requests[request];
      if f.creator != maintainer then Err(Unauthorized)
      else if q.executed then Err(AlreadyExecuted)
      else if q.amount == 0 then Err(InvalidAmount)
      else if Balance(s.lamports, fund) < q.amount then Err(InsufficientFunds)
      else
        var lamports := Credit(Debit(s.lamports, fund, q.amount), recipient, q.amount);
        Ok(State(
          lamports,
          s.funds,
          s.requests[request := q.(executed := true)],
          s.events + [WithdrawalExecuted(fund, request, q.id, q.amount, q.recipient, maintainer)]))
  }
}
