/** The `cef` program's instruction handlers as they run: each one validates its
    accounts, then checks its arguments and writes the fund and request records
    and the lamport balances in place. A handler that fails after it has
    written something restores what it wrote, as the runtime's rollback does. */
module CefRuntime {
  import opened Solana
  import opened Cef
  import opened CefInvariant

  class Cluster {
    var lamports: map<Key, u64>
    var funds: map<Key, Fund>
    var requests: map<Key, Request>
    var events: seq<Event>

    function Snapshot(): State
      reads this
    {
      State(lamports, funds, requests, events)
    }

    ghost predicate Valid()
      reads this
    {
      CefInvariant.Valid(Snapshot())
    }

    /** A cluster where the program has not run yet. */
    constructor (balances: map<Key, u64>)
      requires Bounded(balances)
      ensures Valid()
      ensures Snapshot() == Genesis(balances)
    {
      lamports := balances;
      funds := map[];
      requests := map[];
      events := [];
      new;
      GenesisValid(balances);
    }

    method InitializeFund(creator: Key, fund: Key, name: Utf8, description: Utf8) returns (r: Result<(), Error>)
      requires Bounded(lamports)
      modifies this
      ensures Bounded(lamports)
      ensures old(Valid()) ==> Valid()
      ensures Atomic(Cef.InitializeFund(old(Snapshot()), creator, fund, name, description), old(Snapshot()), Snapshot(), r)
    {
      ghost var before := Snapshot();
      ghost var spec := Cef.InitializeFund(before, creator, fund, name, description);
      // Anchor's `init` of `fund`: its seeds, then the creation of the account
      if fund != FundAddress(creator) {
        assert spec == Err(ConstraintSeeds);
        return Err(ConstraintSeeds);
      }
      if fund in funds || fund in requests {
        assert spec == Err(AccountAlreadyInUse);
        return Err(AccountAlreadyInUse);
      }
      if |name| > MAX_NAME_LEN {
        assert spec == Err(NameTooLong);
        return Err(NameTooLong);
      }
      if |description| > MAX_DESCRIPTION_LEN {
        assert spec == Err(DescriptionTooLong);
        return Err(DescriptionTooLong);
      }
      funds := funds[fund := Fund(creator, name, description, 0, 0, 0)];
      events := events + [FundInitialized(fund, creator, name)];
      if CefInvariant.Valid(before) {
        InitializeFundPreservesValid(before, creator, fund, name, description);
      }
      assert spec == Ok(Snapshot());
      r := Ok(());
    }

    method Donate(donor: Key, fund: Key, amount: u64) returns (r: Result<(), Error>)
      requires Bounded(lamports)
      modifies this
      ensures Bounded(lamports)
      ensures old(Valid()) ==> Valid()
      ensures Atomic(Cef.Donate(old(Snapshot()), donor, fund, amount), old(Snapshot()), Snapshot(), r)
    {
      ghost var before := Snapshot();
      ghost var spec := Cef.Donate(before, donor, fund, amount);
      // Anchor loads the `fund` record, then checks its seeds
      if fund !in funds {
        assert spec == Err(AccountNotInitialized);
        return Err(AccountNotInitialized);
      }
      if fund != FundAddress(funds[fund].creator) {
        assert spec == Err(ConstraintSeeds);
        return Err(ConstraintSeeds);
      }
      if amount == 0 {
        assert spec == Err(InvalidAmount);
        return Err(InvalidAmount);
      }
      // the system program's transfer refuses a payer without the lamports
      if Balance(lamports, donor) < amount {
        assert spec == Err(ResultWithNegativeLamports);
        return Err(ResultWithNegativeLamports);
      }
      var saved := lamports;
      lamports := Transfer(lamports, donor, fund, amount);
      var f := funds[fund];
      if f.totalDonations + amount > U64_MAX {
        lamports := saved;
        assert spec == Err(Overflow);
        return Err(Overflow);
      }
      f := f.(totalDonations := f.totalDonations + amount);
      if f.donationCount + 1 > U64_MAX {
        lamports := saved;
        assert spec == Err(Overflow);
        return Err(Overflow);
      }
      f := f.(donationCount := f.donationCount + 1);
      funds := funds[fund := f];
      events := events + [DonationMade(fund, donor, amount)];
      assert spec == Ok(Snapshot());
      if CefInvariant.Valid(before) {
        DonatePreservesValid(before, donor, fund, amount);
      }
      r := Ok(());
    }

    method CreateWithdrawalRequest(maintainer: Key, fund: Key, request: Key, amount: u64, recipient: Key, reason: Utf8)
      returns (r: Result<(), Error>)
      requires Bounded(lamports)
      modifies this
      ensures Bounded(lamports)
      ensures old(Valid()) ==> Valid()
      ensures Atomic(
        Cef.CreateWithdrawalRequest(old(Snapshot()), maintainer, fund, request, amount, recipient, reason),
        old(Snapshot()), Snapshot(), r)
    {
      ghost var before := Snapshot();
      ghost var spec := Cef.CreateWithdrawalRequest(before, maintainer, fund, request, amount, recipient, reason);
      // Anchor loads the `fund` record, runs the `init` of `request` (its
      // seeds, then its creation), and only then checks the seeds of `fund`
      if fund !in funds {
        assert spec == Err(AccountNotInitialized);
        return Err(AccountNotInitialized);
      }
      if request != RequestAddress(fund, funds[fund].requestCount) {
        assert spec == Err(ConstraintSeeds);
        return Err(ConstraintSeeds);
      }
      if request in funds || request in requests {
        assert spec == Err(AccountAlreadyInUse);
        return Err(AccountAlreadyInUse);
      }
      if fund != FundAddress(funds[fund].creator) {
        assert spec == Err(ConstraintSeeds);
        return Err(ConstraintSeeds);
      }
      if amount == 0 {
        assert spec == Err(InvalidAmount);
        return Err(InvalidAmount);
      }
      if |reason| > MAX_REASON_LEN {
        assert spec == Err(ReasonTooLong);
        return Err(ReasonTooLong);
      }
      if funds[fund].creator != maintainer {
        assert spec == Err(Unauthorized);
        return Err(Unauthorized);
      }
      var f := funds[fund];
      var id := f.requestCount;
      var saved := requests;
      requests := requests[request := Request(id, fund, amount, recipient, reason, maintainer, false)];
      if f.requestCount + 1 > U64_MAX {
        requests := saved;
        assert spec == Err(Overflow);
        return Err(Overflow);
      }
      funds := funds[fund := f.(requestCount := f.requestCount + 1)];
      events := events + [WithdrawalRequested(fund, request, id, amount, recipient, maintainer)];
      if CefInvariant.Valid(before) {
        CreateWithdrawalRequestPreservesValid(before, maintainer, fund, request, amount, recipient, reason);
      }
      assert spec == Ok(Snapshot());
      r := Ok(());
    }

    method ExecuteWithdrawal(maintainer: Key, fund: Key, recipient: Key, request: Key) returns (r: Result<(), Error>)
      requires Bounded(lamports)
      modifies this
      ensures Bounded(lamports)
      ensures old(Valid()) ==> Valid()
      ensures Atomic(
        Cef.ExecuteWithdrawal(old(Snapshot()), maintainer, fund, recipient, request),
        old(Snapshot()), Snapshot(), r)
    {
      ghost var before := Snapshot();
      ghost var spec := Cef.ExecuteWithdrawal(before, maintainer, fund, recipient, request);
      // Anchor loads the `fund` and `request` records, then checks their seeds
      if fund !in funds || request !in requests {
        assert spec == Err(AccountNotInitialized);
        return Err(AccountNotInitialized);
      }
      if fund != FundAddress(funds[fund].creator) || request != RequestAddress(fund, requests[request].id) {
        assert spec == Err(ConstraintSeeds);
        return Err(ConstraintSeeds);
      }
      var q := requests[request];
      if funds[fund].creator != maintainer {
        assert spec == Err(Unauthorized);
        return Err(Unauthorized);
      }
      if q.executed {
        assert spec == Err(AlreadyExecuted);
        return Err(AlreadyExecuted);
      }
      if q.amount == 0 {
        assert spec == Err(InvalidAmount);
        return Err(InvalidAmount);
      }
      if Balance(lamports, fund) < q.amount {
        assert spec == Err(InsufficientFunds);
        return Err(InsufficientFunds);
      }
      lamports := Debit(lamports, fund, q.amount);
      lamports := Credit(lamports, recipient, q.amount);
      requests := requests[request := q.(executed := true)];
      events := events + [WithdrawalExecuted(fund, request, q.id, q.amount, q.recipient, maintainer)];
      if CefInvariant.Valid(before) {
        ExecuteWithdrawalPreservesValid(before, maintainer, fund, recipient, request);
      }
      assert spec == Ok(Snapshot());
      r := Ok(());
    }
  }
}
