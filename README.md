# Community fund ledger and lock-gated vault

This project models two Solana programs written with the Anchor framework:

- **`cef`**, a community fund ledger. A creator opens a fund at the address
  derived from their key. Anyone may donate lamports to it. Only the creator
  may file withdrawal requests, which take consecutive ids, and only the
  creator may execute an unexecuted request. Executing a request moves its
  amount out of the fund.
- **`vault`**, a vault per authority. It holds lamports and a `locked` flag.
  Anyone may deposit into an unlocked vault at its derived address. Only the
  authority may withdraw from an unlocked vault or flip the lock.

## Shared runtime (`solana.dfy`)

- Keys are symbolic. A program-derived address is built from its program id
  and its seed list, so two derivations agree only when their inputs do.
- `u64::to_le_bytes` is written out, with its decoding, so request addresses
  for different ids differ.
- The lamport ledger is a map from keys to `u64`. Nothing in either program
  creates lamports. The model therefore keeps the supply below `u64::MAX`
  (`Bounded`), and under that invariant no credit overflows.

## Instructions as functions (`cef.dfy`, `vault.dfy`)

Each instruction is a function from the state before it to
`Result<State, Error>`. Its guards run in the order Anchor and the handler
run them:

1. Anchor loads every account that is not `init`. A missing record fails
   with `AccountNotInitialized`.
2. Anchor runs each `init` account's seeds check and then creates the
   account. An occupied address fails with `AccountAlreadyInUse`.
3. Anchor checks the other accounts in field order. Within one account the
   seeds come first, then `has_one`, then a raw `constraint`.
4. The handler runs its `require!` guards.
5. The handler makes its checked additions.

Every error appears in the contract as an if-and-only-if over the inputs.
Success is an if-and-only-if too: the call succeeds exactly when none of
the error conditions holds. The success case states the whole new state.

## Handlers with in-place state (`cef_runtime.dfy`, `vault_runtime.dfy`)

Each program's handlers are also written as methods of a `Cluster` class. The
methods update the balances, records and event log in place. Where the source
writes before a later check can fail, as `donate` does with its transfer
before its checked additions, the method restores what it wrote, as the
runtime's rollback does. Each method is proved to leave exactly the state the
instruction function computes, or the old state plus the error.

## Invariants and traces (`cef_invariant.dfy`, `cef_traces.dfy`, `vault_properties.dfy`)

For `cef`, `Valid` is an invariant that holds initially and is kept by every
instruction:

- funds sit at their creator's address;
- requests sit at the address of their fund and id;
- every id below a fund's counter names a stored request;
- the `WithdrawalRequested` events of a fund carry the ids 0, 1, … in order;
- each request was paid out once if it is marked executed, and never otherwise.

Over arbitrary runs of transactions (in the model every failed transaction
rolls back entirely; transaction fees are left out, see below):

- for `cef`, requests are paid at most once, and in the model records only
  move forward (the runtime's deletion of an account drained to zero
  lamports is left out, see below);
- for `vault`, the lock moves only by its authority, and no `vault`
  instruction changes a locked vault's balance. A system-program transfer,
  or a `cef` payout whose recipient is the vault's address, can still
  credit it.

## Where the code and the documented design differ

The model follows the code in each case:

- `withdraw` and `toggle_lock` refuse a signer other than the vault's
  authority through Anchor's `has_one` constraint. The error is therefore
  `ConstraintHasOne`, not a program-defined `Unauthorized`.
- `execute_withdrawal` pays the `recipient` account the caller passes. That
  account is unchecked (`UncheckedAccount`) and may differ from the recipient
  the request recorded. The event still reports the recorded recipient.
- `cef` offers only the request-then-execute path out of a fund. The lock-gated
  direct withdrawal exists only in `vault`.
- `donate` performs its transfer before its checked additions. An `Overflow`
  after the transfer is undone by the runtime's rollback, not by a check made
  in advance.
- As written, `execute_withdrawal` reads `ctx.accounts.fund` (`lib.rs:147`
  and `:151`) while the mutable borrow `fund` from `lib.rs:136` is still in
  use at `:158`. Also, `donate` passes a byte slice where the system
  `transfer` expects a key (`lib.rs:51`). Both look like compile errors. The
  model follows the evident intent in each case: it reads and moves the
  fund's lamports, and it transfers to the fund's key.
- The `cef` account-validation failures are Anchor's own errors:
  - `AccountNotInitialized` for a missing record;
  - `ConstraintSeeds` for a wrong address;
  - `AccountAlreadyInUse` for an occupied `init` address.

## Model

| member | source | states |
|---|---|---|
| `Solana.DeriveInjective` | adv-task1/cef/programs/cef/src/lib.rs:186 | two derived addresses are equal only if the program ids and seed lists are equal |
| `Solana.LittleEndian` | adv-task1/cef/programs/cef/src/lib.rs:221 | the `width`-byte little-endian string of `n` has length `width` and decodes back to `n` |
| `Solana.LeBytes` | adv-task1/cef/programs/cef/src/lib.rs:245 | `to_le_bytes` of a u64 is eight bytes that decode back to the value |
| `Solana.LeBytesInjective` | adv-task1/cef/programs/cef/src/lib.rs:221 | distinct u64 values have distinct `to_le_bytes` |
| `Solana.Debit` | task2/vault/programs/vault/src/instructions/withdraw.rs:27 | `-= amount` lowers one balance by `amount`, leaves the rest, and lowers the supply by `amount` |
| `Solana.Credit` | task2/vault/programs/vault/src/instructions/withdraw.rs:29 | `+= amount` raises one balance by `amount`, leaves the rest, and cannot overflow while the supply fits in a u64 |
| `Solana.Transfer` | task2/vault/programs/vault/src/instructions/deposit.rs:35-46 | the system transfer moves `amount` from payer to payee, leaves every other balance, keeps the supply and the bound |
| `Cef.FundAddress` | adv-task1/cef/programs/cef/src/lib.rs:186 | a fund address is derived under the `cef` program from a two-entry seed list ("fund", the creator's key) |
| `Cef.RequestAddress` | adv-task1/cef/programs/cef/src/lib.rs:221 | a request address is derived under the `cef` program from a three-entry seed list ("request", the fund's key, the id's little-endian bytes) |
| `Cef.RequestAddressInjective` | adv-task1/cef/programs/cef/src/lib.rs:221 | two request addresses are equal if and only if fund and id are equal |
| `Cef.FundAndRequestAddressesDiffer` | adv-task1/cef/programs/cef/src/lib.rs:186 | no fund address equals a request address |
| `Cef.FundEncodedSize` | adv-task1/cef/programs/cef/src/lib.rs:266-278 | a fund with bounded strings encodes within `MAX_SIZE`, and reaches it exactly at the bounds |
| `Cef.RequestEncodedSize` | adv-task1/cef/programs/cef/src/lib.rs:292-303 | a request with a bounded reason encodes within `MAX_SIZE`, and reaches it exactly at the bound |
| `Cef.Occupied` | adv-task1/cef/programs/cef/src/lib.rs:183-189 | an address the program has written, which an `init` refuses; a free address holds no valid fund |
| `Cef.IsFundAccount` | adv-task1/cef/programs/cef/src/lib.rs:201-202 | a `fund` account Anchor accepts holds a Fund record at the address derived from that record's creator, inside the program's address space |
| `Cef.FundAccountError` | adv-task1/cef/programs/cef/src/lib.rs:201-202 | a rejected `fund` account fails `AccountNotInitialized` iff it holds no record, and `ConstraintSeeds` iff it holds one off its derived address |
| `Cef.IsRequestAccount` | adv-task1/cef/programs/cef/src/lib.rs:245-246 | a `request` account Anchor accepts holds a Request record at the address derived from the given fund and the record's id |
| `Cef.CreateRequestAccountsOk` | adv-task1/cef/programs/cef/src/lib.rs:213-225 | the accounts of a request creation pass: a valid fund and a free account at the next id's address, which is never the fund itself |
| `Cef.InitializeFund` | adv-task1/cef/programs/cef/src/lib.rs:11-37 | fails `ConstraintSeeds` iff the fund is not at the creator's address, `AccountAlreadyInUse` iff that address is taken, then `NameTooLong`/`DescriptionTooLong` iff the byte length exceeds 64/256; on success stores a fund with zero counters, changes nothing else and logs `FundInitialized` |
| `Cef.Donate` | adv-task1/cef/programs/cef/src/lib.rs:41-83 | fails on a missing or misplaced fund, `InvalidAmount` iff amount is 0, `ResultWithNegativeLamports` iff the donor lacks the lamports, `Overflow` iff a counter would pass `u64::MAX`; succeeds iff none of these holds; on success moves `amount` from donor to fund, adds it to `total_donations`, counts one donation and logs it |
| `Cef.CreateWithdrawalRequest` | adv-task1/cef/programs/cef/src/lib.rs:87-131 | fails on a missing fund, then a request address other than the next id's, an occupied request address, a fund off its address, zero amount, a reason over 256 bytes, a signer other than the creator, or a full counter, each iff its condition in Anchor's order; succeeds iff none holds; on success stores an unexecuted request under the next id, advances the counter, moves no lamports, logs it |
| `Cef.ExecuteWithdrawal` | adv-task1/cef/programs/cef/src/lib.rs:135-168 | fails `AccountNotInitialized` iff the fund or request record is missing, then `ConstraintSeeds` iff either is off its derived address, then on a signer other than the creator, an executed request, zero amount, or a fund below the amount, each iff its condition; succeeds iff none holds; on success moves the amount from fund to the passed recipient, marks the request executed and logs the recorded recipient |
| `CefInvariant.GenesisValid` | adv-task1/cef/programs/cef/src/lib.rs:255-303 | a ledger with no funds or requests satisfies the invariant |
| `CefInvariant.NextRequestAddressFree` | adv-task1/cef/programs/cef/src/lib.rs:218-225 | in a valid state the address of a fund's next request is unoccupied |
| `CefInvariant.FundAtItsAddress` | adv-task1/cef/programs/cef/src/lib.rs:201 | in a valid state every stored fund passes its seeds constraint |
| `CefInvariant.OneFundPerCreator` | adv-task1/cef/programs/cef/src/lib.rs:183-190 | in a valid state two funds with the same creator are the same fund |
| `CefInvariant.RequestAccountBelongsToFund` | adv-task1/cef/programs/cef/src/lib.rs:245 | a request account that passes its seeds check against a fund records that fund |
| `CefInvariant.StoredRequestAmountPositive` | adv-task1/cef/programs/cef/src/lib.rs:93 | in a valid state every stored request has a positive amount |
| `CefInvariant.StoredRecordsFit` | adv-task1/cef/programs/cef/src/lib.rs:266-303 | in a valid state every stored fund and request keeps its strings within bounds and encodes within the space its `init` reserved |
| `CefInvariant.InitializeFundPreservesValid` | adv-task1/cef/programs/cef/src/lib.rs:11-37 | a successful `initialize_fund` keeps the invariant |
| `CefInvariant.DonatePreservesValid` | adv-task1/cef/programs/cef/src/lib.rs:41-83 | a successful `donate` keeps the invariant |
| `CefInvariant.CreateWithdrawalRequestPreservesValid` | adv-task1/cef/programs/cef/src/lib.rs:87-131 | a successful request creation keeps the invariant, including the id sequence in the event log |
| `CefInvariant.ExecuteWithdrawalPreservesValid` | adv-task1/cef/programs/cef/src/lib.rs:135-168 | a successful execution keeps the invariant, including one execution event per executed request |
| `CefRuntime.Cluster.InitializeFund` | adv-task1/cef/programs/cef/src/lib.rs:16-35 | the in-place handler leaves the state `Cef.InitializeFund` computes, or the old state and its error; keeps the invariant |
| `CefRuntime.Cluster.Donate` | adv-task1/cef/programs/cef/src/lib.rs:42-80 | the in-place handler, restoring the transfer when a checked addition fails, leaves the state `Cef.Donate` computes or the old one; keeps the invariant |
| `CefRuntime.Cluster.CreateWithdrawalRequest` | adv-task1/cef/programs/cef/src/lib.rs:93-128 | the in-place handler, discarding the written request when the counter overflows, leaves the state `Cef.CreateWithdrawalRequest` computes or the old one; keeps the invariant |
| `CefRuntime.Cluster.ExecuteWithdrawal` | adv-task1/cef/programs/cef/src/lib.rs:142-165 | the in-place handler with its `-=` and `+=` on lamports leaves the state `Cef.ExecuteWithdrawal` computes or the old one; keeps the invariant |
| `CefTraces.Process` | adv-task1/cef/programs/cef/src/lib.rs:5-169 | a successful instruction keeps the lamport supply |
| `CefTraces.Step` | adv-task1/cef/programs/cef/src/lib.rs:5-169 | in the model (no fees), a transaction keeps the supply and its bound, and a failed one leaves the state exactly as it was |
| `CefTraces.Run` | adv-task1/cef/programs/cef/src/lib.rs:5-169 | any run of transactions keeps the supply and its bound |
| `CefTraces.RunPreservesValid` | adv-task1/cef/programs/cef/src/lib.rs:5-169 | every run from a valid state ends in a valid state |
| `CefTraces.RunKeeps` | adv-task1/cef/programs/cef/src/lib.rs:24-155 | in the model, along any run no record disappears (the runtime's deletion of a fund drained to zero lamports is not modelled), fund identity fields never change, counters never fall, and a request changes only by becoming executed |
| `CefTraces.ExecuteSucceedsOnce` | adv-task1/cef/programs/cef/src/lib.rs:142-155 | after a request is executed, executing it again at any later point fails, with `AlreadyExecuted` for the creator and `Unauthorized` for anyone else |
| `CefTraces.PaidOutAtMostOnce` | adv-task1/cef/programs/cef/src/lib.rs:143-157 | along any run from a valid state a request has at most one execution event, and exactly one iff it is marked executed |
| `CefTraces.RequestIdsInOrder` | adv-task1/cef/programs/cef/src/lib.rs:105-118 | along any run a fund's requested ids are 0 .. n-1 in creation order, and request `id` sits at its derived address with that id and fund |
| `CefTraces.RecipientIsCallersChoice` | adv-task1/cef/programs/cef/src/lib.rs:239-242 | if execution succeeds for one recipient account it succeeds for any other, with the same event |
| `CefTraces.DonateRequestExecute` | adv-task1/cef/programs/cef/src/lib.rs:41-168 | in the model (no rent check on the recipient's credit), on a ledger with no records, four transactions (open, donate 1000, request 400, execute) leave the fund 600 up, the recipient 400 up, the creator 1000 down, and the request executed with exactly one execution event |
| `VaultProgram.VaultAddress` | task2/vault/programs/vault/src/instructions/deposit.rs:15 | a vault address is derived under the `vault` program from the seed "vault" and the authority's key |
| `VaultProgram.VaultAddressInjective` | task2/vault/programs/vault/src/instructions/deposit.rs:15 | two vault addresses are equal iff their authorities are |
| `VaultProgram.Deposit` | task2/vault/programs/vault/src/instructions/deposit.rs:8-56 | fails `AccountNotInitialized` iff no vault record, `ConstraintSeeds` iff it is not at its authority's address, `VaultLocked` iff locked, `InsufficientBalance` iff the user holds less than `amount`; succeeds iff none holds; on success moves `amount` from user to vault, keeps the records and the supply, logs `DepositEvent` |
| `VaultProgram.Withdraw` | task2/vault/programs/vault/src/instructions/withdraw.rs:6-39 | fails `AccountNotInitialized` iff no record, `ConstraintHasOne` iff the signer is not the authority, `VaultLocked` iff locked, `InsufficientBalance` iff the vault holds less than `amount`; succeeds iff none holds; on success moves `amount` from vault to authority, keeps the records and the supply, logs `WithdrawEvent` with the record's authority |
| `VaultProgram.ToggleLock` | task2/vault/programs/vault/src/instructions/toggle_lock.rs:5-28 | fails `AccountNotInitialized` iff no record, `ConstraintHasOne` iff the signer is not the authority, succeeds otherwise; on success negates `locked`, changes nothing else and logs the new value |
| `VaultProperties.LockedRefusesDepositAndWithdraw` | task2/vault/programs/vault/src/instructions/deposit.rs:17 | with the lock set every deposit and withdrawal fails, with `VaultLocked` once the account checks pass |
| `VaultProperties.ZeroDepositSucceeds` | task2/vault/programs/vault/src/instructions/deposit.rs:24-53 | a zero deposit into a valid unlocked vault succeeds, changes no balance and logs an event |
| `VaultProperties.WithdrawUndoesDeposit` | task2/vault/programs/vault/src/instructions/withdraw.rs:16-39 | in the model (no fees), the authority withdrawing what they deposited restores every balance and the records |
| `VaultProperties.WithdrawSkipsSeedCheck` | task2/vault/programs/vault/src/instructions/withdraw.rs:8-9 | a record not at its derived address refuses deposits with `ConstraintSeeds` yet still pays its authority out |
| `VaultProperties.ToggleTwiceRestores` | task2/vault/programs/vault/src/instructions/toggle_lock.rs:15-27 | in the model (no fees), two toggles restore the records and balances and log the two lock values in turn |
| `VaultProperties.Process` | task2/vault/programs/vault/src/instructions/deposit.rs:24-56 | dispatching a `vault` instruction to its handler, for all three handlers (deposit, withdraw, toggle_lock), keeps the lamport supply on success |
| `VaultProperties.Step` | task2/vault/programs/vault/src/instructions/withdraw.rs:16-39 | in the model (no fees), a `vault` transaction of any of the three instructions (deposit, withdraw, toggle_lock) keeps the supply and its bound, and a failed one leaves the state exactly as it was |
| `VaultProperties.Run` | task2/vault/programs/vault/src/instructions/toggle_lock.rs:15-28 | any run of `vault` transactions, mixing all three instructions (deposit, withdraw, toggle_lock), keeps the supply and its bound |
| `VaultProperties.StepKeepsRecords` | task2/vault/programs/vault/src/instructions/toggle_lock.rs:8-18 | in the model, no transaction adds or removes a vault (the runtime's deletion of a vault drained to zero lamports is not modelled) or changes its authority, and only a toggle by the authority changes a lock |
| `VaultProperties.LockMovesOnlyByAuthority` | task2/vault/programs/vault/src/instructions/toggle_lock.rs:5-18 | a run without a toggle of the vault by its authority leaves the vault record unchanged |
| `VaultProperties.LockedVaultFrozen` | task2/vault/programs/vault/src/instructions/withdraw.rs:21-29 | no `vault` instruction changes a locked vault's balance: it is unchanged by any run of `vault` transactions that neither toggles it by its authority nor is signed by the vault (transfers by other programs are outside these runs) |
| `VaultRuntime.Cluster.Deposit` | task2/vault/programs/vault/src/instructions/deposit.rs:24-56 | the in-place handler leaves the state `VaultProgram.Deposit` computes, or the old state and its error |
| `VaultRuntime.Cluster.Withdraw` | task2/vault/programs/vault/src/instructions/withdraw.rs:16-39 | the in-place handler with its `-=` and `+=` leaves the state `VaultProgram.Withdraw` computes, or the old state and its error |
| `VaultRuntime.Cluster.ToggleLock` | task2/vault/programs/vault/src/instructions/toggle_lock.rs:15-28 | the in-place handler leaves the state `VaultProgram.ToggleLock` computes, or the old state and its error |

## Left out

- The SHA-256 search of `find_program_address` is not modelled. Derived
  addresses are symbolic. The real hash covers the concatenated seed bytes,
  so the symbolic form is sound only because each kind of address has a
  fixed byte layout: 4 + 32 bytes for a fund, 7 + 32 + 8 for a request and
  5 + 32 for a vault. It also assumes that the hash never collides.
- The `bump` fields (`lib.rs:30, 113, 263, 289`) are not modelled, and nor is
  `ErrorCode::BumpNotFound`. The canonical bump is implicit in the derivation,
  and Anchor always supplies the bump for a `seeds` account.
- Rent is not modelled. This covers the lamports `init` takes from the payer,
  the rent-exemption minimum, and the runtime's check of rent state after
  the transaction. That check refuses a debit that leaves an account below
  its rent-exempt minimum without emptying it, and it refuses a credit that
  raises an empty account to a balance still below the minimum (about
  890,880 lamports for an account without data), with
  `InsufficientFundsForRent`. So `CefTraces.DonateRequestExecute`, whose
  recipient may start at 0 lamports and receives 400, holds in the model
  only. `MAX_SIZE` appears only as a bound on the encoded record size.
- Transaction fees are not modelled. The runtime charges the fee payer even
  when a transaction fails, and burns part of the fee. So the supply being
  kept, a failed transaction leaving the state exactly as it was, and the
  restored balances of `VaultProperties.WithdrawUndoesDeposit` and
  `VaultProperties.ToggleTwiceRestores` hold in the model only.
- The runtime's deletion of zero-lamport accounts is not modelled. An
  `execute_withdrawal` of all of a fund's lamports, or a `withdraw` of all of
  a vault's lamports, succeeds, and the runtime then deletes the account with
  its record. A later `donate` or `deposit` then fails with
  `AccountNotInitialized`, and `initialize_fund` can re-create the fund at
  the same address with its counters at zero; that fund's first request
  then meets the old request 0 and fails with `AccountAlreadyInUse`. The
  model keeps the drained record, so `CefTraces.RunKeeps`,
  `VaultProperties.StepKeepsRecords`, `CefTraces.ExecuteSucceedsOnce` and
  the invariant `Valid` hold of the model's runs, not of runs that pass
  through a deleted account. In particular, once the first payout has
  emptied the fund and the fund is deleted, a second execution fails with
  `AccountNotInitialized`, not with the `AlreadyExecuted` or `Unauthorized`
  that `ExecuteSucceedsOnce` names.
- Event timestamps from `Clock::get()` are not modelled. Events are
  otherwise recorded field for field, but their Borsh encoding and the `emit!`
  log itself are not.
- Signature verification is not modelled. The signer of each instruction is
  a parameter, so Anchor's `Signer` check cannot fail in the model.
- Anchor's `mut` checks are not modelled. Every account the instructions
  write is taken to be passed as writable, so `ConstraintMut` cannot occur.
- Anchor's owner, discriminator and deserialisation checks on a record
  account are merged into `AccountNotInitialized`.
- The `system_program` accounts are not modelled, and their checks are
  assumed to pass. These are the `Program<System>` checks (`lib.rs:192, 204,
  227, 248`, `deposit.rs:21`) and the `address` constraint in `withdraw.rs`,
  which would fail with `ConstraintAddress`.
- UTF-8 validity of the `String` arguments is not checked. Strings are byte
  sequences whose length is counted in bytes; Anchor's decoding of the
  instruction, which refuses invalid UTF-8 before any account check, is
  not modelled.
- Cef.Donate: does not model the system program refusing a payer that holds
  account data or is not system-owned. Only a shortfall of lamports fails the
  transfer.
- VaultProgram.Deposit: does not model the system program refusing a payer
  that holds account data or is not system-owned. The handler's own balance
  check comes before the transfer.
- Cef.ExecuteWithdrawal: does not model the runtime refusing a debit that
  leaves the fund below its rent-exempt minimum, nor a credit that raises an
  empty recipient to a balance below the minimum. Its success iff therefore
  admits payouts that the runtime refuses with `InsufficientFundsForRent`.
- VaultProgram.Withdraw: does not model the runtime refusing a debit that
  leaves the vault below its rent-exempt minimum, nor a credit that raises an
  empty `vault_authority` to a balance below the minimum. Its success iff
  therefore admits withdrawals that the runtime refuses with
  `InsufficientFundsForRent`.
- Vault creation is not part of this model. No `init_vault` source exists in
  the repository. The vault runtime's constructor takes the initial records
  as given.
- The `Vault` record's definition, `errors.rs` and `events.rs` are not part
  of this model. The record's fields, the error names and the event fields
  are taken from their uses in the three handlers.
- The vault crate's `lib.rs` is not modelled. It only logs a greeting and
  registers none of the handlers.
- The TypeScript clients and tests are not modelled. They are off-chain RPC
  scripts.
- Concurrency is not modelled. The runtime runs transactions one at a time
  on the accounts they share, so traces are sequences of single-instruction
  transactions.
