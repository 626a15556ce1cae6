/** What the `vault` instructions guarantee, one at a time and along any
    sequence of transactions: a locked vault refuses deposits and withdrawals,
    only its authority moves the lock, and while the lock holds no `vault`
    instruction moves the vault's lamports. */
module VaultProperties {
  import opened Solana
  import opened VaultProgram

  // ---------------------------------------------------------------------------
  // One instruction
  // ---------------------------------------------------------------------------

  /** With the lock set, every deposit into the vault and every withdrawal from
      it fails, whoever signs and whatever the amount. */
  lemma LockedRefusesDepositAndWithdraw(s: State, user: Key, authority: Key, vault: Key, a: u64, b: u64)
    requires Bounded(s.lamports)
    requires vault in s.vaults && s.vaults[vault].locked
    ensures Deposit(s, user, vault, a).Err?
    ensures Withdraw(s, authority, vault, b).Err?
    ensures Deposit(s, user, vault, a) != Err(ConstraintSeeds) ==> Deposit(s, user, vault, a) == Err(VaultLocked)
    ensures authority == s.vaults[vault].vaultAuthority ==> Withdraw(s, authority, vault, b) == Err(VaultLocked)
  {
  }

  /** A deposit of zero into a valid unlocked vault succeeds, moves no lamports
      and still logs a `DepositEvent`. */
  lemma ZeroDepositSucceeds(s: State, user: Key, vault: Key)
    requires Bounded(s.lamports)
    requires vault in s.vaults && vault == VaultAddress(s.vaults[vault].vaultAuthority) && !s.vaults[vault].locked
    ensures Deposit(s, user, vault, 0).Ok?
    ensures forall k :: Balance(Deposit(s, user, vault, 0).value.lamports, k) == Balance(s.lamports, k)
    ensures Deposit(s, user, vault, 0).value.events == s.events + [DepositEvent(vault, user, 0)]
  {
  }

  /** The authority who deposits `amount` can take the same `amount` straight
      back: every balance returns to what it was, and both events are logged. */
  lemma WithdrawUndoesDeposit(s: State, authority: Key, vault: Key, amount: u64)
    requires Bounded(s.lamports)
    requires Deposit(s, authority, vault, amount).Ok?
    requires s.vaults[vault].vaultAuthority == authority
    ensures var t := Deposit(s, authority, vault, amount).value;
      && Withdraw(t, authority, vault, amount).Ok?
      && var u := Withdraw(t, authority, vault, amount).value;
      && u.vaults == s.vaults
      && (forall k :: Balance(u.lamports, k) == Balance(s.lamports, k))
      && u.events == s.events + [DepositEvent(vault, authority, amount), WithdrawEvent(vault, authority, amount)]
  {
    var t := Deposit(s, authority, vault, amount).value;
    assert Balance(t.lamports, vault) >= amount by {
      if authority != vault {
        assert Balance(t.lamports, vault) == Balance(s.lamports, vault) + amount;
      }
    }
    var u := Withdraw(t, authority, vault, amount).value;
    forall k
      ensures Balance(u.lamports, k) == Balance(s.lamports, k)
    {
      if authority == vault {
        assert Balance(t.lamports, k) == Balance(s.lamports, k);
      }
    }
  }

  /** Withdraw never looks at the vault's seeds: at an address that is not the
      one derived from its authority, a record refuses every deposit but still
      pays its authority out. */
  lemma WithdrawSkipsSeedCheck(s: State, user: Key, authority: Key, vault: Key, a: u64, b: u64)
    requires Bounded(s.lamports)
    requires vault in s.vaults && s.vaults[vault] == Vault(authority, false)
    requires vault != VaultAddress(authority)
    requires b <= Balance(s.lamports, vault)
    ensures Deposit(s, user, vault, a) == Err(ConstraintSeeds)
    ensures Withdraw(s, authority, vault, b).Ok?
  {
  }

  /** Toggling twice restores the lock and leaves the ledger alone; the two
      events carry the two lock values in turn. */
  lemma ToggleTwiceRestores(s: State, authority: Key, vault: Key)
    requires ToggleLock(s, authority, vault).Ok?
    ensures var t := ToggleLock(s, authority, vault).value;
      var locked := s.vaults[vault].locked;
      && ToggleLock(t, authority, vault).Ok?
      && ToggleLock(t, authority, vault).value.vaults == s.vaults
      && ToggleLock(t, authority, vault).value.lamports == s.lamports
      && ToggleLock(t, authority, vault).value.events ==
           s.events + [ToggleLockEvent(vault, authority, !locked), ToggleLockEvent(vault, authority, locked)]
  {
    var v := s.vaults[vault];
    var t := ToggleLock(s, authority, vault).value;
    assert t.vaults[vault] == v.(locked := !v.locked);
    assert s.vaults[vault := v.(locked := !v.locked)][vault := v] == s.vaults;
  }

  // ---------------------------------------------------------------------------
  // Sequences of transactions
  // ---------------------------------------------------------------------------

  datatype Instruction =
    | DepositIx(user: Key, vault: Key, amount: u64)
    | WithdrawIx(authority: Key, vault: Key, amount: u64)
    | ToggleLockIx(authority: Key, vault: Key)

  /** The key that signs the instruction. */
  function Signer(ix: Instruction): Key
  {
    match ix
    case DepositIx(user, _, _) => user
    case WithdrawIx(authority, _, _) => authority
    case ToggleLockIx(authority, _) => authority
  }

  function Process(s: State, ix: Instruction): (r: Result<State, Error>)
    requires Bounded(s.lamports)
    ensures r.Ok? ==> Total(r.value.lamports) == Total(s.lamports)
  {
    match ix
    case DepositIx(user, vault, amount) => Deposit(s, user, vault, amount)
    case WithdrawIx(authority, vault, amount) => Withdraw(s, authority, vault, amount)
    case ToggleLockIx(authority, vault) => ToggleLock(s, authority, vault)
  }

  /** A transaction: the instruction's new state, or the old one if it fails. */
  function Step(s: State, ix: Instruction): (t: State)
    requires Bounded(s.lamports)
    ensures Bounded(t.lamports) && Total(t.lamports) == Total(s.lamports)
    ensures Process(s, ix).Err? ==> t == s
  {
    var r := Process(s, ix);
    if r.Ok? then r.value else s
  }

  function Run(s: State, ixs: seq<Instruction>): (t: State)
    requires Bounded(s.lamports)
    ensures Bounded(t.lamports) && Total(t.lamports) == Total(s.lamports)
    decreases |ixs|
  {
    if ixs == [] then s else Run(Step(s, ixs[0]), ixs[1..])
  }

  /** No transaction adds or removes a record or changes its authority, and
      each one leaves every lock as it was except a toggle by the authority. */
  lemma StepKeepsRecords(s: State, ix: Instruction, vault: Key)
    requires Bounded(s.lamports)
    ensures Step(s, ix).vaults.Keys == s.vaults.Keys
    ensures vault in s.vaults ==> Step(s, ix).vaults[vault].vaultAuthority == s.vaults[vault].vaultAuthority
    ensures vault in s.vaults && Step(s, ix).vaults[vault].locked != s.vaults[vault].locked ==>
      ix == ToggleLockIx(s.vaults[vault].vaultAuthority, vault)
  {
  }

  /** Along any run, a vault's lock changes only if the run holds a toggle of
      that vault signed by its authority. */
  lemma {:induction false} LockMovesOnlyByAuthority(s: State, ixs: seq<Instruction>, vault: Key)
    requires Bounded(s.lamports) && vault in s.vaults
    requires ToggleLockIx(s.vaults[vault].vaultAuthority, vault) !in ixs
    ensures vault in Run(s, ixs).vaults
    ensures Run(s, ixs).vaults[vault] == s.vaults[vault]
    decreases |ixs|
  {
    if ixs != [] {
      StepKeepsRecords(s, ixs[0], vault);
      var s1 := Step(s, ixs[0]);
      assert ixs[0] != ToggleLockIx(s.vaults[vault].vaultAuthority, vault);
      assert s1.vaults[vault] == s.vaults[vault];
      assert ToggleLockIx(s1.vaults[vault].vaultAuthority, vault) !in ixs[1..] by {
        assert forall i :: 0 <= i < |ixs[1..]| ==> ixs[1..][i] == ixs[i + 1];
      }
      LockMovesOnlyByAuthority(s1, ixs[1..], vault);
    }
  }

  /** While a vault is locked, only a transaction its own key signs could move
      its lamports; a run in which its authority does not toggle it and which
      the vault never signs leaves its balance exactly as it was. */
  lemma {:induction false} LockedVaultFrozen(s: State, ixs: seq<Instruction>, vault: Key)
    requires Bounded(s.lamports) && vault in s.vaults && s.vaults[vault].locked
    requires ToggleLockIx(s.vaults[vault].vaultAuthority, vault) !in ixs
    requires forall i :: 0 <= i < |ixs| ==> Signer(ixs[i]) != vault
    ensures Balance(Run(s, ixs).lamports, vault) == Balance(s.lamports, vault)
    decreases |ixs|
  {
    if ixs != [] {
      StepKeepsRecords(s, ixs[0], vault);
      var s1 := Step(s, ixs[0]);
      assert ixs[0] != ToggleLockIx(s.vaults[vault].vaultAuthority, vault);
      assert Signer(ixs[0]) != vault;
      assert Balance(s1.lamports, vault) == Balance(s.lamports, vault);
      assert ToggleLockIx(s1.vaults[vault].vaultAuthority, vault) !in ixs[1..] by {
        assert forall i :: 0 <= i < |ixs[1..]| ==> ixs[1..][i] == ixs[i + 1];
      }
      assert forall i :: 0 <= i < |ixs[1..]| ==> Signer(ixs[1..][i]) != vault by {
        assert forall i :: 0 <= i < |ixs[1..]| ==> ixs[1..][i] == ixs[i + 1];
      }
      LockedVaultFrozen(s1, ixs[1..], vault);
    }
  }
}
