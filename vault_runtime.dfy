/** The `vault` program's handlers as they run: Anchor's account checks, then
    the handler's guards and its in-place writes to the lamport balances and
    the vault record. No handler fails after its first write. */
module VaultRuntime {
  import opened Solana
  import opened VaultProgram

  class Cluster {
    var lamports: map<Key, u64>
    var vaults: map<Key, Vault>
    var events: seq<Event>

    function Snapshot(): State
      reads this
    {
      State(lamports, vaults, events)
    }

    /** A cluster holding the given balances and vault records (created by
        an initialisation instruction that is not part of this model). */
    constructor (balances: map<Key, u64>, records: map<Key, Vault>)
      requires Bounded(balances)
      ensures Snapshot() == State(balances, records, [])
    {
      lamports := balances;
      vaults := records;
      events := [];
    }

    method Deposit(user: Key, vault: Key, amount: u64) returns (r: Result<(), Error>)
      requires Bounded(lamports)
      modifies this
      ensures Bounded(lamports)
      ensures Atomic(VaultProgram.Deposit(old(Snapshot()), user, vault, amount), old(Snapshot()), Snapshot(), r)
    {
      ghost var spec := VaultProgram.Deposit(Snapshot(), user, vault, amount);
      // Anchor loads the `vault` record, checks its seeds, then its lock
      if vault !in vaults {
        assert spec == Err(AccountNotInitialized);
        return Err(AccountNotInitialized);
      }
      if vault != VaultAddress(vaults[vault].vaultAuthority) {
        assert spec == Err(ConstraintSeeds);
        return Err(ConstraintSeeds);
      }
      if vaults[vault].locked {
        assert spec == Err(VaultLocked);
        return Err(VaultLocked);
      }
      if Balance(lamports, user) < amount {
        assert spec == Err(InsufficientBalance);
        return Err(InsufficientBalance);
      }
      // the system program's transfer from the user to the vault
      lamports := Transfer(lamports, user, vault, amount);
      events := events + [DepositEvent(vault, user, amount)];
      assert spec == Ok(Snapshot());
      r := Ok(());
    }

    method Withdraw(authority: Key, vault: Key, amount: u64) returns (r: Result<(), Error>)
      requires Bounded(lamports)
      modifies this
      ensures Bounded(lamports)
      ensures Atomic(VaultProgram.Withdraw(old(Snapshot()), authority, vault, amount), old(Snapshot()), Snapshot(), r)
    {
      ghost var spec := VaultProgram.Withdraw(Snapshot(), authority, vault, amount);
      // Anchor loads the `vault` record, then checks that the signer is its
      // authority
      if vault !in vaults {
        assert spec == Err(AccountNotInitialized);
        return Err(AccountNotInitialized);
      }
      var v := vaults[vault];
      if v.vaultAuthority != authority {
        assert spec == Err(ConstraintHasOne);
        return Err(ConstraintHasOne);
      }
      if v.locked {
        assert spec == Err(VaultLocked);
        return Err(VaultLocked);
      }
      if Balance(lamports, vault) < amount {
        assert spec == Err(InsufficientBalance);
        return Err(InsufficientBalance);
      }
      lamports := Debit(lamports, vault, amount);
      lamports := Credit(lamports, authority, amount);
      events := events + [WithdrawEvent(vault, v.vaultAuthority, amount)];
      assert spec == Ok(Snapshot());
      r := Ok(());
    }

    method ToggleLock(authority: Key, vault: Key) returns (r: Result<(), Error>)
      modifies this
      ensures Atomic(VaultProgram.ToggleLock(old(Snapshot()), authority, vault), old(Snapshot()), Snapshot(), r)
    {
      ghost var spec := VaultProgram.ToggleLock(Snapshot(), authority, vault);
      // Anchor loads the `vault` record, then checks that the signer is its
      // authority
      if vault !in vaults {
        assert spec == Err(AccountNotInitialized);
        return Err(AccountNotInitialized);
      }
      var v := vaults[vault];
      if v.vaultAuthority != authority {
        assert spec == Err(ConstraintHasOne);
        return Err(ConstraintHasOne);
      }
      vaults := vaults[vault := v.(locked := !v.locked)];
      events := events + [ToggleLockEvent(vault, v.vaultAuthority, !v.locked)];
      assert spec == Ok(Snapshot());
      r := Ok(());
    }
  }
}
