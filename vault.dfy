/** The `vault` program: one vault per authority, holding lamports at an
    address derived from the authority's key. Anyone may deposit into an
    unlocked vault; only the authority may withdraw from it or flip its lock.
    Each instruction is a function from the state before it to the state after
    it or the error that aborts it. */
module VaultProgram {
  import opened Solana

  const PROGRAM_ID: string := "734juxRyhGmtjUXAXeLYLUG8ctGWULvyhnyhHb2WZhDG"

  /** The literal seed "vault", as bytes. */
  const VAULT_SEED: seq<byte> := [0x76, 0x61, 0x75, 0x6c, 0x74]

  /** The `Vault` account data. */
  datatype Vault = Vault(vaultAuthority: Key, locked: bool)

  datatype Event =
    | DepositEvent(vault: Key, user: Key, amount: u64)
    | WithdrawEvent(vault: Key, vaultAuthority: Key, amount: u64)
    | ToggleLockEvent(vault: Key, vaultAuthority: Key, locked: bool)

  datatype Error =
    // raised by Anchor while it validates the accounts
    | AccountNotInitialized   // the `vault` account holds no Vault record
    | ConstraintSeeds         // the `vault` account is not at its derived address
    | ConstraintHasOne        // the signer is not the record's `vault_authority`
    // raised by the handlers and the `constraint =` guard
    | VaultLocked
    | InsufficientBalance

  /** The lamports of every account, the Vault records by address, and the
      program's event log. */
  datatype State = State(lamports: map<Key, u64>, vaults: map<Key, Vault>, events: seq<Event>)

  /** A vault's address: derived under the vault program from the literal
      seed "vault" and the authority's key. */
  function VaultAddress(authority: Key): (k: Key)
    ensures k.ProgramAddress? && k.programId == PROGRAM_ID
  {
    Derive(PROGRAM_ID, [Bytes(VAULT_SEED), KeyOf(authority)])
  }

  lemma VaultAddressInjective(a1: Key, a2: Key)
    ensures VaultAddress(a1) == VaultAddress(a2) <==> a1 == a2
  {
    if VaultAddress(a1) == VaultAddress(a2) {
      DeriveInjective(PROGRAM_ID, [Bytes(VAULT_SEED), KeyOf(a1)], PROGRAM_ID, [Bytes(VAULT_SEED), KeyOf(a2)]);
      assert [Bytes(VAULT_SEED), KeyOf(a1)][1] == [Bytes(VAULT_SEED), KeyOf(a2)][1];
    }
  }

  /** `deposit`: the vault must be at the address derived from its own
      authority and unlocked, and the user must hold `amount`; the user's
      lamports then move to the vault through the system program. Any signer
      may deposit, and zero is accepted. */
  function Deposit(s: State, user: Key, vault: Key, amount: u64): (r: Result<State, Error>)
    requires Bounded(s.lamports)
    ensures r == Err(AccountNotInitialized) <==> vault !in s.vaults
    ensures r == Err(ConstraintSeeds) <==>
      vault in s.vaults && vault != VaultAddress(s.vaults[vault].vaultAuthority)
    ensures r == Err(VaultLocked) <==>
      vault in s.vaults && vault == VaultAddress(s.vaults[vault].vaultAuthority) && s.vaults[vault].locked
    ensures r == Err(InsufficientBalance) <==>
      && vault in s.vaults && vault == VaultAddress(s.vaults[vault].vaultAuthority) && !s.vaults[vault].locked
      && Balance(s.lamports, user) < amount
    ensures r.Ok? <==>
      && vault in s.vaults && vault == VaultAddress(s.vaults[vault].vaultAuthority) && !s.vaults[vault].locked
      && amount <= Balance(s.lamports, user)
    ensures r.Ok? ==>
      var t := r.value;
      && t.vaults == s.vaults
      && (user != vault ==> Balance(t.lamports, user) == Balance(s.lamports, user) - amount)
      && (user != vault ==> Balance(t.lamports, vault) == Balance(s.lamports, vault) + amount)
      && (forall k :: k != user && k != vault ==> Balance(t.lamports, k) == Balance(s.lamports, k))
      && Total(t.lamports) == Total(s.lamports)
      && t.events == s.events + [DepositEvent(vault, user, amount)]
  {
    if vault !in s.vaults then Err(AccountNotInitialized)
    else if vault != VaultAddress(s.vaults[vault].vaultAuthority) then Err(ConstraintSeeds)
    else if s.vaults[vault].locked then Err(VaultLocked)
    else if Balance(s.lamports, user) < amount then Err(InsufficientBalance)
    else
      Ok(s.(lamports := Transfer(s.lamports, user, vault, amount), events := s.events + [DepositEvent(vault, user, amount)]))
  }

  /** `withdraw`: the record's authority takes `amount` lamports out of an
      unlocked vault that holds them. The vault's address is not checked
      against its seeds. */
  function Withdraw(s: State, authority: Key, vault: Key, amount: u64): (r: Result<State, Error>)
    requires Bounded(s.lamports)
    ensures r == Err(AccountNotInitialized) <==> vault !in s.vaults
    ensures r == Err(ConstraintHasOne) <==> vault in s.vaults && s.vaults[vault].vaultAuthority != authority
    ensures r == Err(VaultLocked) <==>
      vault in s.vaults && s.vaults[vault].vaultAuthority == authority && s.vaults[vault].locked
    ensures r == Err(InsufficientBalance) <==>
      && vault in s.vaults && s.vaults[vault].vaultAuthority == authority && !s.vaults[vault].locked
      && Balance(s.lamports, vault) < amount
    ensures r.Ok? <==>
      && vault in s.vaults && s.vaults[vault].vaultAuthority == authority && !s.vaults[vault].locked
      && amount <= Balance(s.lamports, vault)
    ensures r.Ok? ==>
      var t := r.value;
      && t.vaults == s.vaults
      && (authority != vault ==> Balance(t.lamports, vault) == Balance(s.lamports, vault) - amount)
      && (authority != vault ==> Balance(t.lamports, authority) == Balance(s.lamports, authority) + amount)
      && (forall k :: k != authority && k != vault ==> Balance(t.lamports, k) == Balance(s.lamports, k))
      && Total(t.lamports) == Total(s.lamports)
      && t.events == s.events + [WithdrawEvent(vault, s.vaults[vault].vaultAuthority, amount)]
  {
    if vault !in s.vaults then Err(AccountNotInitialized)
    else
      var v := s.vaults[vault];
      if v.vaultAuthority != authority then Err(ConstraintHasOne)
      else if v.locked then Err(VaultLocked)
      else if Balance(s.lamports, vault) < amount then Err(InsufficientBalance)
      else
        var lamports := Credit(Debit(s.lamports, vault, amount), authority, amount);
        Ok(s.(lamports := lamports, events := s.events + [WithdrawEvent(vault, v.vaultAuthority, amount)]))
  }

  /** `toggle_lock`: the record's authority flips the lock; the event reports
      the new value. */
  function ToggleLock(s: State, authority: Key, vault: Key): (r: Result<State, Error>)
    ensures r == Err(AccountNotInitialized) <==> vault !in s.vaults
    ensures r == Err(ConstraintHasOne) <==> vault in s.vaults && s.vaults[vault].vaultAuthority != authority
    ensures r.Ok? <==> vault in s.vaults && s.vaults[vault].vaultAuthority == authority
    ensures r.Ok? ==>
      var t := r.value;
      var v := s.vaults[vault];
      && t.vaults == s.vaults[vault := v.(locked := !v.locked)]
      && t.lamports == s.lamports
      && t.events == s.events + [ToggleLockEvent(vault, v.vaultAuthority, !v.locked)]
  {
    if vault !in s.vaults then Err(AccountNotInitialized)
    else
      var v := s.vaults[vault];
      if v.vaultAuthority != authority then Err(ConstraintHasOne)
      else
        var v' := v.(locked := !v.locked);
        Ok(s.(vaults := s.vaults[vault := v'], events := s.events + [ToggleLockEvent(vault, v'.vaultAuthority, v'.locked)]))
  }
}
