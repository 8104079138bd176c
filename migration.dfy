/**
 * Upgrading an account that was stored before passwords and PINs existed.
 * The console prompts of the migration dialogue become one record of the five
 * answers the customer would type, read in the order the dialogue asks them.
 */
module Migration {
  import opened Wrappers
  import opened Auth
  import opened Accounts

  /** The answers to the migration prompts, in the order they are asked. */
  datatype MigrationInput = MigrationInput(
    verification: string,
    password: string,
    confirmPassword: string,
    pin: string,
    confirmPin: string)

  /** How the dialogue ends, in the order its checks are made. */
  datatype MigrationOutcome = NumberMismatch | PasswordMismatch | InvalidPinFormat | PinMismatch | Migrated

  /** An account needs migration when its password digest or its PIN is missing or empty. */
  predicate NeedsMigration(s: AccountState)
  {
    IsNullOrEmpty(s.passwordHash) || IsNullOrEmpty(s.pin)
  }

  /** The checks of `migrateAccount`, each one reached only when the earlier ones pass. */
  function MigrationCheck(accountNumber: string, input: MigrationInput): (o: MigrationOutcome)
    ensures o == NumberMismatch <==> input.verification != accountNumber
    ensures o == PasswordMismatch <==>
      input.verification == accountNumber && input.password != input.confirmPassword
    ensures o == InvalidPinFormat <==>
      input.verification == accountNumber && input.password == input.confirmPassword
      && !IsValidPin(Some(input.pin))
    ensures o == PinMismatch <==>
      input.verification == accountNumber && input.password == input.confirmPassword
      && IsValidPin(Some(input.pin)) && input.pin != input.confirmPin
    ensures o == Migrated <==>
      input.verification == accountNumber && input.password == input.confirmPassword
      && IsValidPin(Some(input.pin)) && input.pin == input.confirmPin
  {
    if input.verification != accountNumber then NumberMismatch
    else if input.password != input.confirmPassword then PasswordMismatch
    else if !IsValidPin(Some(input.pin)) then InvalidPinFormat
    else if input.pin != input.confirmPin then PinMismatch
    else Migrated
  }

  /** The account after the dialogue: new credentials and unlocked on success, untouched otherwise. */
  function Migrate(s: AccountState, input: MigrationInput): (r: AccountState)
    ensures MigrationCheck(s.number, input) != Migrated ==> r == s
    ensures MigrationCheck(s.number, input) == Migrated ==>
      r == s.(passwordHash := HashPassword(input.password), pin := Some(input.pin), locked := false)
  {
    if MigrationCheck(s.number, input) == Migrated then
      s.(passwordHash := HashPassword(input.password), pin := Some(input.pin), locked := false)
    else s
  }

  /**
   * A successful migration leaves an account that no longer needs one, that
   * accepts exactly the new password and PIN, and that is unlocked, while its
   * balance and history stay as they were.
   */
  lemma MigrationCompletes(s: AccountState, input: MigrationInput)
    requires MigrationCheck(s.number, input) == Migrated
    ensures var r := Migrate(s, input);
      && !NeedsMigration(r)
      && (forall p :: VerifyPassword(p, r.passwordHash) <==> HashPassword(p) == HashPassword(input.password))
      && (forall p :: VerifyPin(p, r.pin) <==> p == Some(input.pin))
      && IsValidPin(r.pin)
      && !r.locked
  {
    var r := Migrate(s, input);
    assert |r.passwordHash.value| == 44;
    assert |input.pin| == 4;
  }

  /** Migration never touches the money: a consistent ledger stays consistent. */
  lemma MigrationKeepsLedger(s: AccountState, input: MigrationInput)
    ensures var r := Migrate(s, input);
      r.number == s.number && r.name == s.name
      && r.balance == s.balance && r.transactions == s.transactions
      && (Consistent(s) ==> Consistent(r))
  {
  }

  /** A wrong confirmation of the account number ends the dialogue before any other answer matters. */
  lemma MismatchIgnoresLaterAnswers(s: AccountState, i1: MigrationInput, i2: MigrationInput)
    requires i1.verification == i2.verification != s.number
    ensures MigrationCheck(s.number, i1) == MigrationCheck(s.number, i2) == NumberMismatch
    ensures Migrate(s, i1) == Migrate(s, i2) == s
  {
  }

  /** The PIN confirmation is never compared when the PIN itself is malformed. */
  lemma MalformedPinIgnoresConfirmation(number: string, input: MigrationInput, confirmPin: string)
    requires MigrationCheck(number, input) == InvalidPinFormat
    ensures MigrationCheck(number, input.(confirmPin := confirmPin)) == InvalidPinFormat
  {
  }

  /** Migration lifts a lock: a locked account that needed migration is unlocked by completing it. */
  lemma MigrationUnlocks(s: AccountState, input: MigrationInput)
    requires s.locked && MigrationCheck(s.number, input) == Migrated
    ensures !Migrate(s, input).locked
  {
  }

  /** An account opened with a well-formed PIN never needs migration. */
  lemma OpenedNeedsNoMigration(number: string, name: string, password: string, pin: Option<string>)
    requires IsValidPin(pin)
    ensures !NeedsMigration(Opened(number, name, password, pin))
  {
    assert |HashPassword(password).value| == 44;
    assert |pin.value| == 4;
  }

  /** `migrateAccount`: the dialogue, followed by the three setter calls on success. */
  method MigrateAccount(account: Account, input: MigrationInput) returns (ok: bool)
    modifies account
    ensures ok <==> MigrationCheck(old(account.State()).number, input) == Migrated
    ensures account.State() == Migrate(old(account.State()), input)
    ensures old(account.Valid()) ==> account.Valid()
  {
    MigrationKeepsLedger(account.State(), input);
    if input.verification != account.accountNumber {
      return false;
    }
    if input.password != input.confirmPassword {
      return false;
    }
    if !IsValidPin(Some(input.pin)) {
      return false;
    }
    if input.pin != input.confirmPin {
      return false;
    }
    account.SetPasswordHash(HashPassword(input.password));
    account.SetPin(Some(input.pin));
    account.SetLocked(false);
    return true;
  }
}
