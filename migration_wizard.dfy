/**
 * The stand-alone migration wizard: look the account up, skip it when it
 * already has credentials, run the migration dialogue, and on success write
 * the audit entry the wizard uses to record a migration.
 */
module MigrationWizard {
  import opened Wrappers
  import opened Audit
  import opened Accounts
  import opened Migration
  import opened Banking

  /** The accounts after a wizard run: only an existing account awaiting migration goes through the dialogue. */
  function WizardEffect(view: map<string, AccountState>, accountNumber: string, input: MigrationInput)
    : (r: map<string, AccountState>)
    ensures r.Keys == view.Keys
    ensures forall n :: n in r && n != accountNumber ==> r[n] == view[n]
    ensures accountNumber in view && NeedsMigration(view[accountNumber]) ==>
      r[accountNumber] == Migrate(view[accountNumber], input)
    ensures accountNumber !in view || !NeedsMigration(view[accountNumber]) ==> r == view
  {
    if accountNumber in view && NeedsMigration(view[accountNumber]) then
      view[accountNumber := Migrate(view[accountNumber], input)]
    else view
  }

  /**
   * The audit lines a wizard run appends: one, tagged as a deposit (of zero),
   * exactly when a migration was carried out.
   */
  function WizardLines(view: map<string, AccountState>, accountNumber: string, input: MigrationInput, stamp: string)
    : (lines: seq<string>)
    ensures |lines| <= 1
    ensures lines != [] <==>
      accountNumber in view && NeedsMigration(view[accountNumber]) && MigrationCheck(view[accountNumber].number, input) == Migrated
    ensures lines != [] ==>
      |stamp| + 3 <= |lines[0]| && ActionOf(lines[0][|stamp| + 3..]) == Some("DEPOSIT")
    ensures lines != [] ==> lines == [Line(stamp, DepositSuccess(accountNumber, 0.0))]
  {
    if accountNumber in view && NeedsMigration(view[accountNumber]) && MigrationCheck(view[accountNumber].number, input) == Migrated
    then
      var entry := DepositSuccess(accountNumber, 0.0);
      assert Line(stamp, entry)[|stamp| + 3..] == entry;
      [Line(stamp, entry)]
    else []
  }

  /**
   * The wizard writes its line exactly when the run took an account awaiting
   * migration to one that no longer needs it.
   */
  lemma WizardLogsMigration(view: map<string, AccountState>, accountNumber: string, input: MigrationInput, stamp: string)
    ensures WizardLines(view, accountNumber, input, stamp) != [] <==>
      accountNumber in view && NeedsMigration(view[accountNumber])
      && !NeedsMigration(WizardEffect(view, accountNumber, input)[accountNumber])
  {
    if accountNumber in view && MigrationCheck(view[accountNumber].number, input) == Migrated {
      MigrationCompletes(view[accountNumber], input);
    }
  }

  /** The wizard moves no money: the total of all balances is what it was. */
  lemma WizardKeepsMoney(view: map<string, AccountState>, accountNumber: string, input: MigrationInput)
    ensures Sum(WizardEffect(view, accountNumber, input)) == Sum(view)
  {
    if accountNumber in view && NeedsMigration(view[accountNumber]) {
      MigrationKeepsLedger(view[accountNumber], input);
      SumUpdate(view, accountNumber, Migrate(view[accountNumber], input));
    }
  }

  method RunMigrationWizard(bank: Bank, accountNumber: string, input: MigrationInput,
                            log: AuditLog, stamp: string)
    requires bank.Valid()
    modifies bank.accounts.Values, log
    ensures bank.Valid() && bank.accounts == old(bank.accounts)
    ensures bank.View() == WizardEffect(old(bank.View()), accountNumber, input)
    ensures log.lines == old(log.lines) + WizardLines(old(bank.View()), accountNumber, input, stamp)
  {
    if !bank.AccountExists(accountNumber) {
      return;
    }
    var account := bank.accounts[accountNumber];
    if !NeedsMigration(account.State()) {
      return;
    }
    var ok := MigrateAccount(account, input);
    if ok {
      log.WriteLog(stamp, DepositSuccess(accountNumber, 0.0));
    }
    bank.OthersUnchanged(accountNumber);
  }
}
