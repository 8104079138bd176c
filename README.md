# Banking system — a verified Dafny model

This project models the core of a single-user, command-line banking simulator written in Java. The model covers:

- **Accounts.** Each account has a balance, an append-only transaction history, a password digest, a PIN and a lock flag.
- **Credential checks.** The PIN format, PIN equality, the password digest, and the one built-in administrator password.
- **Migration of legacy accounts.** Accounts stored before passwords and PINs existed are upgraded through a dialogue.
- **The bank.** It files accounts under their numbers and opens new ones, either with a supplied number or a generated ten-digit one. It routes deposits and withdrawals, logs customers in, locks and unlocks accounts, and adds up all balances.
- **The audit log.** Operations append timestamped lines to it. The viewer shows its last lines.
- **The administrator session.** It gates locking, unlocking and log viewing.

One file per Java class, plus two support files:

| file | module | models |
|---|---|---|
| `wrappers.dfy` | `Wrappers` | `Option` for Java references that may be null |
| `java_lang.dfy` | `JavaLang` | Java `int`, the `(int)` cast of a `double`, `String.trim`, `%0<w>d` |
| `transaction.dfy` | `Transactions` | `Transaction` |
| `auth.dfy` | `Auth` | `AuthService` |
| `audit.dfy` | `Audit` | `AuditService` |
| `account.dfy` | `Accounts` | `Account` |
| `migration.dfy` | `Migration` | `AccountMigrationHelper.needsMigration` and `migrateAccount` |
| `bank.dfy` | `Banking` | `Bank` |
| `migration_wizard.dfy` | `MigrationWizard` | `AccountMigrationHelper.runMigrationWizard` |
| `admin.dfy` | `Admin` | `AdminService` |

The wizard gets a module of its own because it uses `Bank`, and `Bank` uses the migration dialogue.

## How the model is built

**Accounts.** Every call on an account is first a pure function on a snapshot of the account's fields (`AccountState`):

- `DepositStep` and `WithdrawStep` return the result, the account afterwards, and the audit entry written.
- The class `Accounts.Account` holds the same fields as the Java object and updates them in place.
- Each method is proved to leave `State()` equal to what the step function says.
- The ledger invariant `Consistent` holds from the constructor on and is preserved by every step. It says:
  - the balance equals deposits minus withdrawals;
  - every entry is a positive DEPOSIT or WITHDRAW;
  - no prefix of the history is overdrawn.

**The bank.**

- `Banking.Bank.accounts` is a map from numbers to `Account` objects.
- `View()` is the map of their snapshots.
- Each bank operation states the new `View()` in terms of the old one.

**The audit log.**

- It is an object holding a sequence of lines.
- Operations that log take the log and the timestamp text as parameters.
- Their contracts give the exact lines appended.

**Other inputs.**

- Console answers become parameters: the migration dialogue's answers are one `MigrationInput` record, and the administrator's choices are integers.
- The clock is a `DateTime` parameter.
- `Math.random` is a sequence of draws in [0, 1).

## Model

| member | source | states |
|---|---|---|
| JavaLang.Wrap32 | src/main/java/com/bankapp/AuditService.java:138 | Java `int` subtraction: the result agrees with the mathematical difference modulo 2^32 and equals it when in range. |
| JavaLang.DoubleToInt | src/main/java/com/bankapp/Bank.java:124-125 | The `(int)` cast rounds toward zero: down for a non-negative value, up for a negative one. It saturates at 2147483647 and -2147483648. |
| JavaLang.Trim | src/main/java/com/bankapp/Bank.java:23-26 | `trim` returns the slice between the first and the last char above U+0020. It is empty exactly when every char is at most U+0020. |
| JavaLang.TrimIdempotent | src/main/java/com/bankapp/Bank.java:26 | Trimming twice equals trimming once. |
| JavaLang.ZeroPad | src/main/java/com/bankapp/Bank.java:124 | `%0<w>d` of a number below 10^w is exactly w ASCII digits. |
| JavaLang.ZeroPadRoundTrip | src/main/java/com/bankapp/Bank.java:124 | Reading the padded digits back as a decimal gives the number formatted. |
| JavaLang.ZeroPadInjective | src/main/java/com/bankapp/Bank.java:124-126 | Two numbers padded to the same string are equal, so `containsKey` on the text is a test on the number. |
| Transactions.NewTransaction | src/main/java/com/bankapp/Transaction.java:14-18 | The constructor stores the type and amount as given, and the clock reading as the date. |
| Transactions.SetKind | src/main/java/com/bankapp/Transaction.java:24-26 | Overwrites the type and keeps amount and date. |
| Transactions.SetAmount | src/main/java/com/bankapp/Transaction.java:32-34 | Overwrites the amount and keeps type and date. |
| Transactions.SetDateTime | src/main/java/com/bankapp/Transaction.java:40-42 | Overwrites the date and keeps type and amount. |
| Transactions.NetAppend | src/main/java/com/bankapp/Account.java:89-91 | Appending a DEPOSIT or WITHDRAW changes deposits-minus-withdrawals by exactly its signed amount. |
| Auth.HashPassword | src/main/java/com/bankapp/AuthService.java:10-19 | The digest is always present and is 44 characters long: Base64 of 32 bytes. |
| Auth.VerifyPassword | src/main/java/com/bankapp/AuthService.java:21-24 | True iff the stored digest equals the digest of the input. A null stored digest never verifies. |
| Auth.VerifyOwnDigest | src/main/java/com/bankapp/AuthService.java:21-24 | A password always verifies against its own digest. |
| Auth.VerifyPin | src/main/java/com/bankapp/AuthService.java:26-28 | True iff both PINs are non-null and equal. A null input or a null stored PIN never verifies. |
| Auth.IsDigit | src/main/java/com/bankapp/AuthService.java:35 | `Character.isDigit` on one UTF-16 unit: the char lies in one of the Unicode blocks of ten decimal digits inside the BMP. |
| Auth.DigitRange | src/main/java/com/bankapp/AuthService.java:35 | `Character.isDigit` accepts '0'..'9' and nothing above U+FFFF. |
| Auth.AllDigits | src/main/java/com/bankapp/AuthService.java:34-38 | The for-each loop succeeds iff every char is a digit. |
| Auth.IsValidPin | src/main/java/com/bankapp/AuthService.java:30-40 | True iff the PIN is non-null, has length 4 and all four chars are digits. |
| Auth.DigitBelowArabicIndic | src/main/java/com/bankapp/AuthService.java:35 | Below U+0660 the only digits are the ASCII ones. |
| Auth.PinAcceptsDigits | src/main/java/com/bankapp/AuthService.java:30-40 | "1234", "0000" and four Arabic-Indic digits are all valid PINs, since `isDigit` is not ASCII-only. |
| Auth.PinRejects | src/main/java/com/bankapp/AuthService.java:31-37 | Null, "", "123", "12345", "12a4" and " 123" are rejected. |
| Auth.AdminPasswordHash | src/main/java/com/bankapp/AuthService.java:8 | The stored administrator digest is a 44-character text, and a password verifies against it iff its digest equals that of "admin123". |
| Auth.AuthenticateAdmin | src/main/java/com/bankapp/AuthService.java:42-44 | Equals checking against the fixed digest of "admin123", so "admin123" is accepted. |
| Audit.ActionOfRecord | src/main/java/com/bankapp/AuditService.java:45-103 | An entry `ACTION=<tag> <fields>` reads back as having that tag. |
| Audit.RecordText2 | src/main/java/com/bankapp/AuditService.java:45-48 | A two-field entry is `ACTION=`, the tag, and each label followed by its value, in order. |
| Audit.RecordText3 | src/main/java/com/bankapp/AuditService.java:50-53 | A three-field entry is `ACTION=`, the tag, and each label followed by its value, in order. |
| Audit.LoginSuccess | src/main/java/com/bankapp/AuditService.java:45-48 | The entry is exactly the text `ACTION=LOGIN account=<n> status=SUCCESS`, with the arguments in place. It reads back as tag LOGIN. |
| Audit.LoginFailure | src/main/java/com/bankapp/AuditService.java:50-53 | The entry is exactly the text `ACTION=LOGIN account=<n> status=FAILED details=<reason>`, with the arguments in place. It reads back as tag LOGIN. |
| Audit.WrongPassword | src/main/java/com/bankapp/AuditService.java:55-58 | The entry is exactly the text `ACTION=WRONG_PASSWORD account=<n> status=FAILED details=Invalid password attempt`, with the arguments in place. It reads back as tag WRONG_PASSWORD. |
| Audit.WrongPin | src/main/java/com/bankapp/AuditService.java:60-63 | The entry is exactly the text `ACTION=WRONG_PIN account=<n> status=FAILED details=Invalid PIN attempt`, with the arguments in place. It reads back as tag WRONG_PIN. |
| Audit.WithdrawSuccess | src/main/java/com/bankapp/AuditService.java:65-68 | The entry is exactly the text `ACTION=WITHDRAW account=<n> status=SUCCESS details=Amount=$<amount>`, with the arguments in place. It reads back as tag WITHDRAW. |
| Audit.WithdrawFailure | src/main/java/com/bankapp/AuditService.java:70-73 | The entry is exactly the text `ACTION=WITHDRAW account=<n> status=FAILED details=<reason>`, with the arguments in place. It reads back as tag WITHDRAW. |
| Audit.DepositSuccess | src/main/java/com/bankapp/AuditService.java:75-78 | The entry is exactly the text `ACTION=DEPOSIT account=<n> status=SUCCESS details=Amount=$<amount>`, with the arguments in place. It reads back as tag DEPOSIT. |
| Audit.AccountLocked | src/main/java/com/bankapp/AuditService.java:80-83 | The entry is exactly the text `ACTION=ACCOUNT_LOCK account=<n> status=SUCCESS details=Locked by admin=<admin>`, with the arguments in place. It reads back as tag ACCOUNT_LOCK. |
| Audit.AccountUnlocked | src/main/java/com/bankapp/AuditService.java:85-88 | The entry is exactly the text `ACTION=ACCOUNT_UNLOCK account=<n> status=SUCCESS details=Unlocked by admin=<admin>`, with the arguments in place. It reads back as tag ACCOUNT_UNLOCK. |
| Audit.AdminLogin | src/main/java/com/bankapp/AuditService.java:90-93 | The entry is exactly the text `ACTION=ADMIN_LOGIN admin=<admin> status=SUCCESS`, with the arguments in place. It reads back as tag ADMIN_LOGIN. |
| Audit.AdminLoginFailure | src/main/java/com/bankapp/AuditService.java:95-98 | The entry is exactly the text `ACTION=ADMIN_LOGIN status=FAILED details=<reason>`, with the arguments in place. It reads back as tag ADMIN_LOGIN. |
| Audit.AdminLogout | src/main/java/com/bankapp/AuditService.java:100-103 | The entry is exactly the text `ACTION=ADMIN_LOGOUT admin=<admin> status=SUCCESS`, with the arguments in place. It reads back as tag ADMIN_LOGOUT. |
| Audit.LineParts | src/main/java/com/bankapp/AuditService.java:32 | A line is `[`, the timestamp, `] ` and then the entry, and each part can be read back. |
| Audit.StartIndex | src/main/java/com/bankapp/AuditService.java:138 | The start is `max(0, n - limit)` when `n - limit` fits an `int`, and 0 when it overflows to a negative number. |
| Audit.Window | src/main/java/com/bankapp/AuditService.java:128-144 | What the display shows: nothing for an empty log, otherwise the header `min(limit, n)`, the lines from `StartIndex` on, and the total `n`. |
| Audit.WindowShape | src/main/java/com/bankapp/AuditService.java:128-144 | For every limit, an empty log shows nothing. Otherwise:<br>- the header is `min(limit, n)` and the footer `n`;<br>- the lines are a suffix of the log;<br>- a non-positive limit shows no line unless `n - limit` overflows, in which case every line is shown. |
| Audit.WindowShowsLast | src/main/java/com/bankapp/AuditService.java:128-144 | For a positive limit:<br>- an empty log shows nothing;<br>- otherwise the header is `min(limit, n)`;<br>- the lines are the last `min(limit, n)` in order;<br>- the footer is `n`. |
| Audit.WindowMinLimitShowsAll | src/main/java/com/bankapp/AuditService.java:138 | With limit `Integer.MIN_VALUE`, `n - limit` wraps to a negative number, and every line is shown. |
| Audit.AuditLog.constructor | src/main/java/com/bankapp/AuditService.java:105-123 | The log starts with the lines already stored. |
| Audit.AuditLog.WriteLog | src/main/java/com/bankapp/AuditService.java:29-43 | Appends exactly one line `[stamp] entry` and keeps every earlier line. |
| Audit.AuditLog.DisplayAuditLogs | src/main/java/com/bankapp/AuditService.java:125-145 | The index loop from `max(0, n - limit)` produces exactly `Window`: the header, the slice of lines and the total. |
| Accounts.ConsistentBalanceNonNegative | src/main/java/com/bankapp/Account.java:117-127 | Under the ledger invariant the balance is never negative. |
| Accounts.SolventAppend | src/main/java/com/bankapp/Account.java:117-125 | A positive entry that keeps the net non-negative keeps every prefix of the history non-negative. |
| Accounts.Opened | src/main/java/com/bankapp/Account.java:15-23 | A new account has:<br>- balance 0 and an empty history;<br>- is unlocked;<br>- the given PIN and the digest of the password;<br>- satisfies the ledger invariant. |
| Accounts.Consistent | src/main/java/com/bankapp/Account.java:93-128 | The ledger invariant: the balance is deposits minus withdrawals, every entry is a positive DEPOSIT or WITHDRAW, and no prefix of the history is overdrawn. |
| Accounts.DepositStep | src/main/java/com/bankapp/Account.java:93-102 | Success iff amount > 0. On success:<br>- the balance rises by the amount;<br>- exactly one DEPOSIT entry is appended;<br>- a DEPOSIT line is logged.<br>On failure nothing changes and nothing is logged. No other field changes; the lock is not consulted. |
| Accounts.WithdrawCheck | src/main/java/com/bankapp/Account.java:104-122 | The guards, in order: wrong PIN, then amount <= 0, then amount > balance, then success. Each outcome holds iff its condition does. |
| Accounts.WithdrawEvent | src/main/java/com/bankapp/Account.java:105-126 | Each outcome logs its own entry:<br>- a wrong PIN logs WRONG_PIN;<br>- amount <= 0 logs a WITHDRAW failure with reason "Amount <= 0";<br>- too little money logs one with reason "Insufficient balance";<br>- success logs a WITHDRAW success with the amount. |
| Accounts.WithdrawEventsDistinct | src/main/java/com/bankapp/Account.java:105-126 | The four outcomes write four different entries. |
| Accounts.WithdrawStep | src/main/java/com/bankapp/Account.java:104-128 | Succeeds iff the checks pass. On success:<br>- the balance falls by the amount;<br>- one WITHDRAW entry is appended.<br>On failure nothing changes. Each outcome logs its own entry, and no other field changes. |
| Accounts.DepositPreservesConsistency | src/main/java/com/bankapp/Account.java:93-102 | A deposit keeps the balance equal to deposits minus withdrawals, with a solvent history. |
| Accounts.WithdrawPreservesConsistency | src/main/java/com/bankapp/Account.java:104-128 | A withdrawal keeps the ledger invariant and leaves the balance >= 0. |
| Accounts.WrongPinIgnoresAmount | src/main/java/com/bankapp/Account.java:105-109 | With a wrong PIN the account is unchanged and WRONG_PIN is logged, whatever the amount. |
| Accounts.StepsIgnoreLock | src/main/java/com/bankapp/Account.java:93-128 | Deposit and withdraw behave identically on a locked and an unlocked account. |
| Accounts.StepsKeepHistory | src/main/java/com/bankapp/Account.java:89-91 | Earlier entries are never altered, and at most one entry is added. |
| Accounts.Account.constructor | src/main/java/com/bankapp/Account.java:15-23 | The new object's fields are those of `Opened`, and the invariant holds. |
| Accounts.Account.SetPasswordHash | src/main/java/com/bankapp/Account.java:29-31 | Only the digest changes. |
| Accounts.Account.SetPin | src/main/java/com/bankapp/Account.java:37-39 | Only the PIN changes. |
| Accounts.Account.SetLocked | src/main/java/com/bankapp/Account.java:45-47 | Only the lock flag changes, and the ledger invariant is unaffected. |
| Accounts.Account.Lock | src/main/java/com/bankapp/Account.java:49-51 | The flag becomes true and nothing else changes, so locking twice is locking once. |
| Accounts.Account.Unlock | src/main/java/com/bankapp/Account.java:53-55 | The flag becomes false and nothing else changes. |
| Accounts.Account.AddTransaction | src/main/java/com/bankapp/Account.java:89-91 | Appends the entry as given and changes nothing else. |
| Accounts.Account.Deposit | src/main/java/com/bankapp/Account.java:93-102 | Result, new fields and appended log lines are those of `DepositStep`, and the invariant is kept. |
| Accounts.Account.Withdraw | src/main/java/com/bankapp/Account.java:104-128 | Result, new fields and appended log lines are those of `WithdrawStep`, and the invariant is kept. |
| Migration.NeedsMigration | src/main/java/com/bankapp/AccountMigrationHelper.java:8-13 | True iff the password digest or the PIN is null or empty. |
| Migration.MigrationCheck | src/main/java/com/bankapp/AccountMigrationHelper.java:29-56 | The dialogue's checks, in order: number confirmation, password confirmation, PIN format, PIN confirmation. Each outcome holds iff its condition does. |
| Migration.Migrate | src/main/java/com/bankapp/AccountMigrationHelper.java:59-61 | Any failed check leaves the account unchanged. Success sets the new digest and PIN and clears the lock. |
| Migration.MigrationCompletes | src/main/java/com/bankapp/AccountMigrationHelper.java:59-67 | After success:<br>- the account no longer needs migration;<br>- it accepts exactly the new password and PIN;<br>- its PIN is valid;<br>- it is unlocked. |
| Migration.MigrationKeepsLedger | src/main/java/com/bankapp/AccountMigrationHelper.java:59-61 | Number, name, balance and history are untouched, and the ledger invariant is kept. |
| Migration.MismatchIgnoresLaterAnswers | src/main/java/com/bankapp/AccountMigrationHelper.java:29-33 | A wrong confirmation of the account number cancels the dialogue whatever the other answers are. |
| Migration.MalformedPinIgnoresConfirmation | src/main/java/com/bankapp/AccountMigrationHelper.java:45-56 | The PIN confirmation plays no part when the PIN is malformed. |
| Migration.MigrationUnlocks | src/main/java/com/bankapp/AccountMigrationHelper.java:61 | A locked account is unlocked by a successful migration. |
| Migration.OpenedNeedsNoMigration | src/main/java/com/bankapp/AccountMigrationHelper.java:8-13 | An account opened with a valid PIN does not need migration. |
| Migration.MigrateAccount | src/main/java/com/bankapp/AccountMigrationHelper.java:18-68 | Returns true iff all checks pass. The account afterwards is `Migrate` of the account before, and the ledger invariant is kept. |
| Banking.Candidate | src/main/java/com/bankapp/Bank.java:124-125 | A generated candidate is ten ASCII digits. |
| Banking.CandidateValue | src/main/java/com/bankapp/Bank.java:124-125 | A candidate reads back as the scaled draw rounded down, and never above 2147483647. Every draw from 0.2147483647 upward gives "2147483647". |
| Banking.CandidateReaches | src/main/java/com/bankapp/Bank.java:124-125 | Every number from 0 to 2147483647 is the candidate of some draw. |
| Banking.FreshCandidateExists | src/main/java/com/bankapp/Bank.java:123-126 | While fewer than 2^31 numbers are taken, some draw gives a free number, so the retry loop can stop. |
| Banking.CandidatesDistinct | src/main/java/com/bankapp/Bank.java:124-126 | Two draws give the same candidate number iff they scale to the same `int`. |
| Banking.Supplied | src/main/java/com/bankapp/Bank.java:23-26 | A supplied number is used trimmed. It counts as missing exactly when it is null or only blanks. |
| Banking.SuppliedIdempotent | src/main/java/com/bankapp/Bank.java:26 | Supplying an already trimmed number changes nothing. |
| Banking.LoginDecision | src/main/java/com/bankapp/Bank.java:149-170 | The order is unknown, then locked, then wrong password, then success. Each outcome holds iff its condition does. |
| Banking.LoginEvent | src/main/java/com/bankapp/Bank.java:152-168 | Each outcome logs its own entry:<br>- an unknown number logs a LOGIN failure with reason "Account not found";<br>- a locked account logs one with reason "Account locked";<br>- a wrong password logs WRONG_PASSWORD;<br>- success logs a LOGIN success. |
| Banking.LoginEventsDistinct | src/main/java/com/bankapp/Bank.java:152-168 | The four outcomes write four different entries, so a locked account is reported apart from an unknown one. |
| Banking.LockedRefusesEveryPassword | src/main/java/com/bankapp/Bank.java:157-161 | A locked account refuses every password alike, without looking at it. |
| Banking.LoginNeedsStoredDigest | src/main/java/com/bankapp/Bank.java:163-169 | A successful login had the password's own digest stored, so an account awaiting migration cannot log in. |
| Banking.LoginIgnoresLedger | src/main/java/com/bankapp/Bank.java:149-170 | Login does not depend on balance, history or PIN. |
| Banking.Sum | src/main/java/com/bankapp/Bank.java:190-196 | The total of the balances of all accounts. |
| Banking.SumRemove | src/main/java/com/bankapp/Bank.java:190-196 | The total can be taken starting from any account, so the iteration order of the map does not matter. |
| Banking.SumUpdate | src/main/java/com/bankapp/Bank.java:190-196 | Replacing one account changes the total by the change of its balance. |
| Banking.SumAdd | src/main/java/com/bankapp/Bank.java:38-39 | Filing a new account adds its balance to the total. |
| Banking.OpenKeepsTotal | src/main/java/com/bankapp/Bank.java:38-39 | Filing a newly opened account leaves the total unchanged, since it starts at 0. |
| Banking.DepositMovesTotal | src/main/java/com/bankapp/Bank.java:50-66 | A deposit raises the bank's total by exactly the amount credited, and by nothing on failure. |
| Banking.WithdrawMovesTotal | src/main/java/com/bankapp/Bank.java:68-84 | A withdrawal lowers the total by exactly the amount paid out, and by nothing on failure. |
| Banking.Bank.constructor | src/main/java/com/bankapp/Bank.java:10-12 | A new bank has no accounts. |
| Banking.Bank.Valid | src/main/java/com/bankapp/Bank.java:8 | The bank invariant: every account is filed under its own number and keeps the ledger invariant. |
| Banking.Bank.View | src/main/java/com/bankapp/Bank.java:8 | The account snapshots are keyed by exactly the numbers in the map. |
| Banking.Bank.TotalNonNegative | src/main/java/com/bankapp/Bank.java:190-196 | The total of all balances is never negative. |
| Banking.Bank.AccountExists | src/main/java/com/bankapp/Bank.java:113-115 | True iff the number is filed. |
| Banking.Bank.GetTotalAccounts | src/main/java/com/bankapp/Bank.java:117-119 | The number of filed accounts. |
| Banking.Bank.GenerateAccountNumber | src/main/java/com/bankapp/Bank.java:121-129 | Returns a number not yet taken: the candidate of the first draw whose candidate is free. Every earlier draw's candidate is taken. |
| Banking.Bank.CreateAccount | src/main/java/com/bankapp/Bank.java:22-48 | Refuses iff the trimmed supplied number is taken or the PIN is invalid, and then files nothing. A missing number is generated. On success:<br>- exactly that number is added;<br>- it maps to a fresh account, opened as `Opened` says;<br>- the other accounts are unchanged;<br>- the bank's total balance is unchanged. |
| Banking.Bank.Deposit | src/main/java/com/bankapp/Bank.java:50-66 | An unknown number fails with no change. Otherwise the result, the account and the log follow `DepositStep`, and no other account changes. |
| Banking.Bank.Withdraw | src/main/java/com/bankapp/Bank.java:68-84 | An unknown number fails with no change. Otherwise the result, the account and the log follow `WithdrawStep`, and no other account changes. |
| Banking.Bank.AuthenticateUser | src/main/java/com/bankapp/Bank.java:149-170 | Returns the filed account iff `LoginDecision` is success. Logs exactly that decision's entry. Changes no account. |
| Banking.Bank.AuthenticateUserWithMigration | src/main/java/com/bankapp/Bank.java:251-291 | An unknown number gives null with no log. An account awaiting migration goes through `Migrate` and always gives null. Otherwise the behaviour is `authenticateUser`'s, with no account changed. |
| Banking.Bank.LockAccount | src/main/java/com/bankapp/Bank.java:172-179 | True iff the number is filed. Then that account becomes locked and nothing else changes. |
| Banking.Bank.UnlockAccount | src/main/java/com/bankapp/Bank.java:181-188 | True iff the number is filed. Then that account becomes unlocked and nothing else changes. |
| Banking.Bank.GetTotalBankBalance | src/main/java/com/bankapp/Bank.java:190-196 | The accumulator loop returns the sum of all balances. |
| MigrationWizard.WizardEffect | src/main/java/com/bankapp/AccountMigrationHelper.java:82-94 | An unknown account, or one not needing migration, is left alone. Otherwise only that account changes, as `Migrate` says. |
| MigrationWizard.WizardLines | src/main/java/com/bankapp/AccountMigrationHelper.java:94-98 | At most one line, written iff a migration was carried out. That line is the stamped DEPOSIT success entry for the account with amount 0, the wizard's record of a migration. |
| MigrationWizard.WizardLogsMigration | src/main/java/com/bankapp/AccountMigrationHelper.java:90-98 | The wizard writes its line iff the account needed migration before the run and no longer needs it after. |
| MigrationWizard.WizardKeepsMoney | src/main/java/com/bankapp/AccountMigrationHelper.java:73-99 | The wizard leaves the bank's total unchanged. |
| MigrationWizard.RunMigrationWizard | src/main/java/com/bankapp/AccountMigrationHelper.java:73-99 | Accounts afterwards are `WizardEffect` of the accounts before. The log gains exactly `WizardLines`. |
| Admin.EffectiveLimit | src/main/java/com/bankapp/AdminService.java:146-148 | A requested limit <= 0 becomes 50; a positive one is kept. |
| Admin.ViewerShowsLast | src/main/java/com/bankapp/AdminService.java:143-150 | Whatever is typed, the viewer shows the last `min(limit, n)` lines in order. |
| Admin.LockUnlockEffect | src/main/java/com/bankapp/AdminService.java:119-140 | Only the chosen account's lock flag can change: choice 1 locks, choice 2 unlocks. Any other choice or an unknown number changes nothing. |
| Admin.LockUnlockLog | src/main/java/com/bankapp/AdminService.java:128-140 | One line iff the number is filed and the choice is 1 or 2. Choice 1 logs the ACCOUNT_LOCK entry and choice 2 the ACCOUNT_UNLOCK entry, each with the account number and the admin user "ADMIN". |
| Admin.LockUnlockKeepsMoney | src/main/java/com/bankapp/AdminService.java:115-141 | Locking and unlocking leave the bank's total unchanged. |
| Admin.AdminService.constructor | src/main/java/com/bankapp/AdminService.java:8-11 | A new session is logged out. |
| Admin.AdminService.Login | src/main/java/com/bankapp/AdminService.java:13-24 | Succeeds iff the administrator password is accepted, and then opens the session. Appends one ADMIN_LOGIN entry for success or for failure. |
| Admin.AdminService.Logout | src/main/java/com/bankapp/AdminService.java:26-32 | Closes the session. Appends an ADMIN_LOGOUT entry only if a session was open. |
| Admin.AdminService.ShowAdminMenu | src/main/java/com/bankapp/AdminService.java:34-38 | The menu is entered iff the administrator is logged in. |
| Admin.AdminService.LockUnlockAccount | src/main/java/com/bankapp/AdminService.java:115-141 | Accounts afterwards are `LockUnlockEffect` of those before, and the log gains exactly `LockUnlockLog`. |
| Admin.AdminService.ViewAuditLogs | src/main/java/com/bankapp/AdminService.java:143-150 | Shows the log window for the effective limit. |

## Left out

- **Console I/O and the menu loops.** The menu loops of `Main`, `showAdminMenu` and `InputUtil` are not modelled. Console answers are parameters. So are the account number confirmation, passwords and PINs of the migration dialogue, and the admin's lock/unlock choice and log limit. All printed messages are left out.
- **Persistence.** The JSON files written by `FileStorage` are not modelled, so neither is `saveToFile` after a migration. Log file creation, file appends and swallowed `IOException`s are also left out. The audit log is an in-memory sequence, and the log file's earlier contents are given to its constructor.
- **Floating point.** Money is `real`, with no IEEE rounding, NaN or infinities. The `%.2f` text in amount-bearing log entries is an arbitrary fixed function of the amount.
- **SHA-256 and Base64.** They are an arbitrary fixed function giving 44-character strings. `hashPassword`'s null result on a missing algorithm cannot happen on a Java platform and is not modelled.
- **The clock.** Timestamps are parameters: a `DateTime` value for transactions and a text stamp for log lines.
- **`Math.random`** is an explicit sequence of draws in [0, 1).
- Banking.Bank.GenerateAccountNumber: requires that some supplied draw yields a free number. Java loops until one does, which cannot be bounded. `FreshCandidateExists` proves such a draw exists while fewer than 2^31 numbers are taken.
- Banking.Bank.CreateAccount: requires free draws when the number must be generated, for the same reason.
- Banking.Bank.GetTotalAccounts: returns an unbounded natural number. `HashMap.size` would saturate at 2147483647.
- Banking.Bank.GetTotalBankBalance: adds the balances in an unspecified order, like `HashMap` iteration. With reals the order does not matter; with doubles it would.
- Banking.Bank.AuthenticateUserWithMigration: takes the password as a parameter. Java reads it only when no migration is needed, and the parameter plays no part otherwise. Like the Java code, it writes no audit entry for an unknown number.
- Admin.AdminService.LockUnlockAccount and Admin.AdminService.ViewAuditLogs: require an open session. In Java they are private and reached only through the logged-in menu.
- Audit.AuditLog.DisplayAuditLogs: requires at most 2^31 - 1 lines, the largest size of a Java `List`.
- **Raw setters.** `setBalance`, `setTransactions`, `setAccountNumber` and `setCustomerName` exist only for deserialisation and bypass the ledger invariant, so they are not modelled. The account number and customer name are `const` fields.
- **Aliasing.** `getTransactions` hands out the live list, so a caller could alter the history. The model's history is a value, so such aliasing is not modelled.
- **Stored data.** Accounts loaded from storage are assumed to meet the bank invariant `Banking.Bank.Valid`. Each is filed under its own number, and each is `Consistent`: its balance is the net of its history, and the history is solvent. Loading is not modelled, so nothing shows that stored files meet this.
- **Null account numbers.** Null numbers passed to `deposit`, `withdraw`, login, lock and unlock are not modelled. Java's `HashMap` would report them as not found, as it does for any unknown number.
- **Display methods.** `checkBalance`, `viewTransactions`, `displayAllAccounts`, `displayAllAccountsAdmin`, `displayTransactions`, `getAccount`, `toString` and the admin's account views are not modelled.
- **Line ends.** The trailing newline `%n` of each file line is not part of a line.
