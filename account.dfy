/**
 * A customer account: balance, append-only transaction history, credentials
 * and the lock flag. The transitions of `deposit` and `withdraw` are stated
 * as functions on a snapshot of the account (`AccountState`); the `Account`
 * class performs them in place and is proved to agree with them.
 */
module Accounts {
  import opened Wrappers
  import opened Transactions
  import opened Auth
  import opened Audit

  /** All fields of an account at one moment. */
  datatype AccountState = AccountState(
    number: string,
    name: string,
    balance: real,
    transactions: seq<Transaction>,
    passwordHash: Option<string>,
    pin: Option<string>,
    locked: bool)

  /** Every entry the ledger writes is a positive deposit or withdrawal. */
  predicate WellFormed(t: Transaction)
  {
    (t.kind == DEPOSIT || t.kind == WITHDRAW) && t.amount > 0.0
  }

  /** No prefix of the history ever overdraws the account. */
  predicate Solvent(txs: seq<Transaction>)
  {
    forall k :: 0 <= k <= |txs| ==> Net(txs[..k]) >= 0.0
  }

  /**
   * The ledger invariant: the balance is exactly what the history derives
   * from zero (deposits minus withdrawals), and the history never went
   * negative along the way.
   */
  predicate Consistent(s: AccountState)
  {
    && s.balance == Net(s.transactions)
    && (forall i :: 0 <= i < |s.transactions| ==> WellFormed(s.transactions[i]))
    && Solvent(s.transactions)
  }

  lemma ConsistentBalanceNonNegative(s: AccountState)
    requires Consistent(s)
    ensures s.balance >= 0.0
  {
    assert s.transactions[..|s.transactions|] == s.transactions;
  }

  /** Appending a well-formed entry that keeps the net non-negative keeps the history solvent. */
  lemma SolventAppend(txs: seq<Transaction>, t: Transaction)
    requires Solvent(txs) && WellFormed(t)
    requires Net(txs + [t]) >= 0.0
    ensures Solvent(txs + [t])
  {
    forall k | 0 <= k <= |txs + [t]|
      ensures Net((txs + [t])[..k]) >= 0.0
    {
      if k <= |txs| {
        assert (txs + [t])[..k] == txs[..k];
      } else {
        assert (txs + [t])[..k] == txs + [t];
      }
    }
  }

  /** `new Account(number, name, password, pin)`. */
  function Opened(number: string, name: string, password: string, pin: Option<string>): (s: AccountState)
    ensures s.number == number && s.name == name
    ensures s.balance == 0.0 && s.transactions == [] && !s.locked
    ensures s.passwordHash == HashPassword(password) && s.pin == pin
    ensures Consistent(s)
  {
    AccountState(number, name, 0.0, [], HashPassword(password), pin, false)
  }

  /** The effect of one call: its result, the account afterwards, and the audit entry it writes. */
  datatype Step = Step(ok: bool, after: AccountState, event: Option<string>)

  /** `deposit(amount)`. The lock flag is not consulted. */
  function DepositStep(s: AccountState, amount: real, now: DateTime): (r: Step)
    ensures r.ok <==> amount > 0.0
    ensures !r.ok ==> r.after == s && r.event == None
    ensures r.ok ==> r.after.balance == s.balance + amount
    ensures r.ok ==> r.after.transactions == s.transactions + [NewTransaction(DEPOSIT, amount, now)]
    ensures r.ok ==> r.event == Some(DepositSuccess(s.number, amount))
    ensures r.after == s.(balance := r.after.balance, transactions := r.after.transactions)
  {
    if amount <= 0.0 then Step(false, s, None)
    else
      var t := NewTransaction(DEPOSIT, amount, now);
      Step(true, s.(balance := s.balance + amount, transactions := s.transactions + [t]),
           Some(DepositSuccess(s.number, amount)))
  }

  /** Why `withdraw` fails, in the order the guards are checked. */
  datatype WithdrawOutcome = InvalidPin | InvalidAmount | InsufficientBalance | Withdrawn

  function WithdrawCheck(s: AccountState, amount: real, pin: Option<string>): (o: WithdrawOutcome)
    ensures o == InvalidPin <==> !VerifyPin(pin, s.pin)
    ensures o == InvalidAmount <==> VerifyPin(pin, s.pin) && amount <= 0.0
    ensures o == InsufficientBalance <==> VerifyPin(pin, s.pin) && 0.0 < amount && s.balance < amount
    ensures o == Withdrawn <==> VerifyPin(pin, s.pin) && 0.0 < amount <= s.balance
  {
    if !VerifyPin(pin, s.pin) then InvalidPin
    else if amount <= 0.0 then InvalidAmount
    else if amount > s.balance then InsufficientBalance
    else Withdrawn
  }

  /** The audit entry each outcome of `withdraw` writes. */
  function WithdrawEvent(number: string, o: WithdrawOutcome, amount: real): (e: string)
    ensures ActionOf(e) == Some(if o == InvalidPin then "WRONG_PIN" else "WITHDRAW")
    ensures o == InvalidPin ==> e == WrongPin(number)
    ensures o == InvalidAmount ==> e == WithdrawFailure(number, "Amount <= 0")
    ensures o == InsufficientBalance ==> e == WithdrawFailure(number, "Insufficient balance")
    ensures o == Withdrawn ==> e == WithdrawSuccess(number, amount)
  {
    match o
    case InvalidPin => WrongPin(number)
    case InvalidAmount => WithdrawFailure(number, "Amount <= 0")
    case InsufficientBalance => WithdrawFailure(number, "Insufficient balance")
    case Withdrawn => WithdrawSuccess(number, amount)
  }

  /** The entries of the four outcomes are pairwise different, so the log tells them apart. */
  lemma WithdrawEventsDistinct(number: string, o1: WithdrawOutcome, o2: WithdrawOutcome, amount: real)
    requires o1 != o2
    ensures WithdrawEvent(number, o1, amount) != WithdrawEvent(number, o2, amount)
  {
    if InvalidPin !in {o1, o2} {
      // Every WITHDRAW entry has its status value at the same position.
      var p := "ACTION=" + "WITHDRAW" + " account=" + number + " status=";
      CharAfterPrefix(p, "SUCCESS", " details=", "Amount=$" + AmountText(amount));
      CharAfterPrefix(p, "FAILED", " details=", "Amount <= 0");
      CharAfterPrefix(p, "FAILED", " details=", "Insufficient balance");
    }
  }

  /** `withdraw(amount, pin)`. The lock flag is not consulted. */
  function WithdrawStep(s: AccountState, amount: real, pin: Option<string>, now: DateTime): (r: Step)
    ensures r.ok <==> WithdrawCheck(s, amount, pin) == Withdrawn
    ensures !r.ok ==> r.after == s
    ensures r.ok ==> r.after.balance == s.balance - amount
    ensures r.ok ==> r.after.transactions == s.transactions + [NewTransaction(WITHDRAW, amount, now)]
    ensures r.event == Some(WithdrawEvent(s.number, WithdrawCheck(s, amount, pin), amount))
    ensures r.after == s.(balance := r.after.balance, transactions := r.after.transactions)
  {
    var o := WithdrawCheck(s, amount, pin);
    var event := Some(WithdrawEvent(s.number, o, amount));
    if o != Withdrawn then Step(false, s, event)
    else
      var t := NewTransaction(WITHDRAW, amount, now);
      Step(true, s.(balance := s.balance - amount, transactions := s.transactions + [t]), event)
  }

  /** A deposit keeps the ledger invariant. */
  lemma DepositPreservesConsistency(s: AccountState, amount: real, now: DateTime)
    requires Consistent(s)
    ensures Consistent(DepositStep(s, amount, now).after)
  {
    if amount > 0.0 {
      var t := NewTransaction(DEPOSIT, amount, now);
      NetAppend(s.transactions, t);
      ConsistentBalanceNonNegative(s);
      SolventAppend(s.transactions, t);
    }
  }

  /** A withdrawal keeps the ledger invariant, so the balance never goes negative. */
  lemma WithdrawPreservesConsistency(s: AccountState, amount: real, pin: Option<string>, now: DateTime)
    requires Consistent(s)
    ensures Consistent(WithdrawStep(s, amount, pin, now).after)
    ensures WithdrawStep(s, amount, pin, now).after.balance >= 0.0
  {
    var r := WithdrawStep(s, amount, pin, now);
    if r.ok {
      var t := NewTransaction(WITHDRAW, amount, now);
      NetAppend(s.transactions, t);
      SolventAppend(s.transactions, t);
    }
    ConsistentBalanceNonNegative(r.after);
  }

  /** A wrong PIN fails the same way whatever the amount, and before the amount is looked at. */
  lemma WrongPinIgnoresAmount(s: AccountState, a1: real, a2: real, pin: Option<string>, n1: DateTime, n2: DateTime)
    requires !VerifyPin(pin, s.pin)
    ensures WithdrawStep(s, a1, pin, n1).after == WithdrawStep(s, a2, pin, n2).after == s
    ensures WithdrawStep(s, a1, pin, n1).event == WithdrawStep(s, a2, pin, n2).event == Some(WrongPin(s.number))
  {
  }

  /** Locking an account does not stop deposits or withdrawals: both ignore the flag. */
  lemma StepsIgnoreLock(s: AccountState, amount: real, pin: Option<string>, now: DateTime, locked: bool)
    ensures var r := DepositStep(s, amount, now); var q := DepositStep(s.(locked := locked), amount, now);
      q.ok == r.ok && q.event == r.event && q.after == r.after.(locked := locked)
    ensures var r := WithdrawStep(s, amount, pin, now); var q := WithdrawStep(s.(locked := locked), amount, pin, now);
      q.ok == r.ok && q.event == r.event && q.after == r.after.(locked := locked)
  {
  }

  /** Neither operation alters an entry already in the history. */
  lemma StepsKeepHistory(s: AccountState, amount: real, pin: Option<string>, now: DateTime)
    ensures s.transactions <= DepositStep(s, amount, now).after.transactions
    ensures s.transactions <= WithdrawStep(s, amount, pin, now).after.transactions
    ensures |DepositStep(s, amount, now).after.transactions| <= |s.transactions| + 1
    ensures |WithdrawStep(s, amount, pin, now).after.transactions| <= |s.transactions| + 1
  {
  }

  class Account {
    const accountNumber: string
    const customerName: string
    var balance: real
    var transactions: seq<Transaction>
    var passwordHash: Option<string>
    var pin: Option<string>
    var isLocked: bool

    function State(): AccountState
      reads this
    {
      AccountState(accountNumber, customerName, balance, transactions, passwordHash, pin, isLocked)
    }

    ghost predicate Valid()
      reads this
    {
      Consistent(State())
    }

    constructor(accountNumber: string, customerName: string, password: string, pin: Option<string>)
      ensures State() == Opened(accountNumber, customerName, password, pin)
      ensures Valid()
    {
      this.accountNumber := accountNumber;
      this.customerName := customerName;
      this.passwordHash := HashPassword(password);
      this.pin := pin;
      this.balance := 0.0;
      this.transactions := [];
      this.isLocked := false;
    }

    method SetPasswordHash(passwordHash: Option<string>)
      modifies this
      ensures State() == old(State()).(passwordHash := passwordHash)
    {
      this.passwordHash := passwordHash;
    }

    method SetPin(pin: Option<string>)
      modifies this
      ensures State() == old(State()).(pin := pin)
    {
      this.pin := pin;
    }

    method SetLocked(locked: bool)
      modifies this
      ensures State() == old(State()).(locked := locked)
      ensures Valid() <==> old(Valid())
    {
      isLocked := locked;
    }

    method Lock()
      modifies this
      ensures State() == old(State()).(locked := true)
      ensures Valid() <==> old(Valid())
    {
      isLocked := true;
    }

    method Unlock()
      modifies this
      ensures State() == old(State()).(locked := false)
      ensures Valid() <==> old(Valid())
    {
      isLocked := false;
    }

    /** Appends an entry as given; the ledger invariant is the callers' business. */
    method AddTransaction(t: Transaction)
      modifies this
      ensures State() == old(State()).(transactions := old(transactions) + [t])
    {
      transactions := transactions + [t];
    }

    method Deposit(amount: real, now: DateTime, log: AuditLog, stamp: string) returns (ok: bool)
      requires Valid()
      modifies this, log
      ensures Valid()
      ensures var r := DepositStep(old(State()), amount, now);
        ok == r.ok && State() == r.after && log.lines == old(log.lines) + Logged(stamp, r.event)
    {
      DepositPreservesConsistency(State(), amount, now);
      if amount <= 0.0 {
        return false;
      }
      balance := balance + amount;
      AddTransaction(NewTransaction(DEPOSIT, amount, now));
      log.WriteLog(stamp, DepositSuccess(accountNumber, amount));
      return true;
    }

    method Withdraw(amount: real, pin: Option<string>, now: DateTime, log: AuditLog, stamp: string)
      returns (ok: bool)
      requires Valid()
      modifies this, log
      ensures Valid()
      ensures var r := WithdrawStep(old(State()), amount, pin, now);
        ok == r.ok && State() == r.after && log.lines == old(log.lines) + Logged(stamp, r.event)
    {
      WithdrawPreservesConsistency(State(), amount, pin, now);
      if !VerifyPin(pin, this.pin) {
        log.WriteLog(stamp, WrongPin(accountNumber));
        return false;
      }
      if amount <= 0.0 {
        log.WriteLog(stamp, WithdrawFailure(accountNumber, "Amount <= 0"));
        return false;
      }
      if amount > balance {
        log.WriteLog(stamp, WithdrawFailure(accountNumber, "Insufficient balance"));
        return false;
      }
      balance := balance - amount;
      AddTransaction(NewTransaction(WITHDRAW, amount, now));
      log.WriteLog(stamp, WithdrawSuccess(accountNumber, amount));
      return true;
    }
  }
}
