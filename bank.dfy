/**
 * The bank: the map from account number to account, account opening with
 * generated numbers, routing of deposits and withdrawals, customer login
 * (with and without the migration detour), locking, and the total of all
 * balances.
 */
module Banking {
  import opened Wrappers
  import opened JavaLang
  import opened Transactions
  import opened Auth
  import opened Audit
  import opened Accounts
  import opened Migration

  // ---------------------------------------------------------------------------
  // Generated account numbers

  /** Generated numbers are printed with `%010d`: ten digits. */
  const AccountNumberWidth: nat := 10

  lemma Pow10Ten()
    ensures Pow10(AccountNumberWidth) == 10000000000
  {
    assert Pow10(1) == 10;
    assert Pow10(3) == 1000;
    assert Pow10(5) == 100000;
    assert Pow10(7) == 10000000;
    assert Pow10(9) == 1000000000;
  }

  /**
   * One attempt of `generateAccountNumber`: the random draw in [0, 1) is
   * scaled by ten billion, narrowed to `int` (which saturates at
   * 2147483647) and zero-padded to ten digits.
   */
  function Candidate(draw: real): (s: string)
    requires 0.0 <= draw < 1.0
    ensures |s| == 10 && forall k :: 0 <= k < |s| ==> IsAsciiDigit(s[k])
  {
    Pow10Ten();
    ZeroPad(DoubleToInt(draw * 10000000000.0), AccountNumberWidth)
  }

  /**
   * A candidate reads back as the scaled draw, rounded down, and never above
   * 2147483647; every draw from 0.2147483647 upward gives that same number.
   */
  lemma CandidateValue(draw: real)
    requires 0.0 <= draw < 1.0
    ensures DecimalValue(Candidate(draw)) == DoubleToInt(draw * 10000000000.0) <= MaxInt32
    ensures draw * 10000000000.0 < MaxInt32 as real ==>
      DecimalValue(Candidate(draw)) as real <= draw * 10000000000.0 < DecimalValue(Candidate(draw)) as real + 1.0
    ensures MaxInt32 as real <= draw * 10000000000.0 ==> Candidate(draw) == ZeroPad(MaxInt32, AccountNumberWidth)
  {
    Pow10Ten();
    ZeroPadRoundTrip(DoubleToInt(draw * 10000000000.0), AccountNumberWidth);
  }

  /** Every number from 0 to 2147483647 is the candidate of some draw. */
  lemma CandidateReaches(n: nat)
    requires n <= MaxInt32
    ensures 0.0 <= n as real / 10000000000.0 < 1.0
    ensures Pow10(AccountNumberWidth) == 10000000000 && Candidate(n as real / 10000000000.0) == ZeroPad(n, AccountNumberWidth)
  {
    Pow10Ten();
    var draw := n as real / 10000000000.0;
    assert draw * 10000000000.0 == n as real;
    assert DoubleToInt(n as real) == n;
  }

  /** Draws that scale to different numbers give different candidates. */
  lemma CandidatesDistinct(d1: real, d2: real)
    requires 0.0 <= d1 < 1.0 && 0.0 <= d2 < 1.0
    ensures Candidate(d1) == Candidate(d2) <==> DoubleToInt(d1 * 10000000000.0) == DoubleToInt(d2 * 10000000000.0)
  {
    Pow10Ten();
    var m, n := DoubleToInt(d1 * 10000000000.0), DoubleToInt(d2 * 10000000000.0);
    if Candidate(d1) == Candidate(d2) {
      ZeroPadInjective(m, n, AccountNumberWidth);
    }
  }

  /** The first `k` numbers, padded to `width` digits. */
  ghost function Padded(k: nat, width: nat): set<string>
    requires k <= Pow10(width)
  {
    if k == 0 then {} else Padded(k - 1, width) + {ZeroPad(k - 1, width)}
  }

  /** Every member of `Padded(k, width)` reads back as a number below `k`. */
  lemma {:induction false} PaddedBelow(k: nat, width: nat, x: string)
    requires k <= Pow10(width) && x in Padded(k, width)
    ensures forall i :: 0 <= i < |x| ==> IsAsciiDigit(x[i])
    ensures DecimalValue(x) < k
  {
    if x == ZeroPad(k - 1, width) {
      ZeroPadRoundTrip(k - 1, width);
    } else {
      PaddedBelow(k - 1, width, x);
    }
  }

  /** Padding is injective, so the first `k` padded numbers are `k` strings. */
  lemma {:induction false} PaddedSize(k: nat, width: nat)
    requires k <= Pow10(width)
    ensures |Padded(k, width)| == k
  {
    if k > 0 {
      PaddedSize(k - 1, width);
      if ZeroPad(k - 1, width) in Padded(k - 1, width) {
        PaddedBelow(k - 1, width, ZeroPad(k - 1, width));
        ZeroPadRoundTrip(k - 1, width);
      }
    }
  }

  lemma {:induction false} PaddedWithin(k: nat, width: nat, taken: set<string>)
    requires k <= Pow10(width)
    requires forall n :: 0 <= n < k ==> ZeroPad(n, width) in taken
    ensures Padded(k, width) <= taken
  {
    if k > 0 {
      PaddedWithin(k - 1, width, taken);
    }
  }

  lemma {:induction false} SubsetSize<T>(a: set<T>, b: set<T>)
    requires a <= b
    ensures |a| <= |b|
    decreases a
  {
    if a != {} {
      var x :| x in a;
      SubsetSize(a - {x}, b - {x});
    }
  }

  /**
   * While fewer than 2^31 numbers are taken some draw yields a fresh one, so
   * the retry loop of `generateAccountNumber` can end.
   */
  lemma FreshCandidateExists(taken: set<string>)
    requires |taken| <= MaxInt32
    ensures exists draw :: 0.0 <= draw < 1.0 && Candidate(draw) !in taken
  {
    Pow10Ten();
    if forall n :: 0 <= n <= MaxInt32 ==> ZeroPad(n, AccountNumberWidth) in taken {
      PaddedSize(MaxInt32 + 1, AccountNumberWidth);
      PaddedWithin(MaxInt32 + 1, 10, taken);
      SubsetSize(Padded(MaxInt32 + 1, AccountNumberWidth), taken);
      assert false;
    }
    var n :| 0 <= n <= MaxInt32 && ZeroPad(n, AccountNumberWidth) !in taken;
    CandidateReaches(n);
  }

  /** Every draw lies in [0, 1), the range of `Math.random`. */
  predicate ValidDraws(draws: seq<real>)
  {
    forall i :: 0 <= i < |draws| ==> 0.0 <= draws[i] < 1.0
  }

  /** Some draw of the sequence yields a number not yet taken. */
  predicate HasFresh(taken: set<string>, draws: seq<real>)
    requires ValidDraws(draws)
  {
    exists i :: 0 <= i < |draws| && Candidate(draws[i]) !in taken
  }

  /** The account number a caller supplied, trimmed; `None` when it is null or blank. */
  function Supplied(accountNumber: Option<string>): (r: Option<string>)
    ensures r.None? <==> accountNumber.None? || forall k :: 0 <= k < |accountNumber.value| ==> IsTrimmed(accountNumber.value[k])
    ensures r.Some? ==> r.value == Trim(accountNumber.value) && r.value != []
  {
    if accountNumber.None? || Trim(accountNumber.value) == [] then None
    else Some(Trim(accountNumber.value))
  }

  /** Supplying an already trimmed number changes nothing. */
  lemma SuppliedIdempotent(accountNumber: Option<string>)
    ensures Supplied(Supplied(accountNumber)) == Supplied(accountNumber)
  {
    if Supplied(accountNumber).Some? {
      TrimIdempotent(accountNumber.value);
    }
  }

  // ---------------------------------------------------------------------------
  // Customer login

  /** How `authenticateUser` decides, in the order of its checks. */
  datatype LoginOutcome = UnknownAccount | AccountIsLocked | BadPassword | LoggedIn

  function LoginDecision(view: map<string, AccountState>, accountNumber: string, password: string): (o: LoginOutcome)
    ensures o == UnknownAccount <==> accountNumber !in view
    ensures o == AccountIsLocked <==> accountNumber in view && view[accountNumber].locked
    ensures o == BadPassword <==>
      accountNumber in view && !view[accountNumber].locked
      && !VerifyPassword(password, view[accountNumber].passwordHash)
    ensures o == LoggedIn <==>
      accountNumber in view && !view[accountNumber].locked
      && VerifyPassword(password, view[accountNumber].passwordHash)
  {
    if accountNumber !in view then UnknownAccount
    else if view[accountNumber].locked then AccountIsLocked
    else if !VerifyPassword(password, view[accountNumber].passwordHash) then BadPassword
    else LoggedIn
  }

  /** The audit entry each login outcome writes. */
  function LoginEvent(accountNumber: string, o: LoginOutcome): (e: string)
    ensures ActionOf(e) == Some(if o == BadPassword then "WRONG_PASSWORD" else "LOGIN")
    ensures o == UnknownAccount ==> e == LoginFailure(accountNumber, "Account not found")
    ensures o == AccountIsLocked ==> e == LoginFailure(accountNumber, "Account locked")
    ensures o == BadPassword ==> e == WrongPassword(accountNumber)
    ensures o == LoggedIn ==> e == LoginSuccess(accountNumber)
  {
    match o
    case UnknownAccount => LoginFailure(accountNumber, "Account not found")
    case AccountIsLocked => LoginFailure(accountNumber, "Account locked")
    case BadPassword => WrongPassword(accountNumber)
    case LoggedIn => LoginSuccess(accountNumber)
  }

  /** The entries of the four login outcomes are pairwise different; in particular a locked account is reported apart from an unknown one. */
  lemma LoginEventsDistinct(accountNumber: string, o1: LoginOutcome, o2: LoginOutcome)
    requires o1 != o2
    ensures LoginEvent(accountNumber, o1) != LoginEvent(accountNumber, o2)
  {
    var e1, e2 := LoginEvent(accountNumber, o1), LoginEvent(accountNumber, o2);
    if o1 != BadPassword && o2 != BadPassword {
      assert |e1| != |e2|;
    }
  }

  /** A locked account refuses every password alike, the right one included. */
  lemma LockedRefusesEveryPassword(view: map<string, AccountState>, accountNumber: string, p1: string, p2: string)
    requires accountNumber in view && view[accountNumber].locked
    ensures LoginDecision(view, accountNumber, p1) == LoginDecision(view, accountNumber, p2) == AccountIsLocked
  {
  }

  /**
   * A login succeeds only with the password whose digest is stored, so an
   * account without a stored digest (one awaiting migration) cannot log in.
   */
  lemma LoginNeedsStoredDigest(view: map<string, AccountState>, accountNumber: string, password: string)
    requires LoginDecision(view, accountNumber, password) == LoggedIn
    ensures view[accountNumber].passwordHash == HashPassword(password)
    ensures !IsNullOrEmpty(view[accountNumber].passwordHash)
  {
    assert |HashPassword(password).value| == 44;
  }

  /** Login does not depend on the balance, the history or the PIN. */
  lemma LoginIgnoresLedger(view: map<string, AccountState>, accountNumber: string, password: string, s: AccountState)
    requires accountNumber in view
    requires s.locked == view[accountNumber].locked && s.passwordHash == view[accountNumber].passwordHash
    ensures LoginDecision(view[accountNumber := s], accountNumber, password) == LoginDecision(view, accountNumber, password)
  {
  }

  // ---------------------------------------------------------------------------
  // Total of the balances

  /** Sum of the balances of the accounts of a view, in no particular order. */
  ghost function Sum(view: map<string, AccountState>): real
    decreases |view|
  {
    if view == map[] then 0.0
    else
      var k :| k in view;
      assert |view - {k}| < |view| by {
        assert (view - {k}).Keys == view.Keys - {k};
      }
      view[k].balance + Sum(view - {k})
  }

  /** The sum can be taken from any account first. */
  lemma {:induction false} SumRemove(view: map<string, AccountState>, k: string)
    requires k in view
    ensures Sum(view) == view[k].balance + Sum(view - {k})
    decreases |view|
  {
    var j :| j in view && Sum(view) == view[j].balance + Sum(view - {j});
    if j != k {
      assert (view - {j}).Keys == view.Keys - {j};
      assert (view - {k}).Keys == view.Keys - {k};
      SumRemove(view - {j}, k);
      SumRemove(view - {k}, j);
      assert view - {j} - {k} == view - {k} - {j};
    }
  }

  /** Replacing one account changes the sum by the change of its balance. */
  lemma SumUpdate(view: map<string, AccountState>, k: string, s: AccountState)
    requires k in view
    ensures Sum(view[k := s]) == Sum(view) - view[k].balance + s.balance
  {
    SumRemove(view, k);
    SumRemove(view[k := s], k);
    assert view[k := s] - {k} == view - {k};
  }

  /** Adding a new account adds its balance to the sum. */
  lemma SumAdd(view: map<string, AccountState>, k: string, s: AccountState)
    requires k !in view
    ensures Sum(view[k := s]) == Sum(view) + s.balance
  {
    SumRemove(view[k := s], k);
    assert view[k := s] - {k} == view;
  }

  /** Opening an account adds no money: a new account starts with a zero balance. */
  lemma OpenKeepsTotal(view: map<string, AccountState>, number: string, name: string, password: string, pin: Option<string>)
    requires number !in view
    ensures Sum(view[number := Opened(number, name, password, pin)]) == Sum(view)
  {
    SumAdd(view, number, Opened(number, name, password, pin));
  }

  /** No account with a negative balance, no negative total. */
  lemma {:induction false} SumNonNegative(view: map<string, AccountState>)
    requires forall k :: k in view ==> view[k].balance >= 0.0
    ensures Sum(view) >= 0.0
    decreases |view|
  {
    if view != map[] {
      var k :| k in view;
      SumRemove(view, k);
      assert (view - {k}).Keys == view.Keys - {k};
      SumNonNegative(view - {k});
    }
  }

  /** Money is conserved: a deposit raises the total by exactly the amount credited. */
  lemma DepositMovesTotal(view: map<string, AccountState>, k: string, amount: real, now: DateTime)
    requires k in view
    ensures var r := DepositStep(view[k], amount, now);
      Sum(view[k := r.after]) == Sum(view) + (if r.ok then amount else 0.0)
  {
    SumUpdate(view, k, DepositStep(view[k], amount, now).after);
  }

  /** Money is conserved: a withdrawal lowers the total by exactly the amount paid out. */
  lemma WithdrawMovesTotal(view: map<string, AccountState>, k: string, amount: real, pin: Option<string>, now: DateTime)
    requires k in view
    ensures var r := WithdrawStep(view[k], amount, pin, now);
      Sum(view[k := r.after]) == Sum(view) - (if r.ok then amount else 0.0)
  {
    SumUpdate(view, k, WithdrawStep(view[k], amount, pin, now).after);
  }

  /** The accounts of a view whose numbers are among `keys`. */
  function Restrict(view: map<string, AccountState>, keys: set<string>): (r: map<string, AccountState>)
    ensures r.Keys == view.Keys * keys
    ensures forall k :: k in r ==> r[k] == view[k]
  {
    map k | k in view && k in keys :: view[k]
  }

  // ---------------------------------------------------------------------------
  // The bank object

  class Bank {
    var accounts: map<string, Account>

    constructor()
      ensures accounts == map[]
    {
      accounts := map[];
    }

    /** Each account is filed under its own number and keeps its ledger invariant. */
    ghost predicate Valid()
      reads this, accounts.Values
    {
      && (forall n :: n in accounts ==> accounts[n].accountNumber == n)
      && (forall a :: a in accounts.Values ==> a.Valid())
    }

    /** Every account's current fields, by number. */
    function View(): (v: map<string, AccountState>)
      reads this, accounts.Values
      ensures v.Keys == accounts.Keys
    {
      map n | n in accounts :: accounts[n].State()
    }

    /** The whole bank holds no negative money. */
    lemma TotalNonNegative()
      requires Valid()
      ensures Sum(View()) >= 0.0
    {
      forall n | n in View()
        ensures View()[n].balance >= 0.0
      {
        assert accounts[n] in accounts.Values;
        ConsistentBalanceNonNegative(accounts[n].State());
      }
      SumNonNegative(View());
    }

    function AccountExists(accountNumber: string): (r: bool)
      reads this, accounts.Values
      ensures r <==> accountNumber in View()
    {
      accountNumber in accounts
    }

    function GetTotalAccounts(): (n: nat)
      reads this, accounts.Values
      ensures n == |View()|
    {
      assert View().Keys == accounts.Keys;
      |accounts|
    }

    /**
     * `generateAccountNumber`: draws until a candidate is free. The draws of
     * `Math.random` are supplied; the number returned is the candidate of the
     * first draw that is not taken.
     */
    method GenerateAccountNumber(draws: seq<real>) returns (number: string, used: nat)
      requires ValidDraws(draws) && HasFresh(accounts.Keys, draws)
      ensures used < |draws| && number == Candidate(draws[used]) && number !in accounts
      ensures forall j :: 0 <= j < used ==> Candidate(draws[j]) in accounts
    {
      var i := 0;
      number := Candidate(draws[0]);
      while number in accounts
        invariant 0 <= i < |draws| && number == Candidate(draws[i])
        invariant forall j :: 0 <= j < i ==> Candidate(draws[j]) in accounts
        invariant exists j :: i <= j < |draws| && Candidate(draws[j]) !in accounts
        decreases |draws| - i
      {
        ghost var j :| i <= j < |draws| && Candidate(draws[j]) !in accounts;
        assert j != i;
        i := i + 1;
        number := Candidate(draws[i]);
      }
      used := i;
    }

    /**
     * `createAccount`. A blank or null number is replaced by a generated one;
     * a supplied number is trimmed and refused if taken. Only then is the PIN
     * checked, so a taken number is reported even when the PIN is also bad.
     */
    method CreateAccount(customerName: string, accountNumber: Option<string>, password: string,
                         pin: Option<string>, draws: seq<real>)
      returns (created: Option<string>)
      requires Valid() && ValidDraws(draws)
      requires Supplied(accountNumber).None? ==> HasFresh(accounts.Keys, draws)
      modifies this
      ensures Valid()
      ensures var s := Supplied(accountNumber);
        created.None? <==> (s.Some? && s.value in old(accounts)) || !IsValidPin(pin)
      ensures Supplied(accountNumber).Some? && created.Some? ==> created == Supplied(accountNumber)
      ensures Supplied(accountNumber).None? && created.Some? ==>
        exists i :: 0 <= i < |draws| && created.value == Candidate(draws[i])
          && forall j :: 0 <= j < i ==> Candidate(draws[j]) in old(accounts)
      ensures created.None? ==> accounts == old(accounts)
      ensures created.Some? ==>
        && created.value !in old(accounts) && created.value in accounts
        && fresh(accounts[created.value])
        && View() == old(View())[created.value := Opened(created.value, customerName, password, pin)]
      ensures created.Some? ==> Sum(View()) == Sum(old(View()))
    {
      ghost var before := View();
      var number: string;
      var s := Supplied(accountNumber);
      if s.None? {
        var used;
        number, used := GenerateAccountNumber(draws);
      } else {
        number := s.value;
        if number in accounts {
          return None;
        }
      }
      if !IsValidPin(pin) {
        return None;
      }
      var account := new Account(number, customerName, password, pin);
      accounts := accounts[number := account];
      InsertedValid(number);
      InsertedView(number);
      OpenKeepsTotal(before, number, customerName, password, pin);
      return Some(number);
    }

    /** Filing a fresh, consistent account under a new number keeps the bank valid. */
    twostate lemma InsertedValid(number: string)
      requires old(Valid()) && number !in old(accounts) && number in accounts
      requires accounts == old(accounts)[number := accounts[number]]
      requires fresh(accounts[number]) && accounts[number].accountNumber == number && accounts[number].Valid()
      requires forall n :: n in old(accounts) ==> unchanged(old(accounts)[n])
      ensures Valid()
    {
    }

    /** Filing a fresh account under a new number extends the view by that account alone. */
    twostate lemma InsertedView(number: string)
      requires number !in old(accounts) && number in accounts
      requires accounts == old(accounts)[number := accounts[number]]
      requires forall n :: n in old(accounts) ==> unchanged(old(accounts)[n])
      ensures View() == old(View())[number := accounts[number].State()]
    {
      var v, w := View(), old(View())[number := accounts[number].State()];
      forall n | n in v
        ensures n in w && v[n] == w[n]
      {
        if n != number {
          assert accounts[n] == old(accounts)[n];
        }
      }
      assert v.Keys == w.Keys;
    }

    /** `deposit`: route to the account, or fail for an unknown number. */
    method Deposit(accountNumber: string, amount: real, now: DateTime, log: AuditLog, stamp: string)
      returns (ok: bool)
      requires Valid()
      modifies accounts.Values, log
      ensures Valid() && accounts == old(accounts)
      ensures accountNumber !in old(View()) ==>
        !ok && View() == old(View()) && log.lines == old(log.lines)
      ensures accountNumber in old(View()) ==>
        var r := DepositStep(old(View())[accountNumber], amount, now);
        ok == r.ok && View() == old(View())[accountNumber := r.after]
        && log.lines == old(log.lines) + Logged(stamp, r.event)
    {
      if accountNumber !in accounts {
        return false;
      }
      var account := accounts[accountNumber];
      ok := account.Deposit(amount, now, log, stamp);
      OthersUnchanged(accountNumber);
    }

    /** `withdraw`: route to the account, or fail for an unknown number. */
    method Withdraw(accountNumber: string, amount: real, pin: Option<string>, now: DateTime,
                    log: AuditLog, stamp: string)
      returns (ok: bool)
      requires Valid()
      modifies accounts.Values, log
      ensures Valid() && accounts == old(accounts)
      ensures accountNumber !in old(View()) ==>
        !ok && View() == old(View()) && log.lines == old(log.lines)
      ensures accountNumber in old(View()) ==>
        var r := WithdrawStep(old(View())[accountNumber], amount, pin, now);
        ok == r.ok && View() == old(View())[accountNumber := r.after]
        && log.lines == old(log.lines) + Logged(stamp, r.event)
    {
      if accountNumber !in accounts {
        return false;
      }
      var account := accounts[accountNumber];
      ok := account.Withdraw(amount, pin, now, log, stamp);
      OthersUnchanged(accountNumber);
    }

    /**
     * After one account changed in place, the view differs from the old one
     * at that account only, and every other account is still consistent.
     */
    twostate lemma OthersUnchanged(changed: string)
      requires old(Valid()) && changed in old(accounts) && accounts == old(accounts)
      requires forall n :: n in accounts && n != changed ==> unchanged(accounts[n])
      requires accounts[changed].Valid()
      ensures Valid()
      ensures View() == old(View())[changed := accounts[changed].State()]
    {
      var v, w := View(), old(View())[changed := accounts[changed].State()];
      forall n | n in v
        ensures n in w && v[n] == w[n]
      {
        if n != changed {
          assert accounts[n].State() == old(accounts[n].State());
        }
      }
      assert v.Keys == w.Keys;
    }

    /** A step that touched no account leaves the bank as it was. */
    twostate lemma Untouched()
      requires old(Valid()) && unchanged(this)
      requires forall n :: n in accounts ==> unchanged(accounts[n])
      ensures Valid() && View() == old(View())
    {
    }

    /** `authenticateUser`: the decision, its audit entry, and the account on success. */
    method AuthenticateUser(accountNumber: string, password: string, log: AuditLog, stamp: string)
      returns (account: Account?)
      requires Valid()
      modifies log
      ensures var o := LoginDecision(View(), accountNumber, password);
        && (account != null <==> o == LoggedIn)
        && (account != null ==> accountNumber in accounts && account == accounts[accountNumber])
        && log.lines == old(log.lines) + [Line(stamp, LoginEvent(accountNumber, o))]
    {
      if accountNumber !in accounts {
        log.WriteLog(stamp, LoginFailure(accountNumber, "Account not found"));
        return null;
      }
      account := accounts[accountNumber];
      if account.isLocked {
        log.WriteLog(stamp, LoginFailure(accountNumber, "Account locked"));
        return null;
      }
      if !VerifyPassword(password, account.passwordHash) {
        log.WriteLog(stamp, WrongPassword(accountNumber));
        return null;
      }
      log.WriteLog(stamp, LoginSuccess(accountNumber));
    }

    /**
     * `authenticateUserWithMigration`. An unknown number fails without an
     * audit entry. An account awaiting migration goes through the migration
     * dialogue and then, whatever its result, the customer must log in again.
     * Otherwise the password answer is checked as `authenticateUser` does.
     */
    method AuthenticateUserWithMigration(accountNumber: string, input: MigrationInput, password: string,
                                         log: AuditLog, stamp: string)
      returns (account: Account?)
      requires Valid()
      modifies accounts.Values, log
      ensures Valid() && accounts == old(accounts)
      ensures account != null ==> accountNumber in accounts && account == accounts[accountNumber]
      ensures account != null ==> !NeedsMigration(account.State())
      ensures accountNumber !in old(View()) ==>
        account == null && View() == old(View()) && log.lines == old(log.lines)
      ensures accountNumber in old(View()) && NeedsMigration(old(View())[accountNumber]) ==>
        && account == null
        && View() == old(View())[accountNumber := Migrate(old(View())[accountNumber], input)]
        && log.lines == old(log.lines)
      ensures accountNumber in old(View()) && !NeedsMigration(old(View())[accountNumber]) ==>
        var o := LoginDecision(old(View()), accountNumber, password);
        && View() == old(View())
        && (account != null <==> o == LoggedIn)
        && log.lines == old(log.lines) + [Line(stamp, LoginEvent(accountNumber, o))]
    {
      if accountNumber !in accounts {
        return null;
      }
      var a := accounts[accountNumber];
      if NeedsMigration(a.State()) {
        var migrated := MigrateAccount(a, input);
        OthersUnchanged(accountNumber);
        return null;
      }
      if a.isLocked {
        log.WriteLog(stamp, LoginFailure(accountNumber, "Account locked"));
        account := null;
      } else if !VerifyPassword(password, a.passwordHash) {
        log.WriteLog(stamp, WrongPassword(accountNumber));
        account := null;
      } else {
        log.WriteLog(stamp, LoginSuccess(accountNumber));
        account := a;
      }
      Untouched();
    }

    /** `lockAccount`: true exactly when the account exists, and then it is locked. */
    method LockAccount(accountNumber: string) returns (ok: bool)
      requires Valid()
      modifies accounts.Values
      ensures Valid() && accounts == old(accounts)
      ensures ok <==> accountNumber in old(View())
      ensures ok ==> View() == old(View())[accountNumber := old(View())[accountNumber].(locked := true)]
      ensures !ok ==> View() == old(View())
    {
      if accountNumber !in accounts {
        return false;
      }
      var a := accounts[accountNumber];
      assert a in accounts.Values;
      a.Lock();
      OthersUnchanged(accountNumber);
      return true;
    }

    /** `unlockAccount`: true exactly when the account exists, and then it is unlocked. */
    method UnlockAccount(accountNumber: string) returns (ok: bool)
      requires Valid()
      modifies accounts.Values
      ensures Valid() && accounts == old(accounts)
      ensures ok <==> accountNumber in old(View())
      ensures ok ==> View() == old(View())[accountNumber := old(View())[accountNumber].(locked := false)]
      ensures !ok ==> View() == old(View())
    {
      if accountNumber !in accounts {
        return false;
      }
      var a := accounts[accountNumber];
      assert a in accounts.Values;
      a.Unlock();
      OthersUnchanged(accountNumber);
      return true;
    }

    /** `getTotalBankBalance`: the balances of all accounts added up, one account at a time. */
    method GetTotalBankBalance() returns (total: real)
      ensures total == Sum(View())
    {
      total := 0.0;
      var remaining := accounts.Keys;
      assert Restrict(View(), remaining) == View();
      while remaining != {}
        invariant remaining <= accounts.Keys
        invariant total + Sum(Restrict(View(), remaining)) == Sum(View())
        decreases remaining
      {
        var k :| k in remaining;
        SumRemove(Restrict(View(), remaining), k);
        assert Restrict(View(), remaining) - {k} == Restrict(View(), remaining - {k});
        total := total + accounts[k].balance;
        remaining := remaining - {k};
      }
      assert Restrict(View(), remaining) == map[];
    }
  }
}
