/**
 * The administrator session: password login against the fixed digest, logout,
 * the login guard in front of the admin menu, locking and unlocking accounts,
 * and the audit-log viewer with its default limit.
 */
module Admin {
  import opened JavaLang
  import opened Auth
  import opened Wrappers
  import opened Audit
  import opened Accounts
  import opened Banking

  /** The name recorded in the audit log for every administrator action. */
  const AdminUser: string := "ADMIN"

  /** The limit the audit viewer uses when the administrator asks for none, or for a negative number. */
  const DefaultLogLimit: Int32 := 50

  /** The limit actually used for a requested one. */
  function EffectiveLimit(requested: Int32): (limit: Int32)
    ensures 0 < limit
    ensures 0 < requested ==> limit == requested
    ensures requested <= 0 ==> limit == DefaultLogLimit
  {
    if requested <= 0 then DefaultLogLimit else requested
  }

  /**
   * Whatever the administrator types, the viewer shows the last lines of the
   * log in their order: never more than asked for, and fifty when the answer
   * is not positive.
   */
  lemma ViewerShowsLast(lines: seq<string>, requested: Int32)
    requires |lines| <= MaxInt32
    ensures lines == [] ==> Window(lines, EffectiveLimit(requested)) == NoLogs
    ensures lines != [] ==>
      var shown := Min(EffectiveLimit(requested), |lines|);
      && 0 < shown <= |lines|
      && Window(lines, EffectiveLimit(requested)) == Shown(shown, lines[|lines| - shown..], |lines|)
  {
    WindowShowsLast(lines, EffectiveLimit(requested));
  }

  /** The two operations of the lock/unlock screen; any other answer does nothing. */
  const LockChoice: int := 1
  const UnlockChoice: int := 2

  /**
   * The accounts after the lock/unlock screen: an unknown number changes
   * nothing; choice 1 locks the account, choice 2 unlocks it, and any other
   * answer changes nothing.
   */
  function LockUnlockEffect(view: map<string, AccountState>, accountNumber: string, choice: int)
    : (r: map<string, AccountState>)
    ensures r.Keys == view.Keys
    ensures forall n :: n in r ==> r[n] == view[n].(locked := r[n].locked)
    ensures forall n :: n in r && n != accountNumber ==> r[n] == view[n]
    ensures accountNumber in view && choice == LockChoice ==> r[accountNumber].locked
    ensures accountNumber in view && choice == UnlockChoice ==> !r[accountNumber].locked
    ensures choice != LockChoice && choice != UnlockChoice ==> r == view
  {
    if accountNumber !in view then view
    else if choice == LockChoice then view[accountNumber := view[accountNumber].(locked := true)]
    else if choice == UnlockChoice then view[accountNumber := view[accountNumber].(locked := false)]
    else view
  }

  /** The audit lines the lock/unlock screen appends: one for each lock or unlock performed. */
  function LockUnlockLog(view: map<string, AccountState>, accountNumber: string, choice: int, stamp: string)
    : (lines: seq<string>)
    ensures |lines| <= 1
    ensures lines != [] <==> accountNumber in view && (choice == LockChoice || choice == UnlockChoice)
    ensures lines != [] ==>
      |stamp| + 3 <= |lines[0]|
      && ActionOf(lines[0][|stamp| + 3..]) == Some(if choice == LockChoice then "ACCOUNT_LOCK" else "ACCOUNT_UNLOCK")
    ensures accountNumber in view && choice == LockChoice ==>
      lines == [Line(stamp, AccountLocked(accountNumber, AdminUser))]
    ensures accountNumber in view && choice == UnlockChoice ==>
      lines == [Line(stamp, AccountUnlocked(accountNumber, AdminUser))]
  {
    if accountNumber !in view then []
    else if choice == LockChoice then
      var entry := AccountLocked(accountNumber, AdminUser);
      assert Line(stamp, entry)[|stamp| + 3..] == entry;
      [Line(stamp, entry)]
    else if choice == UnlockChoice then
      var entry := AccountUnlocked(accountNumber, AdminUser);
      assert Line(stamp, entry)[|stamp| + 3..] == entry;
      [Line(stamp, entry)]
    else []
  }

  /** Locking and unlocking never touch balances, histories or credentials, so the total is kept. */
  lemma LockUnlockKeepsMoney(view: map<string, AccountState>, accountNumber: string, choice: int)
    ensures Sum(LockUnlockEffect(view, accountNumber, choice)) == Sum(view)
  {
    if accountNumber in view {
      SumUpdate(view, accountNumber, LockUnlockEffect(view, accountNumber, choice)[accountNumber]);
    }
  }

  class AdminService {
    const bank: Bank
    var adminLoggedIn: bool

    constructor(bank: Bank)
      ensures this.bank == bank && !adminLoggedIn
    {
      this.bank := bank;
      adminLoggedIn := false;
    }

    /** `login`: a correct password opens the session; every attempt is logged. */
    method Login(password: string, log: AuditLog, stamp: string) returns (ok: bool)
      modifies this, log
      ensures ok <==> AuthenticateAdmin(password)
      ensures adminLoggedIn == (old(adminLoggedIn) || ok)
      ensures log.lines == old(log.lines) +
        [Line(stamp, if ok then AdminLogin(AdminUser) else AdminLoginFailure("Invalid password"))]
    {
      if AuthenticateAdmin(password) {
        adminLoggedIn := true;
        log.WriteLog(stamp, AdminLogin(AdminUser));
        return true;
      } else {
        log.WriteLog(stamp, AdminLoginFailure("Invalid password"));
        return false;
      }
    }

    /** `logout`: closes the session, logging only when one was open. */
    method Logout(log: AuditLog, stamp: string)
      modifies this, log
      ensures !adminLoggedIn
      ensures log.lines == old(log.lines) + (if old(adminLoggedIn) then [Line(stamp, AdminLogout(AdminUser))] else [])
    {
      if adminLoggedIn {
        log.WriteLog(stamp, AdminLogout(AdminUser));
        adminLoggedIn := false;
      }
    }

    /** The guard of `showAdminMenu`: the menu opens only inside a session. */
    method ShowAdminMenu() returns (entered: bool)
      ensures entered <==> adminLoggedIn
    {
      if !adminLoggedIn {
        return false;
      }
      return true;
    }

    /**
     * `lockUnlockAccount`, reached only from the admin menu: the accounts and
     * the audit log afterwards are those of `LockUnlockEffect`.
     */
    method LockUnlockAccount(accountNumber: string, choice: int, log: AuditLog, stamp: string)
      requires adminLoggedIn && bank.Valid()
      modifies bank.accounts.Values, log
      ensures bank.Valid() && bank.accounts == old(bank.accounts)
      ensures bank.View() == LockUnlockEffect(old(bank.View()), accountNumber, choice)
      ensures log.lines == old(log.lines) + LockUnlockLog(old(bank.View()), accountNumber, choice, stamp)
    {
      if !bank.AccountExists(accountNumber) {
        return;
      }
      if choice == LockChoice || choice == UnlockChoice {
        var ok;
        if choice == LockChoice {
          ok := bank.LockAccount(accountNumber);
        } else {
          ok := bank.UnlockAccount(accountNumber);
        }
        label changed:
        if ok {
          log.WriteLog(stamp, if choice == LockChoice then AccountLocked(accountNumber, AdminUser)
                              else AccountUnlocked(accountNumber, AdminUser));
          bank.Untouched@changed();
        }
      }
    }

    /** `viewAuditLogs`, reached only from the admin menu. */
    method ViewAuditLogs(requested: Int32, log: AuditLog) returns (v: AuditView)
      requires adminLoggedIn && |log.lines| <= MaxInt32
      ensures v == Window(log.lines, EffectiveLimit(requested))
    {
      var limit := requested;
      if limit <= 0 {
        limit := DefaultLogLimit;
      }
      v := log.DisplayAuditLogs(limit);
    }
  }
}
