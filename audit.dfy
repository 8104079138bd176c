/**
 * The append-only audit log. Every security- or money-relevant event appends
 * one line `[timestamp] ACTION=<tag> <key=value>*`; the display shows the last
 * lines in order. The log file becomes an in-memory sequence of lines.
 */
module Audit {
  import opened Wrappers
  import opened JavaLang

  /** `String.format("%.2f", amount)`, which is not modelled: an arbitrary fixed function. */
  const AmountText: real -> string

  /**
   * The fields of an entry, each a label taken from the format string (a
   * space, the key and `=`, as in `" account="`) followed by its value.
   */
  function Fields(fields: seq<(string, string)>): (r: string)
    ensures Labelled(fields) ==> r == [] || r[0] == ' '
  {
    if fields == [] then ""
    else fields[0].0 + fields[0].1 + Fields(fields[1..])
  }

  /** Every label starts with the space that separates it from what precedes it. */
  predicate Labelled(fields: seq<(string, string)>)
  {
    forall i :: 0 <= i < |fields| ==> |fields[i].0| > 0 && fields[i].0[0] == ' '
  }

  /** The documented shape of an entry: `ACTION=<tag>` followed by its fields. */
  function Record(action: string, fields: seq<(string, string)>): string
  {
    "ACTION=" + action + Fields(fields)
  }

  /** An entry with two fields is the tag followed by the two labelled values. */
  lemma RecordText2(action: string, l1: string, v1: string, l2: string, v2: string)
    ensures Record(action, [(l1, v1), (l2, v2)]) == "ACTION=" + action + l1 + v1 + l2 + v2
  {
    var f := [(l1, v1), (l2, v2)];
    assert Fields(f[1..][1..]) == "" by { assert f[1..][1..] == []; }
    assert Fields(f[1..]) == l2 + v2 + "";
    assert Fields(f) == l1 + v1 + Fields(f[1..]);
  }

  /** An entry with three fields is the tag followed by the three labelled values. */
  lemma RecordText3(action: string, l1: string, v1: string, l2: string, v2: string, l3: string, v3: string)
    ensures Record(action, [(l1, v1), (l2, v2), (l3, v3)]) == "ACTION=" + action + l1 + v1 + l2 + v2 + l3 + v3
  {
    var f := [(l1, v1), (l2, v2), (l3, v3)];
    assert Fields(f[1..][1..][1..]) == "" by { assert f[1..][1..][1..] == []; }
    assert Fields(f[1..][1..]) == l3 + v3 + "";
    assert Fields(f[1..]) == l2 + v2 + Fields(f[1..][1..]);
    assert Fields(f) == l1 + v1 + Fields(f[1..]);
  }

  /** In `p + s + d + v` the first char of `s` follows `p`. */
  lemma CharAfterPrefix(p: string, s: string, d: string, v: string)
    requires s != []
    ensures |p| < |p + s + d + v| && (p + s + d + v)[|p|] == s[0]
  {
    assert p + s + d + v == p + (s + d + v);
  }

  /** The text of `s` up to its first space. */
  function UpToSpace(s: string): string
  {
    if s == [] || s[0] == ' ' then "" else [s[0]] + UpToSpace(s[1..])
  }

  lemma {:induction false} UpToSpaceConcat(a: string, b: string)
    requires forall k :: 0 <= k < |a| ==> a[k] != ' '
    requires b == [] || b[0] == ' '
    ensures UpToSpace(a + b) == a
  {
    if a != [] {
      assert (a + b)[1..] == a[1..] + b;
      UpToSpaceConcat(a[1..], b);
    }
  }

  /** The action tag a reader of the log sees in an entry, if it has one. */
  function ActionOf(entry: string): Option<string>
  {
    if |entry| >= 7 && entry[..7] == "ACTION=" then Some(UpToSpace(entry[7..])) else None
  }

  /** The tag of an entry built from a space-free tag can be read back from the entry. */
  lemma ActionOfRecord(action: string, fields: seq<(string, string)>)
    requires forall k :: 0 <= k < |action| ==> action[k] != ' '
    requires Labelled(fields)
    ensures ActionOf(Record(action, fields)) == Some(action)
  {
    var e := Record(action, fields);
    assert e[..7] == "ACTION=";
    assert e[7..] == action + Fields(fields);
    UpToSpaceConcat(action, Fields(fields));
  }

  // The entry builders, one per `log*` method. Each is exactly the text of its
  // Java format string with the arguments in place, and carries its action tag.

  function LoginSuccess(account: string): (e: string)
    ensures e == "ACTION=" + "LOGIN" + " account=" + account + " status=" + "SUCCESS"
    ensures ActionOf(e) == Some("LOGIN")
  {
    var fields := [(" account=", account), (" status=", "SUCCESS")];
    RecordText2("LOGIN", " account=", account, " status=", "SUCCESS");
    ActionOfRecord("LOGIN", fields);
    Record("LOGIN", fields)
  }

  function LoginFailure(account: string, reason: string): (e: string)
    ensures e == "ACTION=" + "LOGIN" + " account=" + account + " status=" + "FAILED" + " details=" + reason
    ensures ActionOf(e) == Some("LOGIN")
  {
    var fields := [(" account=", account), (" status=", "FAILED"), (" details=", reason)];
    RecordText3("LOGIN", " account=", account, " status=", "FAILED", " details=", reason);
    ActionOfRecord("LOGIN", fields);
    Record("LOGIN", fields)
  }

  function WrongPassword(account: string): (e: string)
    ensures e == "ACTION=" + "WRONG_PASSWORD" + " account=" + account + " status=" + "FAILED" + " details=" + "Invalid password attempt"
    ensures ActionOf(e) == Some("WRONG_PASSWORD")
  {
    var fields := [(" account=", account), (" status=", "FAILED"), (" details=", "Invalid password attempt")];
    RecordText3("WRONG_PASSWORD", " account=", account, " status=", "FAILED", " details=", "Invalid password attempt");
    ActionOfRecord("WRONG_PASSWORD", fields);
    Record("WRONG_PASSWORD", fields)
  }

  function WrongPin(account: string): (e: string)
    ensures e == "ACTION=" + "WRONG_PIN" + " account=" + account + " status=" + "FAILED" + " details=" + "Invalid PIN attempt"
    ensures ActionOf(e) == Some("WRONG_PIN")
  {
    var fields := [(" account=", account), (" status=", "FAILED"), (" details=", "Invalid PIN attempt")];
    RecordText3("WRONG_PIN", " account=", account, " status=", "FAILED", " details=", "Invalid PIN attempt");
    ActionOfRecord("WRONG_PIN", fields);
    Record("WRONG_PIN", fields)
  }

  function WithdrawSuccess(account: string, amount: real): (e: string)
    ensures e == "ACTION=" + "WITHDRAW" + " account=" + account + " status=" + "SUCCESS" + " details=" + ("Amount=$" + AmountText(amount))
    ensures ActionOf(e) == Some("WITHDRAW")
  {
    var fields := [(" account=", account), (" status=", "SUCCESS"), (" details=", "Amount=$" + AmountText(amount))];
    RecordText3("WITHDRAW", " account=", account, " status=", "SUCCESS", " details=", "Amount=$" + AmountText(amount));
    ActionOfRecord("WITHDRAW", fields);
    Record("WITHDRAW", fields)
  }

  function WithdrawFailure(account: string, reason: string): (e: string)
    ensures e == "ACTION=" + "WITHDRAW" + " account=" + account + " status=" + "FAILED" + " details=" + reason
    ensures ActionOf(e) == Some("WITHDRAW")
  {
    var fields := [(" account=", account), (" status=", "FAILED"), (" details=", reason)];
    RecordText3("WITHDRAW", " account=", account, " status=", "FAILED", " details=", reason);
    ActionOfRecord("WITHDRAW", fields);
    Record("WITHDRAW", fields)
  }

  function DepositSuccess(account: string, amount: real): (e: string)
    ensures e == "ACTION=" + "DEPOSIT" + " account=" + account + " status=" + "SUCCESS" + " details=" + ("Amount=$" + AmountText(amount))
    ensures ActionOf(e) == Some("DEPOSIT")
  {
    var fields := [(" account=", account), (" status=", "SUCCESS"), (" details=", "Amount=$" + AmountText(amount))];
    RecordText3("DEPOSIT", " account=", account, " status=", "SUCCESS", " details=", "Amount=$" + AmountText(amount));
    ActionOfRecord("DEPOSIT", fields);
    Record("DEPOSIT", fields)
  }

  function AccountLocked(account: string, adminUser: string): (e: string)
    ensures e == "ACTION=" + "ACCOUNT_LOCK" + " account=" + account + " status=" + "SUCCESS" + " details=" + ("Locked by admin=" + adminUser)
    ensures ActionOf(e) == Some("ACCOUNT_LOCK")
  {
    var fields := [(" account=", account), (" status=", "SUCCESS"), (" details=", "Locked by admin=" + adminUser)];
    RecordText3("ACCOUNT_LOCK", " account=", account, " status=", "SUCCESS", " details=", "Locked by admin=" + adminUser);
    ActionOfRecord("ACCOUNT_LOCK", fields);
    Record("ACCOUNT_LOCK", fields)
  }

  function AccountUnlocked(account: string, adminUser: string): (e: string)
    ensures e == "ACTION=" + "ACCOUNT_UNLOCK" + " account=" + account + " status=" + "SUCCESS" + " details=" + ("Unlocked by admin=" + adminUser)
    ensures ActionOf(e) == Some("ACCOUNT_UNLOCK")
  {
    var fields := [(" account=", account), (" status=", "SUCCESS"), (" details=", "Unlocked by admin=" + adminUser)];
    RecordText3("ACCOUNT_UNLOCK", " account=", account, " status=", "SUCCESS", " details=", "Unlocked by admin=" + adminUser);
    ActionOfRecord("ACCOUNT_UNLOCK", fields);
    Record("ACCOUNT_UNLOCK", fields)
  }

  function AdminLogin(adminUser: string): (e: string)
    ensures e == "ACTION=" + "ADMIN_LOGIN" + " admin=" + adminUser + " status=" + "SUCCESS"
    ensures ActionOf(e) == Some("ADMIN_LOGIN")
  {
    var fields := [(" admin=", adminUser), (" status=", "SUCCESS")];
    RecordText2("ADMIN_LOGIN", " admin=", adminUser, " status=", "SUCCESS");
    ActionOfRecord("ADMIN_LOGIN", fields);
    Record("ADMIN_LOGIN", fields)
  }

  function AdminLoginFailure(reason: string): (e: string)
    ensures e == "ACTION=" + "ADMIN_LOGIN" + " status=" + "FAILED" + " details=" + reason
    ensures ActionOf(e) == Some("ADMIN_LOGIN")
  {
    var fields := [(" status=", "FAILED"), (" details=", reason)];
    RecordText2("ADMIN_LOGIN", " status=", "FAILED", " details=", reason);
    ActionOfRecord("ADMIN_LOGIN", fields);
    Record("ADMIN_LOGIN", fields)
  }

  function AdminLogout(adminUser: string): (e: string)
    ensures e == "ACTION=" + "ADMIN_LOGOUT" + " admin=" + adminUser + " status=" + "SUCCESS"
    ensures ActionOf(e) == Some("ADMIN_LOGOUT")
  {
    var fields := [(" admin=", adminUser), (" status=", "SUCCESS")];
    RecordText2("ADMIN_LOGOUT", " admin=", adminUser, " status=", "SUCCESS");
    ActionOfRecord("ADMIN_LOGOUT", fields);
    Record("ADMIN_LOGOUT", fields)
  }

  /** One line of the log: the entry behind its bracketed timestamp. */
  function Line(stamp: string, entry: string): string
  {
    "[" + stamp + "] " + entry
  }

  /** A line reads back as its bracketed timestamp and, after it, the entry. */
  lemma LineParts(stamp: string, entry: string)
    ensures var l := Line(stamp, entry);
      && |l| == |stamp| + 3 + |entry|
      && l[0] == '[' && l[1..|stamp| + 1] == stamp && l[|stamp| + 1..|stamp| + 3] == "] "
      && l[|stamp| + 3..] == entry
  {
  }

  /** The lines an operation appends: one for an event, none otherwise. */
  function Logged(stamp: string, event: Option<string>): seq<string>
  {
    if event.Some? then [Line(stamp, event.value)] else []
  }

  /** What `displayAuditLogs` shows: a header count, the lines, and the total in the footer. */
  datatype AuditView = NoLogs | Shown(header: int, lines: seq<string>, total: nat)

  /** `Math.max(0, logs.size() - limit)`, with the subtraction in 32-bit `int`. */
  function StartIndex(n: nat, limit: Int32): (start: nat)
    requires n <= MaxInt32
    ensures n - limit <= MaxInt32 ==> start == Max(0, n - limit)
    ensures n - limit > MaxInt32 ==> start == 0
  {
    Max(0, Wrap32(n - limit))
  }

  function Window(lines: seq<string>, limit: Int32): AuditView
    requires |lines| <= MaxInt32
  {
    if lines == [] then NoLogs
    else
      var start := StartIndex(|lines|, limit);
      Shown(Min(limit, |lines|), if start <= |lines| then lines[start..] else [], |lines|)
  }

  /**
   * For every limit: an empty log shows nothing; otherwise the header is
   * `min(limit, n)`, the footer is `n` and the lines are a suffix of the log.
   * A non-positive limit shows no line, unless `n - limit` overflows, which
   * shows them all.
   */
  lemma WindowShape(lines: seq<string>, limit: Int32)
    requires |lines| <= MaxInt32
    ensures var v := Window(lines, limit);
      && (v == NoLogs <==> lines == [])
      && (v.Shown? ==> v.header == Min(limit, |lines|) && v.total == |lines|)
      && (v.Shown? ==> |v.lines| <= |lines| && v.lines == lines[|lines| - |v.lines|..])
      && (v.Shown? && limit <= 0 && |lines| - limit <= MaxInt32 ==> v.lines == [])
      && (v.Shown? && |lines| - limit > MaxInt32 ==> v.lines == lines)
  {
  }

  /**
   * For a positive limit the display shows the last `min(limit, n)` lines in
   * their original order, says so in the header and gives `n` in the footer.
   */
  lemma WindowShowsLast(lines: seq<string>, limit: Int32)
    requires |lines| <= MaxInt32 && 0 < limit
    ensures lines == [] ==> Window(lines, limit) == NoLogs
    ensures lines != [] ==>
      var shown := Min(limit, |lines|);
      Window(lines, limit) == Shown(shown, lines[|lines| - shown..], |lines|)
  {
  }

  /**
   * `size - Integer.MIN_VALUE` overflows to a negative start index, so a
   * limit of `Integer.MIN_VALUE` shows every line of a non-empty log.
   */
  lemma WindowMinLimitShowsAll(lines: seq<string>)
    requires 0 < |lines| <= MaxInt32
    ensures Window(lines, MinInt32) == Shown(MinInt32, lines, |lines|)
  {
    var n := |lines|;
    assert (n - MinInt32 + 0x8000_0000) % 0x1_0000_0000 == n;
    assert Wrap32(n - MinInt32) == n - 0x8000_0000;
  }

  /** The log store. Lines are only ever appended. */
  class AuditLog {
    var lines: seq<string>

    /** A log that already holds the lines of earlier runs. */
    constructor(existing: seq<string>)
      ensures lines == existing
    {
      lines := existing;
    }

    /** `writeLog`: append one timestamped line. */
    method WriteLog(stamp: string, entry: string)
      modifies this
      ensures lines == old(lines) + [Line(stamp, entry)]
    {
      lines := lines + [Line(stamp, entry)];
    }

    /** `displayAuditLogs`: the index loop from the computed start to the end of the log. */
    method DisplayAuditLogs(limit: Int32) returns (v: AuditView)
      requires |lines| <= MaxInt32
      ensures v == Window(lines, limit)
    {
      var logs := lines;
      if |logs| == 0 {
        return NoLogs;
      }
      var header := Min(limit, |logs|);
      var startIndex := Max(0, Wrap32(|logs| - limit));
      var shown: seq<string> := [];
      var i := startIndex;
      while i < |logs|
        invariant startIndex <= i
        invariant startIndex <= |logs| ==> i <= |logs| && shown == logs[startIndex..i]
        invariant startIndex > |logs| ==> shown == []
      {
        shown := shown + [logs[i]];
        i := i + 1;
      }
      assert startIndex <= |logs| ==> i == |logs|;
      v := Shown(header, shown, |logs|);
    }
  }
}
