/** The user-import file of batch registration: a header naming the four columns, then one
    line per user, each turned into either a ready-to-create account or an error naming the
    line. The file's lines are given as read (each may keep its line break); the email pattern
    and the password hasher are parameters. `make_password` salts at random, so `hash` stands
    for one run's choice of salts; no contract relies on two runs hashing alike. */
module AuthApi {
  import opened Wrappers
  import opened Models
  import opened Text

  const MissingUsernameMsg: string := "缺少用户名"
  const MissingPasswordMsg: string := "缺少密码"
  const PasswordTooShortMsg: string := "密码太短"
  const PasswordTooLongMsg: string := "密码太长"
  const MissingNicknameMsg: string := "缺少昵称"
  const MissingEmailMsg: string := "缺少邮箱"
  const BadEmailMsg: string := "不合法的邮箱"
  const UsernameTakenMsg: string := "用户名已存在"

  const MinPasswordLength: nat := 6
  const MaxPasswordLength: nat := 25

  /** One entry of the result: an account to create, with the password already hashed, or
      the reason a line was refused, with the line's index in the file. */
  datatype CsvEntry =
    | Account(username: string, nickname: string, email: string, password: string)
    | Refused(line: nat, errorMsg: string)

  /** The outcome of `parse_csv_file`: `None` for a wrong header, the entries, or an
      `IndexError` (an empty file, or a line with fewer than four columns). */
  datatype CsvResult = BadHeader | Entries(entries: seq<CsvEntry>) | Crash

  datatype HeaderCheck = HeaderOk | HeaderWrong | HeaderCrash

  /** Whether a user with this name is registered
      (`User.objects.filter(username=...).exists()`). */
  predicate Registered(users: seq<User>, username: string) {
    exists i :: 0 <= i < |users| && users[i].username == username
  }

  /** The header test. The four comparisons run left to right and stop at the first that
      fails, so a header is only indexed past its end after its earlier columns matched. */
  function CheckHeader(head: string): (r: HeaderCheck)
    ensures var cols := Split(head, ',');
      && (r == HeaderOk <==> (|cols| >= 4 && Strip(cols[0]) == "username" && Strip(cols[1]) == "password"
            && Strip(cols[2]) == "nickname" && Strip(cols[3]) == "email"))
      && (r == HeaderCrash ==> |cols| < 4)
  {
    var cols := Split(head, ',');
    if Strip(cols[0]) != "username" then HeaderWrong
    else if |cols| < 2 then HeaderCrash
    else if Strip(cols[1]) != "password" then HeaderWrong
    else if |cols| < 3 then HeaderCrash
    else if Strip(cols[2]) != "nickname" then HeaderWrong
    else if |cols| < 4 then HeaderCrash
    else if Strip(cols[3]) != "email" then HeaderWrong
    else HeaderOk
  }

  /** A line's first four columns, stripped. */
  datatype Row = Row(username: string, password: string, nickname: string, email: string)

  /** The checks of the loop body in the order the code makes them: the message of the first
      one that refuses the row, `None` when the row passes them all. */
  function Refusal(row: Row, users: seq<User>, emailOk: string -> bool): Option<string> {
    if |row.username| == 0 then Some(MissingUsernameMsg)
    else if |row.password| == 0 then Some(MissingPasswordMsg)
    else if |row.password| < MinPasswordLength then Some(PasswordTooShortMsg)
    else if |row.password| > MaxPasswordLength then Some(PasswordTooLongMsg)
    else if |row.nickname| == 0 then Some(MissingNicknameMsg)
    else if |row.email| == 0 then Some(MissingEmailMsg)
    else if !emailOk(row.email) then Some(BadEmailMsg)
    else if Registered(users, row.username) then Some(UsernameTakenMsg)
    else None
  }

  /** Each message, spelt out: a row is refused with a message exactly when its check fails and
      every earlier check passes, and it is accepted exactly when every check passes. */
  lemma RefusalConditions(row: Row, users: seq<User>, emailOk: string -> bool)
    ensures var r := Refusal(row, users, emailOk);
      var u, p, n, e := row.username, row.password, row.nickname, row.email;
      && (r.None? <==> (|u| > 0 && MinPasswordLength <= |p| <= MaxPasswordLength
            && |n| > 0 && |e| > 0 && emailOk(e) && !Registered(users, u)))
      && (r == Some(MissingUsernameMsg) <==> |u| == 0)
      && (r == Some(MissingPasswordMsg) <==> |u| > 0 && |p| == 0)
      && (r == Some(PasswordTooShortMsg) <==> |u| > 0 && 0 < |p| < MinPasswordLength)
      && (r == Some(PasswordTooLongMsg) <==> |u| > 0 && |p| > MaxPasswordLength)
      && (r == Some(MissingNicknameMsg) <==> (|u| > 0 && MinPasswordLength <= |p| <= MaxPasswordLength && |n| == 0))
      && (r == Some(MissingEmailMsg) <==> (|u| > 0 && MinPasswordLength <= |p| <= MaxPasswordLength
            && |n| > 0 && |e| == 0))
      && (r == Some(BadEmailMsg) <==> (|u| > 0 && MinPasswordLength <= |p| <= MaxPasswordLength
            && |n| > 0 && |e| > 0 && !emailOk(e)))
      && (r == Some(UsernameTakenMsg) <==> (|u| > 0 && MinPasswordLength <= |p| <= MaxPasswordLength
            && |n| > 0 && |e| > 0 && emailOk(e) && Registered(users, u)))
  {
  }

  /** Whether a line has the four columns the loop reads. */
  predicate HasFourColumns(line: string) {
    |Split(line, ',')| >= 4
  }

  /** The stripped columns of a line. */
  function ReadRow(line: string): Row
    requires HasFourColumns(line)
  {
    var cols := Split(line, ',');
    Row(Strip(cols[0]), Strip(cols[1]), Strip(cols[2]), Strip(cols[3]))
  }

  /** The entry line `i` yields: refused by the first failing check, else an account. */
  function LineEntry(line: string, i: nat, users: seq<User>, emailOk: string -> bool,
                     hash: string -> string): CsvEntry
    requires HasFourColumns(line)
  {
    var row := ReadRow(line);
    var refusal := Refusal(row, users, emailOk);
    if refusal.Some? then Refused(i, refusal.value) else Account(row.username, row.nickname, row.email, hash(row.password))
  }

  /** One pass of the loop of `parse_csv_file` over a line with four columns: the fields are
      stripped, then each check in turn either refuses the line or lets it through. */
  method CheckLine(line: string, i: nat, users: seq<User>, emailOk: string -> bool, hash: string -> string)
    returns (entry: CsvEntry)
    requires HasFourColumns(line)
    ensures entry == LineEntry(line, i, users, emailOk, hash)
  {
    var cols := Split(line, ',');
    var username := Strip(cols[0]);
    var password := Strip(cols[1]);
    var nickname := Strip(cols[2]);
    var email := Strip(cols[3]);
    RefusalConditions(Row(username, password, nickname, email), users, emailOk);
    if |username| == 0 {
      return Refused(i, MissingUsernameMsg);
    }
    if |password| == 0 {
      return Refused(i, MissingPasswordMsg);
    }
    if |password| < MinPasswordLength {
      return Refused(i, PasswordTooShortMsg);
    }
    if |password| > MaxPasswordLength {
      return Refused(i, PasswordTooLongMsg);
    }
    if |nickname| == 0 {
      return Refused(i, MissingNicknameMsg);
    }
    if |email| == 0 {
      return Refused(i, MissingEmailMsg);
    }
    if !emailOk(email) {
      return Refused(i, BadEmailMsg);
    }
    if Registered(users, username) {
      return Refused(i, UsernameTakenMsg);
    }
    return Account(username, nickname, email, hash(password));
  }

  /** `parse_csv_file`, given the file's lines. */
  method ParseCsvFile(lines: seq<string>, users: seq<User>, emailOk: string -> bool, hash: string -> string)
    returns (r: CsvResult)
    ensures |lines| == 0 ==> r == Crash
    ensures |lines| > 0 && CheckHeader(lines[0]) == HeaderWrong ==> r == BadHeader
    ensures |lines| > 0 && CheckHeader(lines[0]) == HeaderCrash ==> r == Crash
    ensures |lines| > 0 && CheckHeader(lines[0]) == HeaderOk ==> (
      && (r.Crash? <==> exists i :: 1 <= i < |lines| && !HasFourColumns(lines[i]))
      && (r.Entries? <==> forall i :: 1 <= i < |lines| ==> HasFourColumns(lines[i])))
    ensures r.Entries? ==> (|lines| > 0 && CheckHeader(lines[0]) == HeaderOk
      && (forall j :: 1 <= j < |lines| ==> HasFourColumns(lines[j]))
      && r.entries == LineEntries(lines, |lines|, users, emailOk, hash))
  {
    if |lines| == 0 {
      return Crash;
    }
    var head := CheckHeader(lines[0]);
    if head == HeaderCrash {
      return Crash;
    }
    if head == HeaderWrong {
      return BadHeader;
    }
    r := ParseLines(lines, users, emailOk, hash);
  }

  /** The entries of lines `1` to `n - 1`, in order: entry `k` comes from line `k + 1`. */
  function LineEntries(lines: seq<string>, n: nat, users: seq<User>, emailOk: string -> bool,
                       hash: string -> string): (r: seq<CsvEntry>)
    requires 1 <= n <= |lines|
    requires forall j :: 1 <= j < n ==> HasFourColumns(lines[j])
  {
    seq(n - 1, k requires 0 <= k < n - 1 => LineEntry(lines[k + 1], k + 1, users, emailOk, hash))
  }

  /** One more line adds its entry at the end. */
  lemma LineEntriesStep(lines: seq<string>, n: nat, users: seq<User>, emailOk: string -> bool, hash: string -> string)
    requires 2 <= n <= |lines|
    requires forall j :: 1 <= j < n ==> HasFourColumns(lines[j])
    ensures LineEntries(lines, n, users, emailOk, hash)
      == LineEntries(lines, n - 1, users, emailOk, hash) + [LineEntry(lines[n - 1], n - 1, users, emailOk, hash)]
  {
  }

  /** The loop of `parse_csv_file` over the lines after the header: one entry per line, in
      order, unless a line is too short to index. */
  method ParseLines(lines: seq<string>, users: seq<User>, emailOk: string -> bool, hash: string -> string)
    returns (r: CsvResult)
    requires |lines| >= 1
    ensures r.Entries? || r.Crash?
    ensures r.Crash? <==> exists i :: 1 <= i < |lines| && !HasFourColumns(lines[i])
    ensures r.Entries? ==> ((forall j :: 1 <= j < |lines| ==> HasFourColumns(lines[j]))
      && r.entries == LineEntries(lines, |lines|, users, emailOk, hash))
  {
    var ret: seq<CsvEntry> := [];
    var i := 1;
    while i < |lines|
      invariant 1 <= i <= |lines|
      invariant forall j :: 1 <= j < i ==> HasFourColumns(lines[j])
      invariant ret == LineEntries(lines, i, users, emailOk, hash)
    {
      var next := ParseNextLine(lines, i, ret, users, emailOk, hash);
      if next.None? {
        return Crash;
      }
      ret := next.value;
      i := i + 1;
    }
    return Entries(ret);
  }

  /** The body of the loop of `parse_csv_file`: a line without four columns breaks the loop,
      any other line adds its entry. */
  method ParseNextLine(lines: seq<string>, i: nat, ret: seq<CsvEntry>, users: seq<User>, emailOk: string -> bool,
                       hash: string -> string) returns (next: Option<seq<CsvEntry>>)
    requires 1 <= i < |lines|
    requires forall j :: 1 <= j < i ==> HasFourColumns(lines[j])
    requires ret == LineEntries(lines, i, users, emailOk, hash)
    ensures next.None? <==> !HasFourColumns(lines[i])
    ensures next.Some? ==> next.value == LineEntries(lines, i + 1, users, emailOk, hash)
  {
    if !HasFourColumns(lines[i]) {
      return None;
    }
    var entry := CheckLine(lines[i], i, users, emailOk, hash);
    LineEntriesStep(lines, i + 1, users, emailOk, hash);
    return Some(ret + [entry]);
  }

  /** A line that passes every check becomes an account whose fields are the line's stripped,
      non-empty columns (with nothing left to strip), whose name is not yet taken and whose password had between 6 and 25
      characters before hashing; a refused line names itself. */
  lemma EntryShape(line: string, i: nat, users: seq<User>, emailOk: string -> bool, hash: string -> string)
    requires HasFourColumns(line)
    ensures var e := LineEntry(line, i, users, emailOk, hash);
      var cols := Split(line, ',');
      && (e.Refused? ==> e.line == i)
      && (e.Account? ==> (
            && e.username == Strip(cols[0]) && |e.username| > 0 && !Registered(users, e.username)
            && MinPasswordLength <= |Strip(cols[1])| <= MaxPasswordLength && e.password == hash(Strip(cols[1]))
            && e.nickname == Strip(cols[2]) && |e.nickname| > 0
            && e.email == Strip(cols[3]) && |e.email| > 0 && emailOk(e.email)
            && Strip(e.username) == e.username && Strip(e.nickname) == e.nickname && Strip(e.email) == e.email))
  {
    var cols := Split(line, ',');
    RefusalConditions(ReadRow(line), users, emailOk);
    StripIdempotent(cols[0]);
    StripIdempotent(cols[2]);
    StripIdempotent(cols[3]);
  }

  /** Every valid entry of a parsed file is a well-formed account, and
      every refused entry sits at the position of its own line. */
  lemma ParsedEntriesAreWellFormed(lines: seq<string>, users: seq<User>, emailOk: string -> bool,
                                   hash: string -> string)
    requires |lines| >= 1
    requires forall j :: 1 <= j < |lines| ==> HasFourColumns(lines[j])
    ensures var entries := LineEntries(lines, |lines|, users, emailOk, hash);
      && (forall k :: 0 <= k < |entries| && entries[k].Refused? ==> entries[k].line == k + 1)
      && (forall k :: 0 <= k < |entries| && entries[k].Account? ==>
            && |entries[k].username| > 0 && |entries[k].nickname| > 0 && |entries[k].email| > 0
            && !Registered(users, entries[k].username) && emailOk(entries[k].email))
  {
    var entries := LineEntries(lines, |lines|, users, emailOk, hash);
    forall k | 0 <= k < |entries|
      ensures entries[k].Refused? ==> entries[k].line == k + 1
      ensures entries[k].Account? ==> (|entries[k].username| > 0 && |entries[k].nickname| > 0 && |entries[k].email| > 0
        && !Registered(users, entries[k].username) && emailOk(entries[k].email))
    {
      EntryShape(lines[k + 1], k + 1, users, emailOk, hash);
    }
  }

  /** A header of four comma-free columns that strip to the four names is accepted, whatever
      whitespace surrounds them. */
  lemma HeaderAccepted(a: string, b: string, c: string, d: string)
    requires ',' !in a && ',' !in b && ',' !in c && ',' !in d
    requires Strip(a) == "username" && Strip(b) == "password" && Strip(c) == "nickname" && Strip(d) == "email"
    ensures CheckHeader(Join([a, b, c, d], ',')) == HeaderOk
  {
    SplitJoin([a, b, c, d], ',');
  }

  /** The header that names the four columns in order is accepted, with the line break
      `readlines` leaves on it. */
  lemma StandardHeaderAccepted()
    ensures CheckHeader(Join(["username", "password", "nickname", "email\n"], ',')) == HeaderOk
  {
    HeaderWordsStrip();
    HeaderAccepted("username", "password", "nickname", "email\n");
  }

  lemma HeaderWordsStrip()
    ensures Strip("username") == "username" && Strip("password") == "password"
    ensures Strip("nickname") == "nickname" && Strip("email") == "email" && Strip("email\n") == "email"
  {
    StripKeepsTrimmed("username");
    StripKeepsTrimmed("password");
    StripKeepsTrimmed("nickname");
    StripKeepsTrimmed("email");
    assert StripLeft("email\n") == "email\n";
    assert "email\n"[..5] == "email";
  }
}
