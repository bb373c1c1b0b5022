// The user database file: what set_up_database makes of it, and why accounts that were
// appended to it come back after a restart.
module Database {
  import opened CText
  import opened Users
  import opened Sessions
  import opened ConferenceServer

  /** The buffers of set_up_database for a name and for a password. */
  const FIELD_SIZE := 17

  predicate Stops(c: char) { c == '|' || c == '"' }

  /** The conversion %[^|"]: how many bytes it takes. */
  function SpanOf(s: string): (k: nat)
    ensures k <= |s|
    ensures forall j :: 0 <= j < k ==> !Stops(s[j])
    ensures k < |s| ==> Stops(s[k])
  {
    if s != "" && !Stops(s[0]) then 1 + SpanOf(s[1..]) else 0
  }

  /** One call of fscanf on the rest of the file. */
  datatype Round =
    | End                                                    // it returned EOF
    | Pair(name: string, password: string, rest: string)     // it filled both buffers
    | Unreadable                                             // a buffer is stale, overflows or holds a NUL

  predicate FitsField(f: string) { 0 < |f| < FIELD_SIZE && '\0' !in f }

  /** A name, the bytes ":" between quotes and a password; the last quote may be missing,
      and behind it any white space is skipped. */
  function Scan(s: string): (r: Round)
    ensures r.Pair? ==> |r.rest| < |s|
  {
    if s == "" then End
    else if s[0] != '"' then Unreadable
    else if |s| == 1 then End
    else
      var k := SpanOf(s[1..]);
      var name, s1 := s[1..][..k], s[1..][k..];
      if !FitsField(name) || !("\":\"" <= s1) then Unreadable
      else
        var j := SpanOf(s1[3..]);
        var password, s2 := s1[3..][..j], s1[3..][j..];
        if !FitsField(password) then Unreadable
        else Pair(name, password, if s2 != "" && s2[0] == '"' then SkipSpaces(s2[1..]) else s2)
  }

  datatype Loading = Loaded(users: Table) | Garbled

  /** user_database_add_user of an account that is offline; its answer is ignored. */
  function Added(t: Table, name: string, password: string): Table {
    if AddCode(t, name) == AddUserSuccess then t + [NewUser(name, password, false, 0)] else t
  }

  /** set_up_database. */
  function Load(t: Table, s: string): Loading
    decreases |s|
  {
    match Scan(s)
    case End => Loaded(t)
    case Unreadable => Garbled
    case Pair(name, password, rest) => Load(Added(t, name, password), rest)
  }

  /** The loop as it is written. */
  method SetUpDatabase(list: UserList, content: string) returns (ok: bool)
    requires list.Valid() && list.Free()
    modifies list`count, list`rwLocked, list.slots
    ensures list.Valid() && list.Free()
    ensures match Load(old(list.Records()), content)
            case Loaded(t) => ok && list.Records() == t
            case Garbled => !ok
  {
    ghost var t := list.Records();
    var rest := content;
    var round := Scan(rest);
    while round.Pair?
      invariant list.Valid() && list.Free()
      invariant round == Scan(rest) && Load(list.Records(), rest) == Load(t, content)
      decreases |rest|
    {
      var _ := list.AddUser(User(round.name, round.password, NOT_IN_SESSION, false, false, 0, Ordinary));
      rest := round.rest;
      round := Scan(rest);
    }
    ok := round.End?;
  }

  // ----- files that end where a line may be appended -----

  /** Every round, up to the last byte, reads a pair with its closing quote. */
  predicate Complete(s: string)
    decreases |s|
  {
    s == "" || (Scan(s).Pair? && Closed(s) && Complete(Scan(s).rest))
  }

  /** The round ends with a quote, and what it leaves is what stands behind the spaces. */
  predicate Closed(s: string)
    requires Scan(s).Pair?
  {
    var r := Scan(s);
    var line := Quoted(r.name, r.password);
    line <= s && r.rest == SkipSpaces(s[|line|..])
  }

  function Quoted(name: string, password: string): string {
    "\"" + name + "\":\"" + password + "\""
  }

  predicate Good(f: string) { FitsField(f) && forall i :: 0 <= i < |f| ==> !Stops(f[i]) }

  lemma SpanIs(f: string, rest: string)
    requires forall i :: 0 <= i < |f| ==> !Stops(f[i])
    requires rest != "" && Stops(rest[0])
    ensures SpanOf(f + rest) == |f|
  {
    var k := SpanOf(f + rest);
    assert forall i :: 0 <= i < |f| ==> (f + rest)[i] == f[i];
    assert (f + rest)[|f|] == rest[0];
  }

  /** A quoted pair is read back, whatever follows it. */
  lemma ScanQuoted(name: string, password: string, rest: string)
    requires Good(name) && Good(password)
    ensures Scan(Quoted(name, password) + rest) == Pair(name, password, SkipSpaces(rest))
    ensures Closed(Quoted(name, password) + rest)
  {
    var s := Quoted(name, password) + rest;
    var s1 := "\":\"" + password + "\"" + rest;
    var s2 := "\"" + rest;
    assert s[1..] == name + s1;
    SpanIs(name, s1);
    assert s1[3..] == password + s2;
    SpanIs(password, s2);
    assert s2[1..] == rest;
    assert s[|Quoted(name, password)|..] == rest;
  }

  /** A password that the reader's buffer cannot take. */
  lemma ScanOverflows(name: string, password: string)
    requires Good(name) && |password| >= FIELD_SIZE && forall i :: 0 <= i < |password| ==> !Stops(password[i])
    ensures SpanOf(Quoted(name, password)[|name| + 4..]) == |password|
    ensures Scan(Quoted(name, password)).Unreadable?
  {
    var s := Quoted(name, password);
    var s1 := "\":\"" + password + "\"";
    assert s[1..] == name + s1;
    SpanIs(name, s1);
    assert s1[3..] == password + "\"";
    SpanIs(password, "\"");
    assert s[|name| + 4..] == s1[3..];
  }

  // ----- appending -----

  lemma {:induction false} SkipInside(s: string, y: string)
    requires SkipSpaces(s) != "" || y == "" || !IsSpace(y[0])
    ensures SkipSpaces(s + y) == if SkipSpaces(s) != "" then SkipSpaces(s) + y else y
  {
    if s == "" {
      assert s + y == y;
    } else {
      assert (s + y)[1..] == s[1..] + y;
      if IsSpace(s[0]) { SkipInside(s[1..], y); }
    }
  }

  /** The start of a further line is skipped by the round before it. */
  lemma SkipToLine(s: string, y: string)
    requires y == "" || y[0] == '"'
    ensures SkipSpaces(s + ("\n" + y)) == if SkipSpaces(s) != "" then SkipSpaces(s) + ("\n" + y) else y
  {
    if SkipSpaces(s) != "" {
      SkipInside(s, "\n" + y);
    } else {
      AllSpaces(s);
      SpacesSkipped(s + "\n", y);
      assert s + "\n" + y == s + ("\n" + y);
    }
  }

  lemma {:induction false} AllSpaces(s: string)
    requires SkipSpaces(s) == ""
    ensures forall i :: 0 <= i < |s| ==> IsSpace(s[i])
  {
    if s != "" {
      AllSpaces(s[1..]);
      forall i | 0 <= i < |s| ensures IsSpace(s[i]) {
        if i > 0 { assert s[i] == s[1..][i - 1]; }
      }
    }
  }

  lemma {:induction false} SpacesSkipped(s: string, y: string)
    requires forall i :: 0 <= i < |s| ==> IsSpace(s[i])
    requires y == "" || !IsSpace(y[0])
    ensures SkipSpaces(s + y) == y
  {
    if s == "" {
      assert s + y == y;
    } else {
      assert (s + y)[1..] == s[1..] + y;
      SpacesSkipped(s[1..], y);
    }
  }

  /** A round that ends with its quote reads the same when a line is appended. */
  lemma ScanLonger(s: string, y: string)
    requires Scan(s).Pair? && Closed(s) && (y == "" || y[0] == '"')
    ensures var r, r' := Scan(s), Scan(s + ("\n" + y));
            r'.Pair? && r'.name == r.name && r'.password == r.password && Closed(s + ("\n" + y))
            && r'.rest == if r.rest != "" then r.rest + ("\n" + y) else y
  {
    hide Scan;
    var r, x := Scan(s), "\n" + y;
    var line := Quoted(r.name, r.password);
    var tail := s[|line|..];
    assert s == line + tail;
    assert s + x == line + (tail + x);
    ScannedIsGood(s);
    ScanQuoted(r.name, r.password, tail + x);
    SkipToLine(tail, y);
  }

  lemma ScannedIsGood(s: string)
    requires Scan(s).Pair?
    ensures Good(Scan(s).name) && Good(Scan(s).password)
  {
  }

  /** A complete file, and then the lines appended to it. */
  lemma {:induction false} LoadLonger(t: Table, s: string, y: string)
    requires Complete(s) && s != "" && (y == "" || y[0] == '"')
    ensures Load(t, s).Loaded? && Load(t, s + ("\n" + y)) == Load(Load(t, s).users, y)
    ensures Complete(s + ("\n" + y)) <==> Complete(y)
    decreases |s|
  {
    hide Scan, Closed;
    var r := Scan(s);
    var t1 := Added(t, r.name, r.password);
    ScanLonger(s, y);
    if r.rest == "" {
      ScanOfNothing();
    } else {
      LoadLonger(t1, r.rest, y);
    }
  }

  lemma ScanOfNothing()
    ensures Scan("") == End
  {
  }

  /** An account is added, offline and in no session, if there is room and the name is new. */
  lemma AddedExactly(t: Table, name: string, password: string)
    ensures Added(t, name, password)
         == if |t| >= 100 || exists i :: 0 <= i < |t| && t[i].name == name then t
            else t + [User(name, password, "Not in session", false, false, 0, Ordinary)]
  {
    if i :| 0 <= i < |t| && t[i].name == name { assert Search(t, name) <= i; }
  }

  /** What write_to_database appends to a complete, non-empty file is one more account. */
  lemma LineLoaded(t: Table, s: string, name: string, password: string)
    requires Complete(s) && s != "" && Good(name) && Good(password)
    ensures Complete(s + FileLine(name, password))
    ensures Load(t, s).Loaded?
    ensures Load(t, s + FileLine(name, password)) == Loaded(Added(Load(t, s).users, name, password))
  {
    hide Scan, Closed;
    var y := Quoted(name, password);
    assert FileLine(name, password) == "\n" + y;
    assert y + "" == y;
    LoadLonger(t, s, y);
    ScanQuoted(name, password, "");
    ScanOfNothing();
  }

  // ----- what a reload adds -----

  lemma {:induction false} LoadExtends(t: Table, s: string)
    requires Load(t, s).Loaded?
    ensures t <= Load(t, s).users
    ensures forall i :: |t| <= i < |Load(t, s).users| ==>
              Good(Load(t, s).users[i].name) && Good(Load(t, s).users[i].password)
    decreases |s|
  {
    hide Scan, Good;
    var r := Scan(s);
    if r.Pair? {
      var t1 := Added(t, r.name, r.password);
      ScannedIsGood(s);
      LoadExtends(t1, r.rest);
    }
  }

  /** Whatever file is loaded, the table is one that the conference may start with. */
  lemma {:induction false} LoadIsFresh(t: Table, s: string)
    requires JustLoaded(t) && Load(t, s).Loaded?
    ensures JustLoaded(Load(t, s).users)
    decreases |s|
  {
    hide Scan, Good;
    var r := Scan(s);
    if r.Pair? {
      ScannedIsGood(s);
      AddedIsFresh(t, r.name, r.password);
      LoadIsFresh(Added(t, r.name, r.password), r.rest);
    }
  }

  lemma AddedIsFresh(t: Table, name: string, password: string)
    requires JustLoaded(t) && Good(name)
    ensures JustLoaded(Added(t, name, password))
  {
  }

  // ----- registrations and a restart -----

  datatype Account = Account(name: string, password: string)

  function Accounts(t: Table): (a: seq<Account>)
    ensures |a| == |t|
  {
    seq(|t|, i requires 0 <= i < |t| => Account(t[i].name, t[i].password))
  }

  /** The table as a restart should show it: everybody offline and in no session. */
  function Restarted(a: seq<Account>): (t: Table)
    ensures |t| == |a|
  {
    seq(|a|, i requires 0 <= i < |a| => NewUser(a[i].name, a[i].password, false, 0))
  }

  /** The lines that successful registrations append, one after the other. */
  function Lines(a: seq<Account>): string {
    if a == [] then ""
    else Lines(a[..|a| - 1]) + FileLine(a[|a| - 1].name, a[|a| - 1].password)
  }

  predicate AllGood(a: seq<Account>) { forall i :: 0 <= i < |a| ==> Good(a[i].name) && Good(a[i].password) }

  predicate DistinctNames(a: seq<Account>) { forall i, j :: 0 <= i < j < |a| ==> a[i].name != a[j].name }

  lemma NextAccount(all: seq<Account>, n: nat)
    requires DistinctNames(all) && n < |all| <= MAX_USER_COUNT
    ensures Added(Restarted(all[..n]), all[n].name, all[n].password) == Restarted(all[..n + 1])
  {
    var t := Restarted(all[..n]);
    var k := Search(t, all[n].name);
    assert k < n ==> t[k].name == all[k].name;
  }

  lemma {:induction false} LinesLoaded(base: string, all: seq<Account>, n: nat, m: nat)
    requires n <= m <= |all| <= MAX_USER_COUNT && DistinctNames(all) && AllGood(all[n..])
    requires Complete(base) && base != "" && Load([], base) == Loaded(Restarted(all[..n]))
    ensures Complete(base + Lines(all[n..m])) && Load([], base + Lines(all[n..m])) == Loaded(Restarted(all[..m]))
  {
    hide Good, Complete, FileLine, DistinctNames, Restarted, Added, Load;
    if m == n {
      assert base + Lines(all[n..m]) == base;
    } else {
      LinesLoaded(base, all, n, m - 1);
      assert all[n..m][..m - 1 - n] == all[n..m - 1];
      var u := all[m - 1];
      assert u == all[n..][m - 1 - n];
      LineLoaded([], base + Lines(all[n..m - 1]), u.name, u.password);
      assert base + Lines(all[n..m]) == base + Lines(all[n..m - 1]) + FileLine(u.name, u.password);
      NextAccount(all, m - 1);
    }
  }

  lemma {:induction false} LinesStart(a: seq<Account>)
    requires a != []
    ensures Lines(a) != "" && Lines(a)[0] == '\n'
  {
    if |a| > 1 { LinesStart(a[..|a| - 1]); }
  }

  /** After any successful registrations, a restart shows exactly the same accounts, all
      offline and in no session, if and only if there were none, or the file was not empty
      at first and every new name and password is one that the reader can take back. */
  lemma ReloadExactly(base: string, all: seq<Account>, n: nat)
    requires n <= |all| <= MAX_USER_COUNT && DistinctNames(all)
    requires Complete(base) && Load([], base) == Loaded(Restarted(all[..n]))
    ensures Load([], base + Lines(all[n..])) == Loaded(Restarted(all))
       <==> n == |all| || (base != "" && AllGood(all[n..]))
    ensures n == |all| || (base != "" && AllGood(all[n..])) ==> Complete(base + Lines(all[n..]))
  {
    hide Good, Complete, FileLine, DistinctNames, Scan, Load, Restarted, AllGood;
    assert all[..|all|] == all && all[n..|all|] == all[n..];
    if n == |all| {
      assert base + Lines(all[n..]) == base;
    } else if base == "" {
      LinesStart(all[n..]);
      assert base + Lines(all[n..]) == Lines(all[n..]);
      NoQuote(Lines(all[n..]));
    } else if AllGood(all[n..]) {
      LinesLoaded(base, all, n, |all|);
    } else if Load([], base + Lines(all[n..])) == Loaded(Restarted(all)) {
      LoadedAreGood(base + Lines(all[n..]), all, n);
    }
  }

  lemma LoadedAreGood(s: string, all: seq<Account>, n: nat)
    requires Load([], s) == Loaded(Restarted(all)) && n <= |all|
    ensures AllGood(all[n..])
  {
    hide Good, Scan, Load;
    LoadExtends([], s);
    forall i | 0 <= i < |all| ensures Good(all[i].name) && Good(all[i].password) {
      assert Restarted(all)[i].name == all[i].name;
    }
  }

  lemma NoQuote(s: string)
    requires s != "" && s[0] != '"'
    ensures forall t :: Load(t, s) == Garbled
  {
  }

  /** Every account of a restarted server can log in with its password. */
  lemma AccountsCanLogIn(a: seq<Account>, i: nat)
    requires DistinctNames(a) && i < |a|
    ensures VerifyLogin(Restarted(a), a[i].name, a[i].password) == SuccessLogin
  {
    var t := Restarted(a);
    forall j, k | 0 <= j < k < |t| ensures t[j].name != t[k].name {
      assert t[j].name == a[j].name && t[k].name == a[k].name;
    }
    assert t[i].name == a[i].name;
    SearchFinds(t, i);
  }

  // ----- the file in the repository -----

  function Shipped(): seq<Account> {
    [Account("John3534", "Password123"), Account("Alice7890", "SecurePass"), Account("Bob2022", "Secret123"),
     Account("Ella45", "StrongPassword"), Account("David1998", "P@ssw0rd"), Account("morris", "2002"),
     Account("Jack", "Password")]
  }

  lemma FirstFieldsGood()
    ensures Good("John3534") && Good("Password123") && Good("Alice7890") && Good("SecurePass")
  {
  }

  lemma MiddleFieldsGood()
    ensures Good("Bob2022") && Good("Secret123") && Good("Ella45") && Good("StrongPassword")
  {
  }

  lemma LastFieldsGood()
    ensures Good("David1998") && Good("P@ssw0rd") && Good("morris") && Good("2002")
    ensures Good("Jack") && Good("Password")
  {
  }

  lemma ShippedIsGood()
    ensures |Shipped()| == 7 && DistinctNames(Shipped())
    ensures Good(Shipped()[0].name) && Good(Shipped()[0].password) && AllGood(Shipped()[1..])
  {
    hide Good;
    FirstFieldsGood();
    MiddleFieldsGood();
    LastFieldsGood();
    assert Shipped()[1..] == [Account("Alice7890", "SecurePass"), Account("Bob2022", "Secret123"),
      Account("Ella45", "StrongPassword"), Account("David1998", "P@ssw0rd"), Account("morris", "2002"),
      Account("Jack", "Password")];
  }

  /** database.txt: it is complete, without a newline at its end, and loads to its seven
      accounts. */
  lemma ShippedLoads()
    ensures |Shipped()| == 7
    ensures var file := Quoted(Shipped()[0].name, Shipped()[0].password) + Lines(Shipped()[1..]);
            Complete(file) && Load([], file) == Loaded(Restarted(Shipped()))
  {
    hide Complete, Load, Lines, Restarted, Shipped, AllGood, DistinctNames, Good;
    ShippedIsGood();
    FirstPair(Shipped());
    ReloadExactly(Quoted(Shipped()[0].name, Shipped()[0].password), Shipped(), 1);
  }

  lemma FirstPair(all: seq<Account>)
    requires all != [] && Good(all[0].name) && Good(all[0].password)
    ensures var base := Quoted(all[0].name, all[0].password);
            base != "" && Complete(base) && Load([], base) == Loaded(Restarted(all[..1]))
  {
    hide Scan, Good, Closed;
    var base := Quoted(all[0].name, all[0].password);
    ScanQuoted(all[0].name, all[0].password, "");
    ScanOfNothing();
    assert base + "" == base;
    assert Restarted(all[..1]) == [NewUser(all[0].name, all[0].password, false, 0)];
    assert Added([], all[0].name, all[0].password) == Restarted(all[..1]);
  }
}
