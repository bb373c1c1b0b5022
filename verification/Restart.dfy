// Restarting the server: in every run of the conference, what the database file brings
// back.
module Restart {
  import opened Users
  import opened Sessions
  import opened Conference
  import opened ConferenceSteps
  import opened Database

  lemma {:induction false} LinesOfSum(a: seq<Account>, b: seq<Account>)
    ensures Lines(a + b) == Lines(a) + Lines(b)
  {
    hide FileLine;
    if b == [] {
      assert a + b == a;
      assert Lines(a) + Lines(b) == Lines(a);
    } else {
      var n := |b| - 1;
      assert (a + b)[..|a + b| - 1] == a + b[..n];
      LinesOfSum(a, b[..n]);
      var line := FileLine(b[n].name, b[n].password);
      assert (Lines(a) + Lines(b[..n])) + line == Lines(a) + (Lines(b[..n]) + line);
    }
  }

  /** No account is lost or changed, and each new one has had its line appended. */
  predicate Recorded(s: Server, s': Server) {
    var old', new' := Accounts(s.users), Accounts(s'.users);
    old' <= new' && s'.file == s.file + Lines(new'[|old'|..])
  }

  lemma RecordedTwice(s: Server, s1: Server, s2: Server)
    requires Recorded(s, s1) && Recorded(s1, s2)
    ensures Recorded(s, s2)
  {
    hide Accounts, Lines;
    var a, a1, a2 := Accounts(s.users), Accounts(s1.users), Accounts(s2.users);
    LinesOfSum(a1[|a|..], a2[|a1|..]);
    assert a2[|a|..] == a1[|a|..] + a2[|a1|..];
  }

  lemma NothingNew(s: Server, s': Server)
    requires s'.file == s.file && |s'.users| == |s.users|
    requires forall i :: 0 <= i < |s.users| ==>
               s'.users[i].name == s.users[i].name && s'.users[i].password == s.users[i].password
    ensures Recorded(s, s')
  {
    assert Accounts(s'.users) == Accounts(s.users);
    assert s'.file == s.file + Lines([]);
  }

  lemma RegisterRecorded(s: Server, name: string, password: string, fd: int)
    ensures Recorded(s, Register(s, name, password, fd).0)
  {
    var s' := Register(s, name, password, fd).0;
    if AddCode(s.users, name) == AddUserSuccess {
      var a := Account(name, password);
      assert Accounts(s'.users) == Accounts(s.users) + [a];
      assert [a][..0] == [];
      assert Lines([a]) == FileLine(name, password);
    } else {
      NothingNew(s, s');
    }
  }

  lemma ExitKeepsAccounts(t: Table, k: nat)
    requires k < |t|
    ensures forall i :: 0 <= i < |t| ==>
              ExitSession(t, k)[i].name == t[i].name && ExitSession(t, k)[i].password == t[i].password
  {
    hide Count;
  }

  lemma LeaveRecorded(s: Server, name: string)
    ensures Recorded(s, Leave(s, name).0)
  {
    hide Recorded, Search, AdminNotices, ExitSession;
    if Known(s, name) { ExitKeepsAccounts(s.users, Search(s.users, name)); }
    NothingNew(s, Leave(s, name).0);
  }

  lemma UserExitRecorded(s: Server, name: string)
    ensures Recorded(s, UserExit(s, name).0)
  {
    hide Recorded, Search, Leave;
    if Known(s, name) {
      var s1 := if Find(s, name).inSession then Leave(s, name).0 else s;
      LeaveRecorded(s, name);
      NothingNew(s, s);
      NothingNew(s1, UserExit(s, name).0);
      RecordedTwice(s, s1, UserExit(s, name).0);
    } else {
      NothingNew(s, UserExit(s, name).0);
    }
  }

  lemma MoveRecorded(s: Server, name: string, x: string)
    ensures Recorded(s, Create(s, name, x).0) && Recorded(s, Join(s, name, x).0)
  {
    hide Recorded, Search, Count;
    NothingNew(s, Create(s, name, x).0);
    NothingNew(s, Join(s, name, x).0);
  }

  lemma KickRecorded(s: Server, sender: string, target: string)
    ensures Recorded(s, Kick(s, sender, target).0)
  {
    hide Recorded, Search;
    NothingNew(s, Kick(s, sender, target).0);
  }

  lemma PromoteRecorded(s: Server, sender: string, target: string)
    ensures Recorded(s, Promote(s, sender, target).0)
  {
    hide Recorded, Search;
    NothingNew(s, Promote(s, sender, target).0);
  }

  lemma LoginRecorded(s: Server, name: string, password: string, fd: int)
    ensures Recorded(s, Login(s, name, password, fd).0)
  {
    hide Recorded, Search;
    NothingNew(s, Login(s, name, password, fd).0);
  }

  lemma HandleRecorded(s: Server, conn: Conn, fd: int, q: Request)
    ensures Recorded(s, Handle(s, conn, fd, q).0)
  {
    hide Recorded, Search, Login, Register, Create, Join, Leave, Kick, Promote, UserExit;
    NothingNew(s, s);
    NothingNew(s, s.(faulted := true));
    LoginRecorded(s, q.source, q.data, fd);
    RegisterRecorded(s, q.source, q.data, fd);
    UserExitRecorded(s, conn.source);
    LeaveRecorded(s, conn.source);
    MoveRecorded(s, conn.source, q.data);
    KickRecorded(s, conn.source, q.data);
    PromoteRecorded(s, conn.source, q.data);
  }

  lemma {:induction false} HandleAllRecorded(s: Server, conn: Conn, fd: int, qs: seq<Request>)
    ensures Recorded(s, HandleAll(s, conn, fd, qs).0)
    decreases |qs|
  {
    hide Recorded, Handle;
    if qs == [] {
      NothingNew(s, s);
    } else {
      var (s1, conn1, out1) := Handle(s, conn, fd, qs[0]);
      HandleRecorded(s, conn, fd, qs[0]);
      HandleAllRecorded(s1, conn1, fd, qs[1..]);
      RecordedTwice(s, s1, HandleAll(s1, conn1, fd, qs[1..]).0);
    }
  }

  lemma StepRecorded(w: World, fd: int, cmd: Command)
    requires fd in w.peers
    ensures Recorded(w.server, Step(w, fd, cmd).server)
  {
    hide Recorded, HandleAll, Obey, UserExit;
    if cmd.Crash? {
      NothingNew(w.server, w.server);
      UserExitRecorded(w.server, w.peers[fd].conn.source);
    } else {
      HandleAllRecorded(w.server, w.peers[fd].conn, fd, Obey(w.peers[fd].client, cmd).1);
    }
  }

  lemma {:induction false} RunRecorded(w: World, acts: seq<Act>, v: World)
    requires Run(w, acts, v)
    ensures Recorded(w.server, v.server)
    decreases |acts|
  {
    hide Recorded, Step;
    if acts == [] {
      NothingNew(w.server, w.server);
    } else {
      var w1 := Step(w, acts[0].fd, acts[0].cmd);
      StepRecorded(w, acts[0].fd, acts[0].cmd);
      RunRecorded(w1, acts[1..], v);
      RecordedTwice(w.server, w1.server, v.server);
    }
  }

  /** The server has just loaded a file to whose end a line can be appended. */
  ghost predicate Restarts(w: World) {
    Start(w) && Complete(w.server.file) && Load([], w.server.file) == Loaded(w.server.users)
  }

  /** In every run that starts from a loaded file, stopping the server and loading the file
      again brings back exactly the accounts of the table, in order and without duplicates,
      all offline and in no session, if and only if nobody registered, or the file was not
      empty at first and the reader can take back every name and password registered. */
  lemma RestartExactly(w: World, acts: seq<Act>, v: World)
    requires Restarts(w) && Run(w, acts, v)
    ensures var all, n := Accounts(v.server.users), |w.server.users|;
            n <= |all| &&
            (Load([], v.server.file) == Loaded(Restarted(all)) <==> Kept(w.server.file, all, n))
  {
    hide Complete, Load, Lines, AllGood, Run, Start;
    var all, n := Accounts(v.server.users), |w.server.users|;
    RunRecorded(w, acts, v);
    AlwaysAgree(v);
    AccountsDistinct(v.server.users);
    StartedFresh(w);
    assert all[..n] == Accounts(w.server.users);
    assert w.server.users == Restarted(all[..n]);
    ReloadExactly(w.server.file, all, n);
  }

  /** When registrations survive a restart. */
  predicate Kept(file: string, all: seq<Account>, n: nat)
    requires n <= |all|
  {
    n == |all| || (file != "" && AllGood(all[n..]))
  }

  lemma AccountsDistinct(t: Table)
    requires TableInv(t)
    ensures DistinctNames(Accounts(t)) && |t| <= MAX_USER_COUNT
  {
  }

  lemma StartedFresh(w: World)
    requires Start(w)
    ensures w.server.users == Restarted(Accounts(w.server.users))
  {
  }

  /** Whoever is in the table when the server stops can log in after the restart. */
  lemma EveryoneReturns(w: World, acts: seq<Act>, v: World, i: nat)
    requires Restarts(w) && Run(w, acts, v)
    requires |w.server.users| <= |v.server.users| && i < |v.server.users|
    requires Kept(w.server.file, Accounts(v.server.users), |w.server.users|)
    ensures Load([], v.server.file).Loaded?
    ensures VerifyLogin(Load([], v.server.file).users, v.server.users[i].name, v.server.users[i].password)
         == SuccessLogin
  {
    hide Complete, Load, Kept, Run, Start, VerifyLogin;
    RestartExactly(w, acts, v);
    AlwaysAgree(v);
    AccountsDistinct(v.server.users);
    AccountsCanLogIn(Accounts(v.server.users), i);
  }

  /** The client admits passwords of up to 19 bytes and the server registers them. On the
      next start the reader's buffer of 17 bytes cannot take one of 17 or more with its
      NUL: what the C program does from there is undefined, and the model stops. */
  lemma LongPasswordOverflows(c: Client, base: string, name: string, password: string)
    requires !c.verified && Complete(base) && base != "" && Good(name) && |name| < MAX_NAME
    requires FIELD_SIZE <= |password| < MAX_PASSWORD_LENGTH && forall i :: 0 <= i < |password| ==> !Stops(password[i])
    ensures Obey(c, DoRegister(name, password)).1 == [Request(CREATE, name, password)]
    ensures SpanOf(Quoted(name, password)[|name| + 4..]) == |password| && |password| + 1 > FIELD_SIZE
    ensures Load([], base + FileLine(name, password)) == Garbled
  {
    hide Load, Complete, Scan, Good;
    var y := Quoted(name, password);
    assert FileLine(name, password) == "\n" + y;
    LoadLonger([], base, y);
    ScanOverflows(name, password);
    GarbledAt(Load([], base).users, y);
  }

  lemma GarbledAt(t: Table, s: string)
    requires Scan(s).Unreadable?
    ensures Load(t, s) == Garbled
  {
    hide Scan;
  }
}
