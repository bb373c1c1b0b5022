// What becomes of a typed password: where a registration puts it, and what a login under
// that name is answered, in every run and after a restart.
module Passwords {
  import opened Users
  import opened Sessions
  import opened SessionProof
  import opened Conference
  import opened ConferenceProof
  import opened ConferenceSteps
  import opened ConferenceTheorems
  import opened Answers
  import opened Database
  import opened Restart

  /** A client that is not logged in, with a name and a password that the client admits. */
  predicate CanSignOn(w: World, fd: int, name: string, password: string) {
    fd in w.peers && !w.peers[fd].client.verified && CommandOk(DoLogin(name, password))
    && |name| < MAX_NAME && |password| < MAX_PASSWORD_LENGTH
  }

  // ----- registering -----

  /** The accounts that a command adds. */
  function NewAccounts(w: World, fd: int, cmd: Command): seq<Account> {
    match cmd
    case DoRegister(name, password) =>
      if CanSignOn(w, fd, name, password) && name !in Names(w.server.users) && |w.server.users| < 100
      then [Account(name, password)] else []
    case _ => []
  }

  lemma LongerAccounts(t: Table, u: User)
    ensures Accounts(t + [u]) == Accounts(t) + [Account(u.name, u.password)]
  {
  }

  lemma HandleKeepsFile(s: Server, conn: Conn, fd: int, q: Request)
    ensures q.kind != CREATE ==> Handle(s, conn, fd, q).0.file == s.file
  {
    hide Search, Count, AdminNotices, OnlineList, SessionQuery, Broadcast, Refusal;
  }

  lemma {:induction false} HandleAllKeepsFile(s: Server, conn: Conn, fd: int, qs: seq<Request>)
    requires forall i :: 0 <= i < |qs| ==> qs[i].kind != CREATE
    ensures HandleAll(s, conn, fd, qs).0.file == s.file
    decreases |qs|
  {
    hide Handle;
    if qs != [] {
      HandleKeepsFile(s, conn, fd, qs[0]);
      HandleAllKeepsFile(Handle(s, conn, fd, qs[0]).0, Handle(s, conn, fd, qs[0]).1, fd, qs[1..]);
    }
  }

  lemma StepKeepsFile(w: World, fd: int, cmd: Command)
    requires fd in w.peers && !cmd.DoRegister?
    ensures Step(w, fd, cmd).server.file == w.server.file
  {
    hide HandleAll, Delivered, Search, AdminNotices;
    if !cmd.Crash? {
      HandleAllKeepsFile(w.server, w.peers[fd].conn, fd, Obey(w.peers[fd].client, cmd).1);
    }
  }

  lemma SameFileSameAccounts(s: Server, s': Server)
    requires Recorded(s, s') && s'.file == s.file
    ensures Accounts(s'.users) == Accounts(s.users)
  {
    hide Accounts, FileLine;
    var more := Accounts(s'.users)[|Accounts(s.users)|..];
    assert |s'.file| == |s.file| + |Lines(more)|;
    if more != [] { LinesNotEmpty(more); }
  }

  lemma LinesNotEmpty(a: seq<Account>)
    requires a != []
    ensures |Lines(a)| > 0
  {
  }

  lemma RegisterStores(w: World, fd: int, name: string, password: string)
    requires Agree(w) && CanSignOn(w, fd, name, password)
    ensures Sent(w, fd, DoRegister(name, password)) == Register(w.server, name, password, fd).1
    ensures Step(w, fd, DoRegister(name, password)).server == Register(w.server, name, password, fd).0
    ensures var r := Register(w.server, name, password, fd).1;
            |r| == 1 && (IsAs(Step(w, fd, DoRegister(name, password)), fd, name) <==> r[0].kind == RG_ACK)
  {
    hide Agree, Register, Step, Sent, Delivered, OnMessage;
    AgreeTable(w);
    var cmd, q := DoRegister(name, password), Request(CREATE, name, password);
    var c := w.peers[fd].client.(connected := true);
    StepOne(w, fd, cmd, c, q);
    SentOne(w, fd, cmd, q);
    var v, r := Step(w, fd, cmd), Register(w.server, name, password, fd).1;
    RegisterReply(w.server, name, password, fd);
    assert r == [r[0]];
    SignedOn(w, fd, c, Handle(w.server, w.peers[fd].conn, fd, q).1, r[0], v);
    SignsOn(c, r[0]);
  }

  lemma RegisterReply(s: Server, name: string, password: string, fd: int)
    ensures var out := Register(s, name, password, fd).1;
            |out| == 1 && out[0].fd == fd && out[0].source == name && (out[0].kind == RG_ACK || out[0].kind == RG_NAK)
  {
  }

  lemma SignsOn(c: Client, r: Reply)
    ensures r.kind == LO_ACK || r.kind == RG_ACK ==> OnMessage(c, r).verified && OnMessage(c, r).name == r.source
    ensures r.kind == LO_NAK || r.kind == RG_NAK ==> !OnMessage(c, r).verified
  {
  }

  /** In every reachable state each command leaves the accounts as they are, but for a
      registration that is granted, which adds exactly the typed name and password: to the
      table, and as a line of text to the file. */
  lemma AccountsAfter(w: World, fd: int, cmd: Command)
    requires Reachable(w) && fd in w.peers && CommandOk(cmd)
    ensures var s' := Step(w, fd, cmd).server;
            Accounts(s'.users) == Accounts(w.server.users) + NewAccounts(w, fd, cmd)
            && s'.file == w.server.file + if NewAccounts(w, fd, cmd) == [] then ""
                                          else "\n\"" + cmd.name + "\":\"" + cmd.password + "\""
    ensures NewAccounts(w, fd, cmd) != [] ==> Has(Step(w, fd, cmd).server.users, cmd.name, cmd.password, true)
  {
    hide Agree, Reachable, Step, Accounts, Recorded, Sent, Search, Obey;
    var s, s' := w.server, Step(w, fd, cmd).server;
    AlwaysAgree(w);
    if cmd.DoRegister? {
      RegisterAfter(w, fd, cmd.name, cmd.password);
    } else {
      StepKeepsFile(w, fd, cmd);
      StepRecorded(w, fd, cmd);
      SameFileSameAccounts(s, s');
      assert Accounts(s.users) + [] == Accounts(s.users) && s.file + "" == s.file;
    }
  }

  lemma RegisterAfter(w: World, fd: int, name: string, password: string)
    requires Agree(w) && fd in w.peers && CommandOk(DoRegister(name, password))
    ensures var s' := Step(w, fd, DoRegister(name, password)).server;
            var more := NewAccounts(w, fd, DoRegister(name, password));
            Accounts(s'.users) == Accounts(w.server.users) + more
            && s'.file == w.server.file + if more == [] then "" else "\n\"" + name + "\":\"" + password + "\""
    ensures NewAccounts(w, fd, DoRegister(name, password)) != [] ==>
              Has(Step(w, fd, DoRegister(name, password)).server.users, name, password, true)
  {
    hide Agree, Step, Accounts, Sent, Search, Names;
    var s, s', cmd := w.server, Step(w, fd, DoRegister(name, password)).server, DoRegister(name, password);
    assert Accounts(s.users) + [] == Accounts(s.users) && s.file + "" == s.file;
    NameKnown(s.users, name);
    if CanSignOn(w, fd, name, password) {
      RegisterStores(w, fd, name, password);
      var u := NewUser(name, password, true, fd);
      LongerAccounts(s.users, u);
      if NewAccounts(w, fd, cmd) != [] {
        assert (s.users + [u])[|s.users|] == u;
      }
    } else {
      StepNone(w, fd, cmd);
    }
  }

  /** Whoever registers is told exactly one thing: that it was done if and only if they are
      logged in under that name afterwards, and otherwise whether the list of 100 users is
      full or the name is taken. */
  lemma RegisterAnswered(w: World, fd: int, name: string, password: string)
    requires Reachable(w) && CanSignOn(w, fd, name, password)
    ensures var out, v := Sent(w, fd, DoRegister(name, password)), Step(w, fd, DoRegister(name, password));
            out == [if |w.server.users| >= 100 then Reply(fd, RG_NAK, name, "User list is full!.")
                    else if name in Names(w.server.users) then Reply(fd, RG_NAK, name, "Username already exists!.")
                    else Reply(fd, RG_ACK, name, "")]
            && (out[0].kind == RG_ACK <==> IsAs(v, fd, name))
  {
    hide Agree, Reachable, Step, Sent, Search, Names, IsAs;
    AlwaysAgree(w);
    RegisterStores(w, fd, name, password);
    NameKnown(w.server.users, name);
  }

  // ----- logging in -----

  lemma LoginStores(w: World, fd: int, name: string, password: string)
    requires Agree(w) && CanSignOn(w, fd, name, password)
    ensures var out := Login(w.server, name, password, fd).1;
            Sent(w, fd, DoLogin(name, password)) == out && |out| == 1
            && (IsAs(Step(w, fd, DoLogin(name, password)), fd, name) <==> out[0].kind == LO_ACK)
  {
    hide Agree, Login, Step, Sent, Delivered, OnMessage;
    AgreeTable(w);
    var cmd, q := DoLogin(name, password), Request(LOGIN, name, password);
    var c := w.peers[fd].client.(connected := true);
    StepOne(w, fd, cmd, c, q);
    SentOne(w, fd, cmd, q);
    var v, r := Step(w, fd, cmd), Login(w.server, name, password, fd).1;
    LoginReply(w.server, name, password, fd);
    assert r == [r[0]];
    SignedOn(w, fd, c, Handle(w.server, w.peers[fd].conn, fd, q).1, r[0], v);
    SignsOn(c, r[0]);
  }

  lemma LoginReply(s: Server, name: string, password: string, fd: int)
    ensures var out := Login(s, name, password, fd).1;
            |out| == 1 && out[0].fd == fd && out[0].source == name && (out[0].kind == LO_ACK || out[0].kind == LO_NAK)
  {
  }

  lemma AccountIs(t: Table, k: nat, password: string)
    requires UniqueNames(t) && k < |t|
    ensures Account(t[k].name, password) in Accounts(t) <==> t[k].password == password
  {
    var all := Accounts(t);
    assert all[k] == Account(t[k].name, t[k].password);
    if Account(t[k].name, password) in all {
      var i :| 0 <= i < |all| && all[i] == Account(t[k].name, password);
      assert i == k;
    }
  }

  /** Whoever logs in is told exactly one thing: that it was done if and only if they are
      logged in under that name afterwards, and otherwise the first reason against it. */
  lemma LoginAnswered(w: World, fd: int, name: string, password: string)
    requires Reachable(w) && CanSignOn(w, fd, name, password)
    ensures var out, v := Sent(w, fd, DoLogin(name, password)), Step(w, fd, DoLogin(name, password));
            out == [if name !in Names(w.server.users) then
                      Reply(fd, LO_NAK, name, "Your username does not " + "appear to be valid.")
                    else if Account(name, password) !in Accounts(w.server.users) then
                      Reply(fd, LO_NAK, name, "Your password is incorrect.")
                    else if OnlineAs(w, name) then
                      Reply(fd, LO_NAK, name, "You have logged in elsewhere.\n "
                                              + ("Please log out of the other session " + "before proceeding."))
                    else Reply(fd, LO_ACK, name, "")]
            && (out[0].kind == LO_ACK <==> IsAs(v, fd, name))
  {
    hide Agree, Reachable, Step, Sent, Search, Names, IsAs, OnlineAs, Accounts;
    AlwaysAgree(w);
    TableOf(w);
    LoginStores(w, fd, name, password);
    NameKnown(w.server.users, name);
    var k := Search(w.server.users, name);
    if k < |w.server.users| {
      AccountIs(w.server.users, k, password);
      OnlineIs(w, k);
    }
  }

  // ----- the password that was registered -----

  lemma {:induction false} ReachableRun(w: World, acts: seq<Act>, v: World)
    requires Reachable(w) && Run(w, acts, v)
    ensures Reachable(v)
    decreases |acts|
  {
    hide Reachable, Step, CommandOk;
    if acts != [] {
      ReachableNext(w, acts[0]);
      ReachableRun(Step(w, acts[0].fd, acts[0].cmd), acts[1..], v);
    }
  }

  /** This name has this password, in the table and nowhere else another. */
  lemma AccountStays(w: World, acts: seq<Act>, v: World, name: string, password: string)
    requires Reachable(w) && Run(w, acts, v) && Account(name, password) in Accounts(w.server.users)
    ensures Reachable(v) && name in Names(v.server.users)
    ensures forall p :: Account(name, p) in Accounts(v.server.users) <==> p == password
  {
    hide Agree, Reachable, Run, Lines;
    ReachableRun(w, acts, v);
    AlwaysAgree(v);
    TableOf(v);
    RunRecorded(w, acts, v);
    var t, all := v.server.users, Accounts(v.server.users);
    var i :| 0 <= i < |Accounts(w.server.users)| && Accounts(w.server.users)[i] == Account(name, password);
    assert all[i] == Account(name, password);
    assert t[i].name == name && t[i].password == password;
    forall p ensures Account(name, p) in all <==> p == password { AccountIs(t, i, p); }
  }

  /** After any run that follows a registration, a login under that name while nobody is
      logged in under it is acknowledged if and only if the password is the one typed then;
      otherwise the password is said to be wrong. */
  lemma OnlyThatPassword(w: World, fd: int, name: string, password: string, acts: seq<Act>, v: World, x: int, p: string)
    requires Reachable(w) && CanSignOn(w, fd, name, password)
    requires name !in Names(w.server.users) && |w.server.users| < 100
    requires Run(Step(w, fd, DoRegister(name, password)), acts, v)
    requires CanSignOn(v, x, name, p) && !OnlineAs(v, name)
    ensures Sent(v, x, DoLogin(name, p))
         == [if p == password then Reply(x, LO_ACK, name, "")
             else Reply(x, LO_NAK, name, "Your password is incorrect.")]
    ensures IsAs(Step(v, x, DoLogin(name, p)), x, name) <==> p == password
  {
    hide Reachable, Run, Step, Sent, Names, IsAs, OnlineAs, Accounts, Has;
    var cmd := DoRegister(name, password);
    AccountsAfter(w, fd, cmd);
    ReachableNext(w, Act(fd, cmd));
    AccountStays(Step(w, fd, cmd), acts, v, name, password);
    LoginAnswered(v, x, name, p);
  }

  /** Nobody is logged in under the name of a user who has just logged out. */
  lemma LoggedOut(w: World, fd: int, name: string)
    requires Reachable(w) && IsAs(w, fd, name)
    ensures var v := Step(w, fd, DoLogout);
            Reachable(v) && fd in v.peers && !v.peers[fd].client.verified && !OnlineAs(v, name)
  {
    hide Agree, Reachable, Step, Search, OnlineAs, TableInv;
    AlwaysAgree(w);
    ReachableNext(w, Act(fd, DoLogout));
    var v, k := Step(w, fd, DoLogout), Search(w.server.users, name);
    AlwaysAgree(v);
    OwnRecord(w, fd, k);
    SignedOffAfter(w, fd, k);
    OnlineIs(v, k);
    ClientOut(w, fd);
  }

  lemma SignedOffAfter(w: World, fd: int, k: nat)
    requires Agree(w) && LoggedIn(w, fd, k) && k < |w.server.users|
    ensures var t := Step(w, fd, DoLogout).server.users;
            k < |t| && t[k].name == w.server.users[k].name && !t[k].online
  {
    hide Agree, TableInv, Search, ExitSession, AdminNotices, Delivered, Sent, Handle;
    OwnRecord(w, fd, k);
    AgreeTable(w);
    if w.peers[fd].client.session {
      GoneSays(w, fd, k, DoLogout);
    } else {
      var q := Request(EXIT, w.peers[fd].client.name, "");
      assert Obey(w.peers[fd].client, DoLogout).1 == [q];
      ServerAfter(w, fd, k, DoLogout, q);
      ExitSigns(w.server, w.peers[fd].conn, fd, k, q);
    }
  }

  lemma ExitSigns(s: Server, conn: Conn, fd: int, k: nat, q: Request)
    requires ServerOk(s) && q.kind == EXIT && Search(s.users, conn.source) == k < |s.users| && !s.users[k].inSession
    ensures Handle(s, conn, fd, q).0.users == SignedOff(s.users, k)
  {
    hide Search;
  }

  lemma ClientOut(w: World, fd: int)
    requires Agree(w) && fd in w.peers && w.peers[fd].client.verified
    ensures var v := Step(w, fd, DoLogout); fd in v.peers && !v.peers[fd].client.verified
  {
    hide HandleAll, TableInv;
    assert PeerOk(w.server.users, fd, w.peers[fd]);
    var p := w.peers[fd];
    InboxClosed(Obey(p.client, DoLogout).0, fd, HandleAll(w.server, p.conn, fd, Obey(p.client, DoLogout).1).2);
  }

  /** So a user who registers, logs out and comes back needs the password typed at first. */
  lemma ComesBack(w: World, fd: int, name: string, password: string, p: string)
    requires Reachable(w) && CanSignOn(w, fd, name, password) && CanSignOn(w, fd, name, p)
    requires name !in Names(w.server.users) && |w.server.users| < 100
    ensures fd in Step(w, fd, DoRegister(name, password)).peers
    ensures var v := Step(Step(w, fd, DoRegister(name, password)), fd, DoLogout);
            fd in v.peers && (IsAs(Step(v, fd, DoLogin(name, p)), fd, name) <==> p == password)
  {
    hide Reachable, Run, Step, Sent, Names, OnlineAs;
    RegisterAnswered(w, fd, name, password);
    var w1 := Step(w, fd, DoRegister(name, password));
    ReachableNext(w, Act(fd, DoRegister(name, password)));
    LoggedOut(w1, fd, name);
    var v := Step(w1, fd, DoLogout);
    RunOfOne(w1, fd, DoLogout);
    OnlyThatPassword(w, fd, name, password, [Act(fd, DoLogout)], v, fd, p);
  }

  lemma RunOfOne(w: World, fd: int, cmd: Command)
    requires fd in w.peers && CommandOk(cmd)
    ensures Run(w, [Act(fd, cmd)], Step(w, fd, cmd))
  {
    assert [Act(fd, cmd)][1..] == [];
  }

  /** And so it is after a restart, when the file can be read back. */
  lemma OnlyThatPasswordAfterRestart(w: World, acts: seq<Act>, v: World, name: string, password: string, p: string)
    requires Restarts(w) && Run(w, acts, v) && Account(name, password) in Accounts(v.server.users)
    requires |w.server.users| <= |v.server.users|
    requires Kept(w.server.file, Accounts(v.server.users), |w.server.users|)
    ensures Load([], v.server.file).Loaded?
    ensures var t := Load([], v.server.file).users;
            if p == password then VerifyLogin(t, name, p) == SuccessLogin else VerifyLogin(t, name, p) == PasswordError
  {
    hide Load, Kept, Run, Restarts;
    var i :| 0 <= i < |Accounts(v.server.users)| && Accounts(v.server.users)[i] == Account(name, password);
    EveryoneReturns(w, acts, v, i);
  }
}
