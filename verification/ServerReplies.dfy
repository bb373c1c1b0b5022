// What the server says: in every run the table holds C strings that fit their buffers, and
// the replies of every handler fit the message format.
module ServerReplies {
  import opened Users
  import opened Sessions
  import opened Conference
  import opened ConferenceProof
  import opened ConferenceSteps
  import opened Messages
  import opened WireFormat

  // ----- what the server says -----

  /** Names and sessions of the table are C strings that fit their buffers. */
  predicate CleanTable(t: Table) {
    forall i :: 0 <= i < |t| ==>
      Plain(t[i].name) && |t[i].name| < MAX_NAME && Plain(t[i].session) && |t[i].session| < MAX_SESSION_LENGTH
  }

  /** Requests as the server reads them. */
  predicate Proper(q: Request) {
    GoodSource(q.source)
    && (q.kind == JOIN || q.kind == NEW_SESS ==> Plain(q.data) && |q.data| < MAX_SESSION_LENGTH)
  }

  /** A request whose reply fits the message format. */
  predicate Answerable(t: Table, q: Request) {
    q.kind < CText.TWO_32 && Plain(q.data) && |q.data| < MAX_DATA
    && (q.kind == QUERY ==> |OnlineList(t)| < MAX_DATA)
    && (q.kind == SESS_QUERY ==> |SessionList(t, q.data)| < MAX_DATA)
  }

  predicate Signed(out: seq<Reply>) { forall i :: 0 <= i < |out| ==> GoodSource(out[i].source) }

  predicate AllClear(out: seq<Reply>) { forall i :: 0 <= i < |out| ==> Clear(out[i]) }

  lemma {:induction false} NoticesClear(t: Table)
    ensures AllClear(AdminNotices(t)) && Signed(AdminNotices(t))
  {
    if t != [] { NoticesClear(t[..|t| - 1]); }
  }

  lemma PaddedPlain(s: string, width: nat)
    requires Plain(s)
    ensures Plain(Padded(s, width))
  {
  }

  lemma LinePlain(name: string, session: string, role: Role)
    requires Plain(name) && Plain(session)
    ensures Plain(ListLine(name, session, RoleText(role))) && Plain(PairLine(name, session))
  {
    hide Padded;
    PaddedPlain(name, MAX_NAME);
    PaddedPlain(session, MAX_SESSION_COUNT);
    PaddedPlain("ADMIN", 6);
    PaddedPlain("USER", 6);
  }

  lemma {:induction false} LinesPlain(t: Table, session: string)
    requires CleanTable(t)
    ensures Plain(ListLines(t, session)) && Plain(OnlineLines(t))
  {
    hide ListLine, PairLine;
    if t != [] {
      var n := |t| - 1;
      assert forall i :: 0 <= i < n ==> t[..n][i] == t[i];
      LinesPlain(t[..n], session);
      LinePlain(t[n].name, t[n].session, t[n].role);
    }
  }

  lemma HeadingsPlain()
    ensures Plain(LIST_TITLE + ListLine("Username", "Session ID", "Role"))
    ensures Plain(LIST_TITLE + PairLine("Username", "Session ID"))
  {
    hide Padded;
    PaddedPlain("Username", MAX_NAME);
    PaddedPlain("Session ID", MAX_SESSION_COUNT);
    PaddedPlain("Role", 6);
  }

  lemma ListsPlain(t: Table, session: string)
    requires CleanTable(t)
    ensures Plain(SessionList(t, session)) && Plain(OnlineList(t))
  {
    hide ListLine, PairLine;
    HeadingsPlain();
    LinesPlain(t, session);
  }

  predicate PlainText(s: string) { Plain(s) && |s| < MAX_DATA }

  lemma RefusalsPlain()
    ensures PlainText(USER_DOES_NOT_EXIST) && PlainText(USER_NOT_ONLINE) && PlainText(USER_NOT_IN_SESSION)
    ensures PlainText("")
  {
  }

  lemma MoreRefusalsPlain()
    ensures PlainText(USER_IN_DIFFERENT_SESSION) && PlainText(TARGET_IS_ADMIN)
  {
  }

  lemma SumPlain(a: string, b: string)
    requires Plain(a) && Plain(b)
    ensures Plain(a + b)
  {
  }

  lemma SessionTextsPlain()
    ensures PlainText(SESSION_NAME_INVALID) && PlainText(SESSION_EXISTS)
    ensures PlainText(NOT_IN_SESSION) && |NOT_IN_SESSION| < MAX_SESSION_LENGTH
    ensures GoodSource("server") && GoodSource("")
  {
  }

  lemma FullPlain()
    ensures PlainText(SESSION_AT_FULL_CAPACITY)
  {
  }

  lemma LeaveFirstPlain()
    ensures PlainText(USER_NAME_IN_SESSION)
  {
    SumPlain("Please leave the session ", "before joining/creating another one!.");
  }

  lemma ElsewherePlain()
    ensures PlainText(LOGGED_IN_ELSEWHERE + LOG_OUT_FIRST)
  {
    LogOutFirstPlain();
    SumPlain(LOGGED_IN_ELSEWHERE, LOG_OUT_FIRST);
  }

  lemma LogOutFirstPlain()
    ensures Plain(LOG_OUT_FIRST) && |LOG_OUT_FIRST| < 100
  {
    SumPlain("Please log out of the other session ", "before proceeding.");
  }

  lemma UsernameErrorPlain()
    ensures PlainText(LoginMessage(UsernameError))
  {
    SumPlain("Your username does not ", "appear to be valid.");
  }

  lemma LoginTextPlain(c: LoginCode)
    ensures PlainText(LoginMessage(c))
  {
    match c
    case UsernameError => UsernameErrorPlain();
    case AlreadyLogin => ElsewherePlain();
    case _ =>
  }

  lemma RegistrationTextPlain(r: RegistrationCode)
    ensures PlainText(RegistrationMessage(r))
  {
  }

  lemma OneClear(r: Reply)
    requires GoodSource(r.source) && PlainText(r.data) && r.kind < CText.TWO_32
    ensures AllClear([r]) && Signed([r])
  {
  }

  lemma BothClear(a: Reply, b: Reply)
    requires AllClear([a]) && AllClear([b])
    ensures AllClear([a, b]) && Signed([a, b])
  {
    assert [a][0] == a && [b][0] == b;
  }

  lemma ClearIsSigned(out: seq<Reply>)
    requires AllClear(out)
    ensures Signed(out)
  {
  }

  lemma RewrittenClean(t: Table, k: nat, u: User)
    requires CleanTable(t) && k < |t| && u.name == t[k].name
    requires Plain(u.session) && |u.session| < MAX_SESSION_LENGTH
    ensures CleanTable(t[k := u])
  {
  }

  lemma RecordClean(t: Table, k: nat)
    requires CleanTable(t) && k < |t|
    ensures PlainText(t[k].name) && PlainText(t[k].session)
    ensures Plain(t[k].session) && |t[k].session| < MAX_SESSION_LENGTH
  {
  }

  lemma ExitClean(t: Table, k: nat)
    requires CleanTable(t) && k < |t|
    ensures CleanTable(ExitSession(t, k)) && CleanTable(SignedOff(t, k))
  {
    hide Plain, Count;
    SessionTextsPlain();
    RecordClean(t, k);
    RewrittenClean(t, k, Outside(t[k]));
    RewrittenClean(t, k, t[k].(online := false, fd := 0));
    AllAdminsClean(t[k := Outside(t[k])], t[k].session);
  }

  lemma AllAdminsClean(t: Table, session: string)
    requires CleanTable(t)
    ensures CleanTable(AllAdmins(t, session))
  {
  }

  lemma LeaveSpeaks(s: Server, name: string)
    requires CleanTable(s.users)
    ensures CleanTable(Leave(s, name).0.users) && AllClear(Leave(s, name).1)
  {
    hide Search, ExitSession, CleanTable, Clear;
    NoticesClear(s.users);
    if Known(s, name) {
      var k := Search(s.users, name);
      ExitClean(s.users, k);
      NoticesClear(ExitSession(s.users, k));
    }
  }

  lemma UserExitSpeaks(s: Server, name: string)
    requires CleanTable(s.users)
    ensures CleanTable(UserExit(s, name).0.users) && AllClear(UserExit(s, name).1)
  {
    hide Search, Leave, SignedOff, CleanTable, Clear;
    LeaveSpeaks(s, name);
    if Known(s, name) {
      SignedOffClean(s.users, Search(s.users, name));
      SignedOffClean(Leave(s, name).0.users, Search(s.users, name));
    }
  }

  lemma SignedOffClean(t: Table, k: nat)
    requires CleanTable(t)
    ensures CleanTable(SignedOff(t, k))
  {
    hide CleanTable;
    if k < |t| { ExitClean(t, k); }
  }

  lemma CreateSpeaks(s: Server, name: string, session: string)
    requires CleanTable(s.users) && GoodSource(name) && Plain(session) && |session| < MAX_SESSION_LENGTH
    ensures CleanTable(Create(s, name, session).0.users) && AllClear(Create(s, name, session).1)
  {
    hide Search, Count, GoodSource, Plain, CleanTable, AllClear;
    SessionTextsPlain();
    NothingClear();
    if Known(s, name) {
      var k, u := Search(s.users, name), Find(s, name);
      RewrittenClean(s.users, k, u.(session := session, inSession := true, role := Admin));
      OneClear(Reply(u.fd, NS_ACK, name, session));
      OneClear(Reply(u.fd, NEW_SESS, name, SESSION_EXISTS));
    }
  }

  lemma NothingClear()
    ensures AllClear([])
  {
  }

  lemma JoinSpeaks(s: Server, name: string, session: string)
    requires CleanTable(s.users) && GoodSource(name) && Plain(session) && |session| < MAX_SESSION_LENGTH
    ensures CleanTable(Sessions.Join(s, name, session).0.users) && AllClear(Sessions.Join(s, name, session).1)
  {
    hide Search, Count, GoodSource, Plain, CleanTable, AllClear;
    SessionTextsPlain();
    LeaveFirstPlain();
    FullPlain();
    NothingClear();
    if Known(s, name) {
      var k, u := Search(s.users, name), Find(s, name);
      RewrittenClean(s.users, k, u.(session := session, inSession := true));
      OneClear(Reply(u.fd, JN_ACK, name, session));
      OneClear(Reply(u.fd, JN_NAK, name, USER_NAME_IN_SESSION));
      OneClear(Reply(u.fd, JN_NAK, name, SESSION_NAME_INVALID));
      OneClear(Reply(u.fd, JN_NAK, name, SESSION_AT_FULL_CAPACITY));
    }
  }

  lemma RefusalPlain(s: Server, name: string, target: string)
    requires Known(s, name)
    ensures PlainText(Refusal(s, name, target))
  {
    hide PlainText;
    RefusalsPlain();
    MoreRefusalsPlain();
  }

  lemma KickSpeaks(s: Server, name: string, target: string)
    requires CleanTable(s.users) && GoodSource(name)
    ensures CleanTable(Kick(s, name, target).0.users) && AllClear(Kick(s, name, target).1)
  {
    hide Search, GoodSource, Plain, PlainText, CleanTable, AllClear;
    SessionTextsPlain();
    NothingClear();
    if Known(s, name) {
      RefusalPlain(s, name, target);
      var me, why := Find(s, name), Refusal(s, name, target);
      RecordClean(s.users, Search(s.users, name));
      OneClear(Reply(me.fd, KI_NAK, name, why));
      if why == "" {
        var k, u := Search(s.users, target), Find(s, target);
        RecordClean(s.users, k);
        RewrittenClean(s.users, k, u.(inSession := false, session := NOT_IN_SESSION));
        var r1 := Reply(u.fd, KI_MESSAGE, "server", if target == name then NOT_IN_SESSION else me.session);
        var r2 := Reply(me.fd, KI_ACK, name, u.name);
        OneClear(r1);
        OneClear(r2);
        BothClear(r1, r2);
      }
    }
  }

  lemma PromoteSpeaks(s: Server, name: string, target: string)
    requires CleanTable(s.users) && GoodSource(name)
    ensures CleanTable(Promote(s, name, target).0.users) && AllClear(Promote(s, name, target).1)
  {
    hide Search, GoodSource, Plain, PlainText, CleanTable, AllClear;
    SessionTextsPlain();
    RefusalsPlain();
    NothingClear();
    if Known(s, name) {
      RefusalPlain(s, name, target);
      var me, why := Find(s, name), Refusal(s, name, target);
      OneClear(Reply(me.fd, PM_NAK, name, why));
      if why == "" {
        var j, k := Search(s.users, name), Search(s.users, target);
        var u := s.users[k];
        RecordClean(s.users, k);
        RecordClean(s.users, j);
        RewrittenClean(s.users, k, u.(role := Admin));
        var t1 := s.users[k := u.(role := Admin)];
        RecordClean(t1, j);
        RewrittenClean(t1, j, t1[j].(role := Ordinary));
        var r1, r2 := Reply(u.fd, PM_MESSAGE, "server", ""), Reply(me.fd, PM_ACK, name, u.name);
        OneClear(r1);
        OneClear(r2);
        BothClear(r1, r2);
      }
    }
  }

  lemma LoginSpeaks(s: Server, name: string, password: string, fd: int)
    requires CleanTable(s.users) && GoodSource(name)
    ensures CleanTable(Login(s, name, password, fd).0.users) && AllClear(Login(s, name, password, fd).1)
  {
    hide Search, GoodSource, Plain, PlainText, CleanTable, AllClear, LoginMessage;
    RefusalsPlain();
    LoginTextPlain(VerifyLogin(s.users, name, password));
    OneClear(Reply(fd, LO_ACK, name, ""));
    OneClear(Reply(fd, LO_NAK, name, LoginMessage(VerifyLogin(s.users, name, password))));
    if Known(s, name) {
      var k := Search(s.users, name);
      RecordClean(s.users, k);
      RewrittenClean(s.users, k, s.users[k].(online := true, fd := fd));
    }
  }

  lemma RegisterSpeaks(s: Server, name: string, password: string, fd: int)
    requires CleanTable(s.users) && GoodSource(name)
    ensures CleanTable(Register(s, name, password, fd).0.users) && AllClear(Register(s, name, password, fd).1)
  {
    hide Search, PlainText, AllClear, RegistrationMessage, FileLine;
    RefusalsPlain();
    SessionTextsPlain();
    RegistrationTextPlain(AddCode(s.users, name));
    OneClear(Reply(fd, RG_ACK, name, ""));
    OneClear(Reply(fd, RG_NAK, name, RegistrationMessage(AddCode(s.users, name))));
  }

  lemma BroadcastSpeaks(t: Table, q: Request, session: string)
    requires GoodSource(q.source)
    ensures Signed(Broadcast(t, q, session))
    ensures PlainText(q.data) ==> AllClear(Broadcast(t, q, session))
  {
    hide Recipients, GoodSource;
  }

  /** What a handler does keeps the table clean, and every reply can be sent. */
  lemma HandleSpeaks(s: Server, conn: Conn, fd: int, q: Request)
    requires CleanTable(s.users) && GoodSource(conn.source) && Proper(q)
    ensures var (s', conn', out) := Handle(s, conn, fd, q);
            CleanTable(s'.users) && GoodSource(conn'.source) && Signed(out)
            && (Answerable(s.users, q) ==> AllClear(out))
  {
    hide Search, Login, Register, Create, Sessions.Join, Leave, Kick, Promote, UserExit, SessionList, OnlineList,
      CleanTable, GoodSource, Broadcast, AllClear, Signed, Plain, Count;
    HandlersSpeak(s, conn.source, fd, q);
    if Known(s, q.source) { BroadcastSpeaks(s.users, q, Find(s, q.source).session); }
    OthersSpeak(s, fd, q);
    SessionTextsPlain();
  }

  lemma HandlersSpeak(s: Server, name: string, fd: int, q: Request)
    requires CleanTable(s.users) && GoodSource(name) && Proper(q)
    ensures CleanTable(Login(s, q.source, q.data, fd).0.users) && Spoken(Login(s, q.source, q.data, fd).1)
    ensures CleanTable(Register(s, q.source, q.data, fd).0.users) && Spoken(Register(s, q.source, q.data, fd).1)
    ensures CleanTable(Leave(s, name).0.users) && Spoken(Leave(s, name).1)
    ensures CleanTable(UserExit(s, name).0.users) && Spoken(UserExit(s, name).1)
    ensures CleanTable(Kick(s, name, q.data).0.users) && Spoken(Kick(s, name, q.data).1)
    ensures CleanTable(Promote(s, name, q.data).0.users) && Spoken(Promote(s, name, q.data).1)
    ensures q.kind == NEW_SESS ==>
              CleanTable(Create(s, name, q.data).0.users) && Spoken(Create(s, name, q.data).1)
    ensures q.kind == JOIN ==>
              CleanTable(Sessions.Join(s, name, q.data).0.users) && Spoken(Sessions.Join(s, name, q.data).1)
  {
    hide Search, Login, Register, Create, Sessions.Join, Leave, Kick, Promote, UserExit, CleanTable, GoodSource,
      AllClear, Signed, Plain;
    LoginSpeaks(s, q.source, q.data, fd);
    RegisterSpeaks(s, q.source, q.data, fd);
    LeaveSpeaks(s, name);
    UserExitSpeaks(s, name);
    KickSpeaks(s, name, q.data);
    PromoteSpeaks(s, name, q.data);
    ClearIsSigned(Login(s, q.source, q.data, fd).1);
    ClearIsSigned(Register(s, q.source, q.data, fd).1);
    ClearIsSigned(Leave(s, name).1);
    ClearIsSigned(UserExit(s, name).1);
    ClearIsSigned(Kick(s, name, q.data).1);
    ClearIsSigned(Promote(s, name, q.data).1);
    if q.kind == NEW_SESS {
      CreateSpeaks(s, name, q.data);
      ClearIsSigned(Create(s, name, q.data).1);
    } else if q.kind == JOIN {
      JoinSpeaks(s, name, q.data);
      ClearIsSigned(Sessions.Join(s, name, q.data).1);
    }
  }

  predicate Spoken(out: seq<Reply>) { AllClear(out) && Signed(out) }

  /** The lists, and what is sent back as it came. */
  lemma OthersSpeak(s: Server, fd: int, q: Request)
    requires CleanTable(s.users) && GoodSource(q.source)
    ensures Signed([]) && AllClear([])
    ensures Signed([Reply(fd, q.kind, q.source, q.data)])
    ensures Answerable(s.users, q) ==> AllClear([Reply(fd, q.kind, q.source, q.data)])
    ensures Signed([Reply(fd, QU_ACK, q.source, OnlineList(s.users))])
    ensures Answerable(s.users, q) && q.kind == QUERY ==> AllClear([Reply(fd, QU_ACK, q.source, OnlineList(s.users))])
    ensures Signed(SessionQuery(s, q.source, q.data, fd))
    ensures Answerable(s.users, q) && q.kind == SESS_QUERY ==> AllClear(SessionQuery(s, q.source, q.data, fd))
  {
    hide OnlineList, SessionList, Count, GoodSource;
    ListsPlain(s.users, q.data);
    SessionTextsPlain();
  }

  lemma {:induction false} HandleAllSpeaks(s: Server, conn: Conn, fd: int, qs: seq<Request>)
    requires CleanTable(s.users) && GoodSource(conn.source) && forall i :: 0 <= i < |qs| ==> Proper(qs[i])
    ensures var (s', conn', out) := HandleAll(s, conn, fd, qs);
            CleanTable(s'.users) && GoodSource(conn'.source) && Signed(out)
            && ((forall i :: 0 <= i < |qs| ==> Answerable(s.users, qs[i]) && (i > 0 ==> qs[i].kind == EXIT))
                ==> AllClear(out))
    decreases |qs|
  {
    hide Handle, CleanTable, GoodSource, Proper, Clear;
    if qs != [] {
      HandleSpeaks(s, conn, fd, qs[0]);
      var (s1, conn1, out1) := Handle(s, conn, fd, qs[0]);
      assert forall i :: 0 <= i < |qs[1..]| ==> qs[1..][i] == qs[i + 1];
      HandleAllSpeaks(s1, conn1, fd, qs[1..]);
    }
  }

  // ----- what every run keeps -----

  ghost predicate CleanWorld(w: World) {
    CleanTable(w.server.users)
    && forall x :: x in w.peers ==> GoodSource(w.peers[x].conn.source) && GoodName(w.peers[x].client)
  }

  predicate GoodName(c: Client) { c.verified ==> GoodSource(c.name) }

  lemma ObeyAsksWell(c: Client, cmd: Conference.Command)
    requires CommandOk(cmd) && GoodName(c) && (c.connected ==> c.verified)
    ensures GoodName(Obey(c, cmd).0)
    ensures forall i :: 0 <= i < |Obey(c, cmd).1| ==> Proper(Obey(c, cmd).1[i])
  {
  }

  lemma {:induction false} InboxKeepsName(c: Client, x: int, out: seq<Reply>)
    requires GoodName(c) && Signed(out)
    ensures GoodName(Inbox(c, x, out))
  {
    if out != [] { InboxKeepsName(c, x, out[..|out| - 1]); }
  }

  lemma StepKeepsClean(w: World, fd: int, cmd: Conference.Command)
    requires Agree(w) && CleanWorld(w) && fd in w.peers && CommandOk(cmd)
    ensures CleanWorld(Step(w, fd, cmd))
  {
    hide Agree, Obey, HandleAll, UserExit, GoodName, Signed, CommandOk, Delivered, Inbox, GoodSource, CleanTable,
      AllClear;
    var p := w.peers[fd];
    PeerAt(w, fd);
    var c, conn, out;
    if cmd.Crash? {
      c, conn, out := FreshClient(), Conn(false, ""), Disconnect(w.server, p.conn).1;
      CrashSpeaks(w.server, p.conn);
    } else {
      ObeyAsksWell(p.client, cmd);
      HandleAllSpeaks(w.server, p.conn, fd, Obey(p.client, cmd).1);
      c := Obey(p.client, cmd).0;
      conn := HandleAll(w.server, p.conn, fd, Obey(p.client, cmd).1).1;
      out := HandleAll(w.server, p.conn, fd, Obey(p.client, cmd).1).2;
    }
    var v := Step(w, fd, cmd);
    assert v.peers == Delivered(w.peers, fd, c, conn, out);
    DeliveredAt(w, fd, c, conn, out, fd);
    forall x | x in v.peers ensures GoodSource(v.peers[x].conn.source) && GoodName(v.peers[x].client) {
      DeliveredAt(w, fd, c, conn, out, x);
      InboxKeepsName(if x == fd then c else w.peers[x].client, x, out);
    }
  }

  lemma CrashSpeaks(s: Server, conn: Conn)
    requires CleanTable(s.users)
    ensures var (s', out) := Disconnect(s, conn); CleanTable(s'.users) && Signed(out) && AllClear(out)
    ensures GoodName(FreshClient()) && GoodSource("")
  {
    hide UserExit, CleanTable, AllClear;
    UserExitSpeaks(s, conn.source);
    ClearIsSigned(UserExit(s, conn.source).1);
    NothingClear();
  }

  lemma {:induction false} RunKeepsClean(w: World, acts: seq<Act>, v: World)
    requires Agree(w) && CleanWorld(w) && Run(w, acts, v)
    ensures CleanWorld(v)
    decreases |acts|
  {
    hide Agree, CleanWorld, CommandOk, Step;
    if acts != [] {
      StepAgrees(w, acts[0].fd, acts[0].cmd);
      StepKeepsClean(w, acts[0].fd, acts[0].cmd);
      RunKeepsClean(Step(w, acts[0].fd, acts[0].cmd), acts[1..], v);
    }
  }

  lemma StartIsClean(w: World)
    requires Start(w)
    ensures CleanWorld(w)
  {
  }

  lemma AlwaysClean(v: World)
    requires Reachable(v)
    ensures CleanWorld(v)
  {
    hide Run, Agree, CleanWorld, Start;
    var w, acts :| Start(w) && Run(w, acts, v);
    StartAgrees(w);
    StartIsClean(w);
    RunKeepsClean(w, acts, v);
  }
}
