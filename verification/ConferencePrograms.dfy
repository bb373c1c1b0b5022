// client/client.c and connection_handler of server/server.c as they are written: the flags
// of a client process and the locals of a server thread, changed command by command.
module ConferencePrograms {
  import opened Users
  import opened Sessions
  import opened Conference
  import opened ClientLines
  import opened ConferenceServer
  import opened SessionProof
  import opened ConferenceProof
  import opened ConferenceSteps

  class ClientProcess {
    var name: string
    var connected: bool      // server_connection_status
    var verified: bool       // verified_access
    var session: bool        // session_status
    var role: Role

    constructor ()
      ensures View() == FreshClient()
    {
      name, connected, verified, session, role := "", false, false, false, Ordinary;
    }

    ghost function View(): Client
      reads this
    {
      Client(name, connected, verified, session, role)
    }

    /** leave_session. */
    method Leave() returns (sent: seq<Request>)
      modifies this`session, this`role
      ensures View() == if old(session) then LeaveSession(old(View())) else old(View())
      ensures sent == if old(session) then [Request(LEAVE_SESS, name, "")] else []
    {
      sent := [];
      if !session { return; }
      session := false;
      role := Ordinary;
      sent := [Request(LEAVE_SESS, name, "")];
    }

    /** logout. */
    method Logout() returns (sent: seq<Request>)
      requires connected
      modifies this
      ensures (View(), sent) == Obey(old(View()), DoLogout)
    {
      sent := [];
      if session {
        sent := Leave();
      }
      verified := false;
      connected := false;
      sent := sent + [Request(EXIT, name, "")];
    }

    /** login and user_registration once the connection is made. */
    method Connect(kind: nat, user: string, password: string) returns (sent: seq<Request>)
      modifies this`connected
      ensures sent == if Fits(user, MAX_NAME) && Fits(password, MAX_PASSWORD_LENGTH)
                      then [Request(kind, user, password)] else []
      ensures connected == (old(connected) || sent != [])
    {
      sent := [];
      if |user| >= MAX_NAME { return; }
      if |password| >= MAX_PASSWORD_LENGTH { return; }
      connected := true;
      sent := [Request(kind, user, password)];
    }

    /** join_session and create_session. */
    method Enter(kind: nat, sessionId: string) returns (sent: seq<Request>)
      ensures sent == if session then [] else [Request(kind, name, sessionId)]
    {
      sent := [];
      if session { return; }
      sent := [Request(kind, name, sessionId)];
    }

    /** One round of the command loop of main, for a command whose words were counted. */
    method Execute(cmd: Command) returns (sent: seq<Request>)
      requires !cmd.Crash?
      modifies this
      ensures (View(), sent) == Obey(old(View()), cmd)
    {
      sent := [];
      if cmd.DoLogin? {
        if verified { return; }
        sent := Connect(LOGIN, cmd.name, cmd.password);
        return;
      }
      if cmd.DoRegister? {
        if verified { return; }
        sent := Connect(CREATE, cmd.name, cmd.password);
        return;
      }
      if !connected { return; }
      if cmd.DoSay? {
        if session { sent := [Request(MESSAGE, name, cmd.text)]; }
      } else if cmd.DoLogout? {
        sent := Logout();
      } else if cmd.DoList? {
        sent := [Request(QUERY, name, "")];
      } else if cmd.DoUserList? {
        if cmd.session != NOT_IN_SESSION { sent := [Request(SESS_QUERY, name, cmd.session)]; }
      } else if cmd.DoJoin? {
        if |cmd.session| < MAX_SESSION_LENGTH { sent := Enter(JOIN, cmd.session); }
      } else if cmd.DoCreate? {
        if |cmd.session| < MAX_SESSION_LENGTH { sent := Enter(NEW_SESS, cmd.session); }
      } else if cmd.DoLeave? {
        sent := Leave();
      } else {
        if !session { return; }
        if role == Ordinary { return; }
        if |cmd.target| >= MAX_NAME || name == cmd.target { return; }
        sent := [Request(if cmd.DoPromote? then PROMOTE else KICK, name, cmd.target)];
      }
    }

    /** One round of the loop of main for a line that getline returned. */
    method TypeLine(line: string) returns (sent: seq<Request>)
      requires line != ""
      modifies this
      ensures (View(), sent) == if Meant(line).None? then (old(View()), []) else Obey(old(View()), Meant(line).value)
    {
      hide Obey, Named, Cuts;
      sent := [];
      if line[0] == '\n' { return; }
      var input, index := SplitLine(line);
      var cmd := Named(input, index, line);
      if cmd.None? { return; }
      NobodyTypesCrash(line);
      sent := Execute(cmd.value);
    }

    /** The chain of tests in server_message_handler. */
    method OnServerMessage(r: Reply)
      modifies this
      ensures View() == OnMessage(old(View()), r)
    {
      if r.kind == MESSAGE { return; }
      if r.kind == LO_ACK {
        name := r.source;
        verified := true;
      }
      if r.kind == LO_NAK {
        verified := false;
        connected := false;
        return;
      }
      if r.kind == JN_ACK {
        role := Ordinary;
        session := true;
      }
      if r.kind == JN_NAK {
        role := Ordinary;
        session := false;
      }
      if r.kind == NS_ACK {
        role := Admin;
        session := true;
      }
      if r.kind == RG_ACK {
        name := r.source;
        verified := true;
      }
      if r.kind == RG_NAK {
        verified := false;
        connected := false;
        return;
      }
      if r.kind == PM_MESSAGE { role := Admin; }
      if r.kind == PM_ACK { role := Ordinary; }
      if r.kind == KI_MESSAGE { session := false; }
    }
  }

  /** The thread that serves one connection; the socket is `fd`. */
  class ConnectionHandler {
    const users: UserList
    const fd: int
    var online: bool         // server_connection_status
    var source: string

    constructor (list: UserList, socket: int)
      ensures users == list && fd == socket && State() == Conn(false, "")
    {
      users, fd, online, source := list, socket, false, "";
    }

    ghost function State(): Conn
      reads this
    {
      Conn(online, source)
    }

    /** One message of the receive loop. The handlers use the thread's user without looking
        whether there is one; callers must make sure that there is. */
    method HandleRequest(q: Request) returns (out: seq<Reply>)
      requires users.Valid() && users.Free()
      requires NeedsUser(q) ==> Known(users.View(), Needed(q, State()))
      modifies this`online, this`source, users, users.slots
      ensures users.Valid()
      ensures (users.View(), State(), out) == Handle(old(users.View()), old(State()), fd, q)
    {
      hide Login, Register, Create, Join, Leave, Kick, Promote, UserExit, SessionList, OnlineList, Search, Recipients;
      out := [];
      if q.kind == LOGIN {
        var code := users.Verify(q.source, q.data);
        out := users.LogIn(q.source, q.data, fd);
        if code == SuccessLogin { online, source := true, q.source; }
      } else if q.kind == CREATE {
        var code;
        code, out := users.RegisterUser(q.source, q.data, fd);
        if code == AddUserSuccess { online, source := true, q.source; }
      } else if q.kind == EXIT {
        out := users.ExitUser(source);
        online, source := false, "";
      } else if q.kind == JOIN {
        out := users.SessionJoin(source, q.data);
      } else if q.kind == NEW_SESS {
        out := users.SessionCreate(source, q.data);
      } else if q.kind == LEAVE_SESS {
        out := users.SessionLeave(source);
      } else if q.kind == QUERY {
        var list := users.GetOnlineList();
        out := [Reply(fd, QU_ACK, q.source, list)];
      } else if q.kind == SESS_QUERY {
        var found, list := users.GetActiveUserList(q.data);
        out := if found then [Reply(fd, SQ_ACK, q.source, list)]
               else [Reply(fd, SQ_NAK, q.source, SESSION_NAME_INVALID)];
      } else if q.kind == MESSAGE {
        var k := users.DatabaseSearchUser(q.source);
        var to := users.SendMessageInASession(users.slots[k].session);
        out := seq(|to|, i requires 0 <= i < |to| => Reply(to[i], MESSAGE, q.source, q.data));
      } else if q.kind == KICK {
        out := users.KickUser(source, q.data);
      } else if q.kind == PROMOTE {
        out := users.PromoteUser(source, q.data);
      } else {
        out := [Reply(fd, q.kind, q.source, q.data)];
      }
    }
  }

  /** The requests whose handlers follow a pointer that the search may have left NULL. */
  predicate NeedsUser(q: Request) {
    q.kind == EXIT || q.kind == JOIN || q.kind == NEW_SESS || q.kind == LEAVE_SESS
    || q.kind == MESSAGE || q.kind == KICK || q.kind == PROMOTE
  }

  /** The user they look for. */
  function Needed(q: Request, conn: Conn): string { if q.kind == MESSAGE then q.source else conn.source }

  // ----- a client and its thread together -----

  /** The state in which the server handles request number i of a command. */
  function Before(w: World, fd: int, qs: seq<Request>, i: nat): (Server, Conn)
    requires fd in w.peers && i <= |qs|
  {
    var (s, conn, out) := HandleAll(w.server, w.peers[fd].conn, fd, qs[..i]);
    (s, conn)
  }

  lemma BeforeFirst(w: World, fd: int, qs: seq<Request>)
    requires fd in w.peers
    ensures Before(w, fd, qs, 0) == (w.server, w.peers[fd].conn)
  {
  }

  /** In every reachable state, each request that a command sends finds the mutexes free
      and, if its handler follows a pointer to a user, finds that user: what HandleRequest
      requires always holds, whatever clients do. */
  lemma RequestsServed(w: World, fd: int, cmd: Command, i: nat)
    requires Reachable(w) && fd in w.peers && CommandOk(cmd) && i < |Obey(w.peers[fd].client, cmd).1|
    ensures var qs := Obey(w.peers[fd].client, cmd).1;
            var (s, conn) := Before(w, fd, qs, i);
            ServerOk(s) && (NeedsUser(qs[i]) ==> Known(s, Needed(qs[i], conn)))
  {
    hide Agree, Search, Reachable, HandleAll;
    AlwaysAgree(w);
    AgreeTable(w);
    PeerAt(w, fd);
    var c, qs := w.peers[fd].client, Obey(w.peers[fd].client, cmd).1;
    BeforeFirst(w, fd, qs);
    var k := Search(w.server.users, c.name);
    if c.verified { OwnRecord(w, fd, k); }
    if i == 1 {
      AfterLeave(w, fd, k);
      BeforeExit(w, fd, k, qs);
    }
  }

  lemma BeforeExit(w: World, fd: int, k: nat, qs: seq<Request>)
    requires Agree(w) && LoggedIn(w, fd, k) && w.peers[fd].client.session && |qs| == 2
    requires qs[0] == Request(LEAVE_SESS, w.peers[fd].client.name, "")
    ensures var (s, conn) := Before(w, fd, qs, 1);
            ServerOk(s) && conn == w.peers[fd].conn && Known(s, conn.source)
  {
    hide Agree, Search, HandleAll, Handle, ExitSession;
    var conn := w.peers[fd].conn;
    OwnRecord(w, fd, k);
    AgreeTable(w);
    LeaveHandled(w, fd, k);
    assert qs[..1] == [qs[0]];
    HandleOne(w.server, conn, fd, qs[0]);
    SaneAt(w.server.users, k);
    SameNames(w.server.users, k, conn.source);
    ExitedRecord(w.server.users, k);
  }

  lemma HandleOne(s: Server, conn: Conn, fd: int, q: Request)
    ensures HandleAll(s, conn, fd, [q]) == Handle(s, conn, fd, q)
  {
    hide Handle;
    var (s1, conn1, out) := Handle(s, conn, fd, q);
    assert [q][1..] == [];
    assert HandleAll(s1, conn1, fd, [q][1..]) == (s1, conn1, []);
    assert out + [] == out;
  }

  lemma {:induction false} HandleOneMore(s: Server, conn: Conn, fd: int, qs: seq<Request>, q: Request)
    ensures var (s1, conn1, out1) := HandleAll(s, conn, fd, qs);
            var (s2, conn2, out2) := Handle(s1, conn1, fd, q);
            HandleAll(s, conn, fd, qs + [q]) == (s2, conn2, out1 + out2)
    decreases |qs|
  {
    hide Handle;
    if qs == [] {
      assert qs + [q] == [q];
      HandleOne(s, conn, fd, q);
      var (s2, conn2, out2) := Handle(s, conn, fd, q);
      assert [] + out2 == out2;
    } else {
      var (s0, conn0, out0) := Handle(s, conn, fd, qs[0]);
      assert (qs + [q])[1..] == qs[1..] + [q] && (qs + [q])[0] == qs[0];
      HandleOneMore(s0, conn0, fd, qs[1..], q);
      var (s1, conn1, out1) := HandleAll(s0, conn0, fd, qs[1..]);
      var (s2, conn2, out2) := Handle(s1, conn1, fd, q);
      assert out0 + (out1 + out2) == (out0 + out1) + out2;
    }
  }

  /** A line is typed in a reachable state, and the server handles what the client sends:
      the two programs together do one step of the product machine, up to the delivery of
      the replies. */
  method RunLine(client: ClientProcess, handler: ConnectionHandler, line: string, ghost w: World)
    returns (out: seq<Reply>)
    requires Reachable(w) && handler.fd in w.peers && line != ""
    requires Meant(line).Some? ==> CommandOk(Meant(line).value)
    requires handler.users.Valid() && handler.users.View() == w.server
    requires w.peers[handler.fd] == Peer(client.View(), handler.State())
    modifies client, handler`online, handler`source, handler.users, handler.users.slots
    ensures handler.users.Valid()
    ensures Meant(line).None? ==>
              handler.users.View() == w.server && out == []
              && w.peers[handler.fd] == Peer(client.View(), handler.State())
    ensures Meant(line).Some? ==>
              Step(w, handler.fd, Meant(line).value)
              == World(handler.users.View(),
                       Delivered(w.peers, handler.fd, client.View(), handler.State(), out))
  {
    hide Handle, HandleAll, Obey, Reachable, Meant, CommandOk, Delivered, Search, NeedsUser;
    NobodyTypesCrash(line);
    var sent := client.TypeLine(line);
    out := [];
    if Meant(line).Some? {
      out := HandleSent(handler, Meant(line).value, sent, w);
    }
  }

  /** The requests of one command, one after the other. */
  method HandleSent(handler: ConnectionHandler, cmd: Command, sent: seq<Request>, ghost w: World)
    returns (out: seq<Reply>)
    requires Reachable(w) && handler.fd in w.peers && CommandOk(cmd)
    requires handler.users.Valid() && handler.users.View() == w.server
    requires w.peers[handler.fd].conn == handler.State() && sent == Obey(w.peers[handler.fd].client, cmd).1
    modifies handler`online, handler`source, handler.users, handler.users.slots
    ensures handler.users.Valid()
    ensures (handler.users.View(), handler.State(), out)
         == HandleAll(w.server, w.peers[handler.fd].conn, handler.fd, sent)
  {
    hide Handle, HandleAll, Obey, Reachable, CommandOk, Search, NeedsUser;
    out := [];
    var i := 0;
    ghost var conn := w.peers[handler.fd].conn;
    BeforeFirst(w, handler.fd, sent);
    HandleNone(w.server, conn, handler.fd, sent[..0]);
    while i < |sent|
      invariant i <= |sent| && handler.users.Valid()
      invariant (handler.users.View(), handler.State(), out) == HandleAll(w.server, conn, handler.fd, sent[..i])
    {
      RequestsServed(w, handler.fd, cmd, i);
      HandleOneMore(w.server, conn, handler.fd, sent[..i], sent[i]);
      assert sent[..i + 1] == sent[..i] + [sent[i]];
      var more := handler.HandleRequest(sent[i]);
      out := out + more;
      i := i + 1;
    }
    assert sent[..i] == sent;
  }
}
