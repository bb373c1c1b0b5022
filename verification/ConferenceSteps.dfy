// Each command of each client keeps the agreement.
module ConferenceSteps {
  import opened Users
  import opened Sessions
  import opened SessionProof
  import opened Conference
  import opened ConferenceProof

  /** The client at `fd` is logged in, and this is its record. */
  ghost predicate LoggedIn(w: World, fd: int, k: nat) {
    fd in w.peers && w.peers[fd].client.verified && k == Search(w.server.users, w.peers[fd].client.name)
  }

  lemma OwnRecord(w: World, fd: int, k: nat)
    requires Agree(w) && LoggedIn(w, fd, k)
    ensures k < |w.server.users| && Known(w.server, w.peers[fd].client.name)
    ensures Find(w.server, w.peers[fd].client.name) == w.server.users[k]
    ensures w.server.users[k].name == w.peers[fd].client.name == w.peers[fd].conn.source
    ensures w.server.users[k].online && w.server.users[k].fd == fd && w.peers[fd].client.connected
    ensures w.server.users[k].inSession == w.peers[fd].client.session
    ensures w.server.users[k].role == w.peers[fd].client.role
    ensures Sane(w.server.users[k])
  {
    assert PeerOk(w.server.users, fd, w.peers[fd]);
  }

  lemma StepNone(w: World, fd: int, cmd: Command)
    requires fd in w.peers && !cmd.Crash? && Obey(w.peers[fd].client, cmd) == (w.peers[fd].client, [])
    ensures Step(w, fd, cmd) == w
  {
    assert Delivered(w.peers, fd, w.peers[fd].client, w.peers[fd].conn, []) == w.peers;
  }

  /** A command that sends one request. */
  lemma StepOne(w: World, fd: int, cmd: Command, c: Client, q: Request)
    requires fd in w.peers && !cmd.Crash? && Obey(w.peers[fd].client, cmd) == (c, [q])
    ensures var (s, conn, out) := Handle(w.server, w.peers[fd].conn, fd, q);
            Step(w, fd, cmd) == World(s, Delivered(w.peers, fd, c, conn, out))
  {
    hide Handle, Delivered, Obey;
    var (s, conn, out) := Handle(w.server, w.peers[fd].conn, fd, q);
    HandleNone(s, conn, fd, [q][1..]);
    assert out + [] == out;
  }

  lemma HandleNone(s: Server, conn: Conn, fd: int, qs: seq<Request>)
    requires qs == []
    ensures HandleAll(s, conn, fd, qs) == (s, conn, [])
  {
  }

  /** Where a delivery leaves each peer. */
  lemma DeliveredAt(w: World, fd: int, c: Client, conn: Conn, out: seq<Reply>, x: int)
    requires fd in w.peers && x in w.peers
    ensures var peers := Delivered(w.peers, fd, c, conn, out);
            peers.Keys == w.peers.Keys
            && peers[x] == if x == fd then Peer(Inbox(c, x, out), conn)
                           else Peer(Inbox(w.peers[x].client, x, out), w.peers[x].conn)
  {
  }

  /** The other clients are not the user of record k. */
  lemma OthersApart(w: World, fd: int, k: nat, x: int)
    requires Agree(w) && LoggedIn(w, fd, k) && x in w.peers && x != fd
    ensures w.peers[x].client.verified ==>
              w.peers[x].client.connected
              && var i := Search(w.server.users, w.peers[x].client.name);
                 i != k && i < |w.server.users| && w.server.users[i].fd == x && LoggedIn(w, x, i)
                 && w.peers[x].client.session == w.server.users[i].inSession
                 && w.peers[x].client.role == w.server.users[i].role
    ensures !w.peers[x].client.verified ==> !w.peers[x].client.connected
  {
    assert PeerOk(w.server.users, x, w.peers[x]);
    if w.peers[x].client.verified { Distinct(w, x, fd); }
  }

  // ----- joining and creating -----

  lemma EnterStep(w: World, fd: int, k: nat, cmd: Command, q: Request, s: Server, r: Reply)
    requires Agree(w) && LoggedIn(w, fd, k) && !cmd.Crash?
    requires Obey(w.peers[fd].client, cmd) == (w.peers[fd].client, [q])
    requires Handle(w.server, w.peers[fd].conn, fd, q) == (s, w.peers[fd].conn, [r])
    requires ServerOk(s) && TableInv(s.users) && r.fd == fd && k < |s.users| == |w.server.users|
    requires forall i :: 0 <= i < |s.users| && i != k ==> s.users[i] == w.server.users[i]
    requires s.users[k].name == w.server.users[k].name && s.users[k].online == w.server.users[k].online
    requires s.users[k].fd == w.server.users[k].fd
    requires var c := OnMessage(w.peers[fd].client, r);
             c.session == s.users[k].inSession && c.role == s.users[k].role
             && c.name == w.peers[fd].client.name && c.verified && c.connected == w.peers[fd].client.connected
    ensures Agree(Step(w, fd, cmd))
  {
    hide Obey, Handle, OnMessage, Delivered, Agree, TableInv, Step;
    var p := w.peers[fd];
    StepOne(w, fd, cmd, p.client, q);
    OwnRecord(w, fd, k);
    var v := Step(w, fd, cmd);
    DeliveredAt(w, fd, p.client, p.conn, [r], fd);
    forall x | x in w.peers ensures Follows(w, v, x) {
      DeliveredAt(w, fd, p.client, p.conn, [r], x);
      if x == fd {
        InboxOne(p.client, x, r);
      } else {
        InboxOne(w.peers[x].client, x, r);
        OthersApart(w, fd, k, x);
      }
    }
    AgreeByFlags(w, v);
  }

  /** Which handler a request goes to. */
  lemma Dispatched(s: Server, conn: Conn, fd: int, q: Request)
    requires ServerOk(s)
    ensures q.kind == JOIN ==>
              Handle(s, conn, fd, q) == (Join(s, conn.source, q.data).0, conn, Join(s, conn.source, q.data).1)
    ensures q.kind == NEW_SESS ==>
              Handle(s, conn, fd, q) == (Create(s, conn.source, q.data).0, conn, Create(s, conn.source, q.data).1)
    ensures q.kind == KICK ==>
              Handle(s, conn, fd, q) == (Kick(s, conn.source, q.data).0, conn, Kick(s, conn.source, q.data).1)
    ensures q.kind == PROMOTE ==>
              Handle(s, conn, fd, q) == (Promote(s, conn.source, q.data).0, conn, Promote(s, conn.source, q.data).1)
  {
    hide Join, Create, Kick, Promote;
  }

  lemma JoinStep(w: World, fd: int, k: nat, session: string)
    requires Agree(w) && LoggedIn(w, fd, k) && Token(session)
    ensures Agree(Step(w, fd, DoJoin(session)))
  {
    hide Agree, TableInv, Step, Search, Count, Handle, RoomsOf;
    OwnRecord(w, fd, k);
    var c := w.peers[fd].client;
    if !Fits(session, MAX_SESSION_LENGTH) || c.session {
      StepNone(w, fd, DoJoin(session));
    } else {
      assert session != NOT_IN_SESSION;
      AgreeTable(w);
      Dispatched(w.server, w.peers[fd].conn, fd, Request(JOIN, c.name, session));
      JoinKeeps(w.server, c.name, session);
      var (s, out) := Join(w.server, c.name, session);
      EnterStep(w, fd, k, DoJoin(session), Request(JOIN, c.name, session), s, out[0]);
    }
  }

  lemma AgreeTable(w: World)
    requires Agree(w)
    ensures TableInv(w.server.users) && ServerOk(w.server)
  {
  }

  lemma CreateStep(w: World, fd: int, k: nat, session: string)
    requires Agree(w) && LoggedIn(w, fd, k) && Token(session)
    ensures Agree(Step(w, fd, DoCreate(session)))
  {
    hide Agree, TableInv, Step, Search, Count, Handle, RoomsOf;
    OwnRecord(w, fd, k);
    var c := w.peers[fd].client;
    if !Fits(session, MAX_SESSION_LENGTH) || c.session {
      StepNone(w, fd, DoCreate(session));
    } else {
      assert session != NOT_IN_SESSION;
      AgreeTable(w);
      Dispatched(w.server, w.peers[fd].conn, fd, Request(NEW_SESS, c.name, session));
      CreateKeeps(w.server, c.name, session);
      var (s, out) := Create(w.server, c.name, session);
      EnterStep(w, fd, k, DoCreate(session), Request(NEW_SESS, c.name, session), s, out[0]);
    }
  }

  // ----- leaving -----

  lemma LeaveStep(w: World, fd: int, k: nat)
    requires Agree(w) && LoggedIn(w, fd, k)
    ensures Agree(Step(w, fd, DoLeave))
    ensures w.peers[fd].client.session ==>
              Step(w, fd, DoLeave)
              == World(w.server.(users := ExitSession(w.server.users, k)),
                       Delivered(w.peers, fd, LeaveSession(w.peers[fd].client), w.peers[fd].conn,
                                 AdminNotices(ExitSession(w.server.users, k))))
  {
    hide Agree, TableInv, Step, Search, ExitSession, Delivered, Handle, Leave, AdminNotices, Inbox, OnMessage;
    OwnRecord(w, fd, k);
    var c, conn := w.peers[fd].client, w.peers[fd].conn;
    if !c.session {
      StepNone(w, fd, DoLeave);
    } else {
      AgreeTable(w);
      LeaveHandled(w, fd, k);
      var t' := ExitSession(w.server.users, k);
      var out := AdminNotices(t');
      StepOne(w, fd, DoLeave, LeaveSession(c), Request(LEAVE_SESS, c.name, ""));
      var v := Step(w, fd, DoLeave);
      ExitedRecord(w.server.users, k);
      DeliveredAt(w, fd, LeaveSession(c), conn, out, fd);
      forall x | x in w.peers ensures Follows(w, v, x) {
        DeliveredAt(w, fd, LeaveSession(c), conn, out, x);
        NoticesFollow(w, fd, k, x);
      }
      AgreeByFlags(w, v);
    }
  }

  lemma LeaveHandled(w: World, fd: int, k: nat)
    requires Agree(w) && LoggedIn(w, fd, k) && w.peers[fd].client.session
    ensures k < |w.server.users|
    ensures var s := w.server.(users := ExitSession(w.server.users, k));
            TableInv(s.users)
            && Handle(w.server, w.peers[fd].conn, fd, Request(LEAVE_SESS, w.peers[fd].client.name, ""))
               == (s, w.peers[fd].conn, AdminNotices(s.users))
  {
    hide Agree, TableInv, Search, ExitSession, AdminNotices;
    OwnRecord(w, fd, k);
    AgreeTable(w);
    LeaveKeeps(w.server, w.peers[fd].client.name);
  }

  /** After someone left, the notices set each client's role to that of its record. */
  lemma NoticesFollow(w: World, fd: int, k: nat, x: int)
    requires Agree(w) && LoggedIn(w, fd, k) && w.peers[fd].client.session && x in w.peers
    ensures k < |w.server.users|
    ensures var t' := ExitSession(w.server.users, k);
            var c := w.peers[x].client;
            var i := Search(w.server.users, c.name);
            if x == fd then Inbox(LeaveSession(c), x, AdminNotices(t')) == LeaveSession(c) && t'[k] == Outside(t'[k])
            else if c.verified then
              i < |t'| && Inbox(c, x, AdminNotices(t')) == c.(role := t'[i].role) && t'[i].inSession == c.session
            else Inbox(c, x, AdminNotices(t')) == c
  {
    hide Search, TableInv;
    OwnRecord(w, fd, k);
    var t, t' := w.server.users, ExitSession(w.server.users, k);
    AgreeTable(w);
    SaneAt(t, k);
    ExitedRecord(t, k);
    var c := w.peers[x].client;
    if x != fd { OthersApart(w, fd, k, x); }
    if x == fd || c.verified {
      var c1 := if x == fd then LeaveSession(c) else c;
      NoticesReach(t', c1, x);
      var mine := if x == fd then k else Search(t, c.name);
      forall i | 0 <= i < |t'| && t'[i].role == Admin && t'[i].fd == x ensures i == mine {
        SaneAt(t, i);
        OwnerOf(w, i);
      }
    } else {
      InboxClosed(c, x, AdminNotices(t'));
    }
  }

  lemma SaneAt(t: Table, i: nat)
    requires TableInv(t) && i < |t|
    ensures Sane(t[i])
  {
  }

  // ----- kicking and promoting -----

  /** Two messages, to the target's client and to the sender's. */
  lemma PairStep(w: World, fd: int, k: nat, j: nat, cmd: Command, q: Request, s: Server, r1: Reply, r2: Reply)
    requires Agree(w) && LoggedIn(w, fd, k) && !cmd.Crash?
    requires Obey(w.peers[fd].client, cmd) == (w.peers[fd].client, [q])
    requires Handle(w.server, w.peers[fd].conn, fd, q) == (s, w.peers[fd].conn, [r1, r2])
    requires ServerOk(s) && TableInv(s.users) && |s.users| == |w.server.users|
    requires k < |s.users| && j < |s.users| && j != k && w.server.users[j].online
    requires r1.fd == w.server.users[j].fd && r2.fd == fd
    requires forall i :: 0 <= i < |s.users| && i != k && i != j ==> s.users[i] == w.server.users[i]
    requires forall i :: 0 <= i < |s.users| ==>
               s.users[i].name == w.server.users[i].name && s.users[i].online == w.server.users[i].online
               && s.users[i].fd == w.server.users[i].fd
    requires forall c :: FlagsOf(c, w.server.users[k]) ==> Sets(c, r2, s.users[k])
    requires forall c :: FlagsOf(c, w.server.users[j]) ==> Sets(c, r1, s.users[j])
    ensures Agree(Step(w, fd, cmd))
  {
    hide Obey, Handle, OnMessage, Delivered, Agree, TableInv, Step, Search;
    var p := w.peers[fd];
    StepOne(w, fd, cmd, p.client, q);
    OwnRecord(w, fd, k);
    OwnerOf(w, j);
    var v, out := Step(w, fd, cmd), [r1, r2];
    DeliveredAt(w, fd, p.client, p.conn, out, fd);
    forall x | x in w.peers ensures Follows(w, v, x) {
      DeliveredAt(w, fd, p.client, p.conn, out, x);
      var c := w.peers[x].client;
      InboxTwo(c, x, r1, r2);
      if x == fd {
        assert FlagsOf(c, w.server.users[k]);
        assert Sets(c, r2, s.users[k]);
      } else {
        OthersApart(w, fd, k, x);
        if c.verified && Search(w.server.users, c.name) == j {
          assert FlagsOf(c, w.server.users[j]);
          assert Sets(c, r1, s.users[j]);
        }
      }
    }
    AgreeByFlags(w, v);
  }

  predicate FlagsOf(c: Client, u: User) { c.session == u.inSession && c.role == u.role }

  /** Message r gives a client the flags of record u. */
  predicate Sets(c: Client, r: Reply, u: User) {
    OnMessage(c, r) == c.(session := u.inSession, role := u.role)
  }

  lemma KickStep(w: World, fd: int, k: nat, target: string)
    requires Agree(w) && LoggedIn(w, fd, k)
    ensures Agree(Step(w, fd, DoKick(target)))
  {
    hide Agree, TableInv, Step, Search, Handle, RoomsOf;
    OwnRecord(w, fd, k);
    var c := w.peers[fd].client;
    if !c.session || c.role == Ordinary || !Fits(target, MAX_NAME) || target == c.name {
      StepNone(w, fd, DoKick(target));
    } else {
      AgreeTable(w);
      KickKeeps(w.server, c.name, target);
      var (s, out) := Kick(w.server, c.name, target);
      var q := Request(KICK, c.name, target);
      Dispatched(w.server, w.peers[fd].conn, fd, q);
      if |out| == 1 {
        EnterStep(w, fd, k, DoKick(target), q, s, out[0]);
      } else {
        var j := Search(w.server.users, target);
        PairStep(w, fd, k, j, DoKick(target), q, s, out[0], out[1]);
      }
    }
  }

  lemma PromoteStep(w: World, fd: int, k: nat, target: string)
    requires Agree(w) && LoggedIn(w, fd, k)
    ensures Agree(Step(w, fd, DoPromote(target)))
  {
    hide Agree, TableInv, Step, Search, Handle, RoomsOf;
    OwnRecord(w, fd, k);
    var c := w.peers[fd].client;
    if !c.session || c.role == Ordinary || !Fits(target, MAX_NAME) || target == c.name {
      StepNone(w, fd, DoPromote(target));
    } else {
      AgreeTable(w);
      PromoteKeeps(w.server, c.name, target);
      var (s, out) := Promote(w.server, c.name, target);
      var q := Request(PROMOTE, c.name, target);
      Dispatched(w.server, w.peers[fd].conn, fd, q);
      if |out| == 1 {
        EnterStep(w, fd, k, DoPromote(target), q, s, out[0]);
      } else {
        var j := Search(w.server.users, target);
        PairStep(w, fd, k, j, DoPromote(target), q, s, out[0], out[1]);
      }
    }
  }

  // ----- talking -----

  /** Commands whose replies are only printed. */
  lemma HarmlessStep(w: World, fd: int, cmd: Command, q: Request, out: seq<Reply>)
    requires Agree(w) && fd in w.peers && !cmd.Crash?
    requires Obey(w.peers[fd].client, cmd) == (w.peers[fd].client, [q])
    requires Handle(w.server, w.peers[fd].conn, fd, q) == (w.server, w.peers[fd].conn, out)
    requires forall i :: 0 <= i < |out| ==> Harmless(out[i])
    ensures Step(w, fd, cmd) == w
  {
    StepOne(w, fd, cmd, w.peers[fd].client, q);
    var peers := Delivered(w.peers, fd, w.peers[fd].client, w.peers[fd].conn, out);
    forall x | x in w.peers ensures peers[x] == w.peers[x] {
      InboxHarmless(w.peers[x].client, x, out);
    }
    assert peers == w.peers;
  }

  lemma TalkStep(w: World, fd: int, k: nat, cmd: Command)
    requires Agree(w) && LoggedIn(w, fd, k) && (cmd.DoSay? || cmd.DoList? || cmd.DoUserList?)
    ensures Step(w, fd, cmd) == w
  {
    hide Step, Agree, TableInv;
    OwnRecord(w, fd, k);
    AgreeTable(w);
    var (c, qs) := Obey(w.peers[fd].client, cmd);
    if qs == [] {
      StepNone(w, fd, cmd);
    } else {
      var out := Handle(w.server, w.peers[fd].conn, fd, qs[0]).2;
      HarmlessStep(w, fd, cmd, qs[0], out);
    }
  }

  // ----- signing on -----

  lemma LoginStep(w: World, fd: int, name: string, password: string)
    requires Agree(w) && fd in w.peers
    ensures Agree(Step(w, fd, DoLogin(name, password)))
  {
    hide Agree, TableInv, Step, Search;
    var p, cmd := w.peers[fd], DoLogin(name, password);
    PeerAt(w, fd);
    if p.client.verified || !Fits(name, MAX_NAME) || !Fits(password, MAX_PASSWORD_LENGTH) {
      StepNone(w, fd, cmd);
    } else {
      var c, q := p.client.(connected := true), Request(LOGIN, name, password);
      var code := VerifyLogin(w.server.users, name, password);
      var (s, out) := Login(w.server, name, password, fd);
      AgreeTable(w);
      StepOne(w, fd, cmd, c, q);
      var v := Step(w, fd, cmd);
      SignedOn(w, fd, c, v.peers[fd].conn, out[0], v);
      if code == SuccessLogin {
        LoginKeeps(w.server, name, password, fd);
        SignedIn(w, v, fd, Search(w.server.users, name));
      } else {
        assert c.(verified := false, connected := false) == p.client;
        assert v.peers == w.peers;
      }
    }
  }

  /** An offline user is signed on, and their client and connection along with them. */
  lemma SignedIn(w: World, v: World, fd: int, k: nat)
    requires Agree(w) && fd in w.peers && !w.peers[fd].client.verified
    requires k < |w.server.users| && !w.server.users[k].online
    requires v.server == w.server.(users := w.server.users[k := w.server.users[k].(online := true, fd := fd)])
    requires TableInv(v.server.users) && v.peers.Keys == w.peers.Keys
    requires var c := w.peers[fd].client.(connected := true, name := w.server.users[k].name, verified := true);
             v.peers[fd] == Peer(c, Conn(true, w.server.users[k].name))
    requires forall x :: x in w.peers && x != fd ==> v.peers[x] == w.peers[x]
    ensures Agree(v)
  {
    hide Agree, TableInv, Search;
    AgreeTable(w);
    PeerAt(w, fd);
    SaneAt(w.server.users, k);
    FoundAgain(w.server.users, v.server.users, k);
    AgreeByRecord(w, v, fd, k);
  }

  lemma FoundAgain(t: Table, t': Table, k: nat)
    requires TableInv(t) && k < |t| == |t'|
    requires forall i :: 0 <= i < |t| ==> t'[i].name == t[i].name
    ensures Search(t', t[k].name) == k
  {
    SearchFinds(t, k);
    SearchSameNames(t, t', t[k].name);
  }

  /** One message to `fd`: the other peers stay as they are. */
  lemma SignedOn(w: World, fd: int, c: Client, conn: Conn, r: Reply, v: World)
    requires fd in w.peers && r.fd == fd && c.connected
    requires v.peers == Delivered(w.peers, fd, c, conn, [r])
    ensures v.peers.Keys == w.peers.Keys && v.peers[fd] == Peer(OnMessage(c, r), conn)
    ensures forall x :: x in w.peers && x != fd ==> v.peers[x] == w.peers[x]
  {
    hide Delivered, OnMessage, Inbox;
    DeliveredAt(w, fd, c, conn, [r], fd);
    InboxOne(c, fd, r);
    forall x | x in w.peers && x != fd ensures v.peers[x] == w.peers[x] {
      DeliveredAt(w, fd, c, conn, [r], x);
      InboxOne(w.peers[x].client, x, r);
    }
  }

  lemma SearchLonger(t: Table, u: User, name: string)
    ensures Search(t, name) < |t| ==> Search(t + [u], name) == Search(t, name)
    ensures Search(t, u.name) == |t| ==> Search(t + [u], u.name) == |t|
  {
    assert (t + [u])[..|t|] == t;
  }

  lemma RegisterStep(w: World, fd: int, name: string, password: string)
    requires Agree(w) && fd in w.peers
    ensures Agree(Step(w, fd, DoRegister(name, password)))
  {
    hide TableInv, Step, Search;
    var p, cmd := w.peers[fd], DoRegister(name, password);
    if p.client.verified || !Fits(name, MAX_NAME) || !Fits(password, MAX_PASSWORD_LENGTH) {
      StepNone(w, fd, cmd);
    } else {
      assert PeerOk(w.server.users, fd, p);
      RegisterKeeps(w.server, name, password, fd);
      var (s, out) := Register(w.server, name, password, fd);
      StepOne(w, fd, cmd, p.client.(connected := true), Request(CREATE, name, password));
      var v := Step(w, fd, cmd);
      SignedOn(w, fd, p.client.(connected := true), v.peers[fd].conn, out[0], v);
      if AddCode(w.server.users, name) == AddUserSuccess {
        NewcomerAgrees(w, v, fd, NewUser(name, password, true, fd));
      } else {
        assert p.client.(connected := true).(verified := false, connected := false) == p.client;
        assert v.peers == w.peers;
      }
    }
  }

  lemma NewcomerAgrees(w: World, v: World, fd: int, u: User)
    requires Agree(w) && ServerOk(v.server) && TableInv(v.server.users)
    requires fd in w.peers && !w.peers[fd].client.verified && v.peers.Keys == w.peers.Keys
    requires forall x :: x in w.peers && x != fd ==> v.peers[x] == w.peers[x]
    requires v.server.users == w.server.users + [u] && Search(w.server.users, u.name) == |w.server.users|
    requires u.online && u.fd == fd && !u.inSession && u.role == Ordinary
    requires v.peers[fd].client.verified && v.peers[fd].client.connected && v.peers[fd].client.name == u.name
    requires !v.peers[fd].client.session && v.peers[fd].client.role == Ordinary
    requires v.peers[fd].conn == Conn(true, u.name)
    ensures Agree(v)
  {
    hide TableInv, Search;
    var t, t' := w.server.users, v.server.users;
    SearchLonger(t, u, u.name);
    assert t'[|t|] == u;
    forall x | x in v.peers ensures PeerOk(t', x, v.peers[x]) {
      if x != fd {
        assert PeerOk(t, x, w.peers[x]);
        SearchLonger(t, u, w.peers[x].client.name);
      }
    }
    forall i | 0 <= i < |t'| ensures RecordOk(t'[i], v.peers) {
      if i < |t| {
        assert RecordOk(t[i], w.peers);
        if t[i].online { OwnerOf(w, i); }
      }
    }
  }

  // ----- signing off -----

  /** A user in no session signs off; the client is left with clear flags. */
  lemma SignOff(w: World, fd: int, k: nat, c: Client, v: World)
    requires Agree(w) && LoggedIn(w, fd, k) && !w.peers[fd].client.session
    requires !c.connected && !c.verified && !c.session && c.role == Ordinary
    requires v == World(w.server.(users := SignedOff(w.server.users, k)),
                        Delivered(w.peers, fd, c, Conn(false, ""), []))
    ensures Agree(v)
  {
    hide TableInv, Search;
    OwnRecord(w, fd, k);
    SignOffKeeps(w.server.users, k);
    AgreeByRecord(w, v, fd, k);
  }

  /** The record and the connection after a leave. */
  lemma AfterLeave(w: World, fd: int, k: nat)
    requires Agree(w) && LoggedIn(w, fd, k) && w.peers[fd].client.session
    ensures var w1 := Step(w, fd, DoLeave);
            Agree(w1) && LoggedIn(w1, fd, k) && k < |w1.server.users|
            && w1.server == w.server.(users := ExitSession(w.server.users, k))
            && w1.peers[fd] == Peer(LeaveSession(w.peers[fd].client), w.peers[fd].conn)
            && !w1.server.users[k].inSession
  {
    hide TableInv, Agree, Step, Search, ExitSession, AdminNotices;
    LeaveStep(w, fd, k);
    OwnRecord(w, fd, k);
    NoticesFollow(w, fd, k, fd);
    var w1 := Step(w, fd, DoLeave);
    var t' := ExitSession(w.server.users, k);
    DeliveredAt(w, fd, LeaveSession(w.peers[fd].client), w.peers[fd].conn, AdminNotices(t'), fd);
    ExitedRecord(w.server.users, k);
    SameNames(w.server.users, k, w.peers[fd].client.name);
  }

  lemma SameNames(t: Table, k: nat, name: string)
    requires k < |t| && t[k].session != NOT_IN_SESSION
    ensures Search(ExitSession(t, k), name) == Search(t, name)
  {
    ExitedRecord(t, k);
    SearchSameNames(t, ExitSession(t, k), name);
  }

  lemma UserExitInTwo(s: Server, name: string)
    requires TableInv(s.users) && Known(s, name) && Find(s, name).inSession
    ensures UserExit(s, name)
         == (Leave(s, name).0.(users := SignedOff(Leave(s, name).0.users, Search(s.users, name))), Leave(s, name).1)
  {
  }

  lemma DeliveredInTwo(w: World, fd: int, c1: Client, conn1: Conn, c2: Client, conn2: Conn, out: seq<Reply>)
    requires fd in w.peers && !c2.connected
    ensures Delivered(w.peers, fd, c2, conn2, out)
         == Delivered(Delivered(w.peers, fd, c1, conn1, out), fd, c2, conn2, [])
  {
    InboxClosed(c2, fd, out);
  }

  lemma LogoutStep(w: World, fd: int, k: nat)
    requires Agree(w) && LoggedIn(w, fd, k)
    ensures Agree(Step(w, fd, DoLogout))
  {
    hide TableInv, Agree, Search, ExitSession, AdminNotices, Delivered;
    OwnRecord(w, fd, k);
    AgreeTable(w);
    var c, conn := w.peers[fd].client, w.peers[fd].conn;
    var off := LeaveSession(c).(verified := false, connected := false);
    if c.session {
      AfterLeave(w, fd, k);
      LeaveStep(w, fd, k);
      var w1 := Step(w, fd, DoLeave);
      var out := AdminNotices(w1.server.users);
      OwnRecord(w1, fd, k);
      LeaveKeeps(w.server, c.name);
      LogoutRequests(w, fd, k, w1.server, out);
      DeliveredInTwo(w, fd, LeaveSession(c), conn, off, Conn(false, ""), out);
      SignOff(w1, fd, k, off, Step(w, fd, DoLogout));
    } else {
      assert [] + [Request(EXIT, c.name, "")] == [Request(EXIT, c.name, "")];
      StepOne(w, fd, DoLogout, c.(verified := false, connected := false), Request(EXIT, c.name, ""));
      SignOff(w, fd, k, c.(verified := false, connected := false), Step(w, fd, DoLogout));
    }
  }

  /** What the server does with the two requests of a logout. */
  lemma LogoutRequests(w: World, fd: int, k: nat, s1: Server, out: seq<Reply>)
    requires Agree(w) && LoggedIn(w, fd, k) && w.peers[fd].client.session
    requires Known(w.server, w.peers[fd].client.name)
    requires Leave(w.server, w.peers[fd].client.name) == (s1, out) && ServerOk(s1)
    requires Search(s1.users, w.peers[fd].client.name) == k < |s1.users| && !s1.users[k].inSession
    requires w.peers[fd].conn.source == w.peers[fd].client.name && w.peers[fd].client.connected
    ensures Step(w, fd, DoLogout)
         == World(s1.(users := SignedOff(s1.users, k)),
                  Delivered(w.peers, fd, LeaveSession(w.peers[fd].client).(verified := false, connected := false),
                            Conn(false, ""), out))
  {
    hide TableInv, Search, Leave, Delivered;
    AgreeTable(w);
    var c, conn := w.peers[fd].client, w.peers[fd].conn;
    var qs := [Request(LEAVE_SESS, c.name, ""), Request(EXIT, c.name, "")];
    assert Obey(c, DoLogout).1 == qs;
    assert Handle(w.server, conn, fd, qs[0]) == (s1, conn, out);
    var s2 := s1.(users := SignedOff(s1.users, k));
    assert Handle(s1, conn, fd, qs[1]) == (s2, Conn(false, ""), []);
    HandlePair(w.server, conn, fd, qs[0], qs[1]);
    assert out + [] == out;
  }

  lemma HandlePair(s: Server, conn: Conn, fd: int, q1: Request, q2: Request)
    ensures var (s1, conn1, out1) := Handle(s, conn, fd, q1);
            var (s2, conn2, out2) := Handle(s1, conn1, fd, q2);
            HandleAll(s, conn, fd, [q1, q2]) == (s2, conn2, out1 + out2)
  {
    hide Handle;
    assert [q1, q2][1..] == [q2];
    var (s1, conn1, out1) := Handle(s, conn, fd, q1);
    var (s2, conn2, out2) := Handle(s1, conn1, fd, q2);
    HandleNone(s2, conn2, fd, [q2][1..]);
    assert out2 + [] == out2;
  }

  /** The process of a logged-in client dies. */
  lemma CrashStep(w: World, fd: int, k: nat)
    requires Agree(w) && LoggedIn(w, fd, k)
    ensures Agree(Step(w, fd, Crash))
  {
    hide TableInv, Agree, Search, ExitSession, AdminNotices, Delivered;
    OwnRecord(w, fd, k);
    AgreeTable(w);
    var c, conn := w.peers[fd].client, w.peers[fd].conn;
    assert conn.online by { assert PeerOk(w.server.users, fd, w.peers[fd]) by { PeerAt(w, fd); } }
    if c.session {
      AfterLeave(w, fd, k);
      LeaveStep(w, fd, k);
      var w1 := Step(w, fd, DoLeave);
      var out := AdminNotices(w1.server.users);
      OwnRecord(w1, fd, k);
      LeaveKeeps(w.server, c.name);
      UserExitInTwo(w.server, c.name);
      DeliveredInTwo(w, fd, LeaveSession(c), conn, FreshClient(), Conn(false, ""), out);
      SignOff(w1, fd, k, FreshClient(), Step(w, fd, Crash));
    } else {
      SignOff(w, fd, k, FreshClient(), Step(w, fd, Crash));
    }
  }

  lemma PeerAt(w: World, fd: int)
    requires Agree(w) && fd in w.peers
    ensures PeerOk(w.server.users, fd, w.peers[fd])
  {
  }

  // ----- every command -----

  /** Clients that are not logged in change nothing, whatever they type but a login. */
  lemma OfflineStep(w: World, fd: int, cmd: Command)
    requires Agree(w) && fd in w.peers && !w.peers[fd].client.verified
    requires !cmd.DoLogin? && !cmd.DoRegister?
    ensures Agree(Step(w, fd, cmd)) && Step(w, fd, cmd).server == w.server
  {
    var p := w.peers[fd];
    assert PeerOk(w.server.users, fd, p);
    if cmd.Crash? {
      var v := Step(w, fd, cmd);
      forall x | x in w.peers ensures PeerOk(w.server.users, x, v.peers[x]) {
        assert PeerOk(w.server.users, x, w.peers[x]);
      }
      forall i | 0 <= i < |w.server.users| ensures RecordOk(w.server.users[i], v.peers) {
        assert RecordOk(w.server.users[i], w.peers);
      }
    } else {
      StepNone(w, fd, cmd);
    }
  }

  lemma StepAgrees(w: World, fd: int, cmd: Command)
    requires Agree(w) && fd in w.peers && CommandOk(cmd)
    ensures Agree(Step(w, fd, cmd))
  {
    hide Agree, Step, Search;
    var k := Search(w.server.users, w.peers[fd].client.name);
    match cmd
    case DoLogin(name, password) => LoginStep(w, fd, name, password);
    case DoRegister(name, password) => RegisterStep(w, fd, name, password);
    case _ =>
      if !w.peers[fd].client.verified {
        OfflineStep(w, fd, cmd);
      } else {
        match cmd
        case DoLogout => LogoutStep(w, fd, k);
        case DoJoin(session) => JoinStep(w, fd, k, session);
        case DoCreate(session) => CreateStep(w, fd, k, session);
        case DoLeave => LeaveStep(w, fd, k);
        case DoKick(target) => KickStep(w, fd, k, target);
        case DoPromote(target) => PromoteStep(w, fd, k, target);
        case DoSay(text) => TalkStep(w, fd, k, cmd);
        case DoList => TalkStep(w, fd, k, cmd);
        case DoUserList(session) => TalkStep(w, fd, k, cmd);
        case Crash => CrashStep(w, fd, k);
      }
  }

  lemma {:induction false} RunAgrees(w: World, acts: seq<Act>, v: World)
    requires Agree(w) && Run(w, acts, v)
    ensures Agree(v)
    decreases |acts|
  {
    hide Agree, Step;
    if acts != [] {
      StepAgrees(w, acts[0].fd, acts[0].cmd);
      RunAgrees(Step(w, acts[0].fd, acts[0].cmd), acts[1..], v);
    }
  }

  lemma StartAgrees(w: World)
    requires Start(w)
    ensures Agree(w)
  {
    assert SessionNames(w.server.users) == {};
  }

  ghost predicate Reachable(v: World) {
    exists w, acts :: Start(w) && Run(w, acts, v)
  }

  lemma {:induction false} RunOneMore(w: World, acts: seq<Act>, v: World, a: Act)
    requires Run(w, acts, v) && a.fd in v.peers && CommandOk(a.cmd)
    ensures Run(w, acts + [a], Step(v, a.fd, a.cmd))
    decreases |acts|
  {
    hide Step, CommandOk;
    if acts == [] {
      assert (acts + [a])[1..] == [] && (acts + [a])[0] == a;
    } else {
      assert (acts + [a])[1..] == acts[1..] + [a];
      RunOneMore(Step(w, acts[0].fd, acts[0].cmd), acts[1..], v, a);
    }
  }

  lemma ReachableNext(w: World, a: Act)
    requires Reachable(w) && a.fd in w.peers && CommandOk(a.cmd)
    ensures Reachable(Step(w, a.fd, a.cmd))
  {
    hide Step, CommandOk, Run, Start;
    var w0, acts :| Start(w0) && Run(w0, acts, w);
    RunOneMore(w0, acts, w, a);
  }

  /** The main theorem: in every run from the start, client flags and server records
      agree, the table keeps its invariant, no mutex stays locked and no handler uses a
      user it does not have. */
  lemma AlwaysAgree(v: World)
    requires Reachable(v)
    ensures Agree(v)
  {
    hide Agree;
    var w, acts :| Start(w) && Run(w, acts, v);
    StartAgrees(w);
    RunAgrees(w, acts, v);
  }
}
