// Which answers each command gets, in terms of users, sessions and accounts, word for word.
module Answers {
  import opened Users
  import opened Sessions
  import opened RoomMoves
  import opened SessionProof
  import opened Conference
  import opened ConferenceProof
  import opened ConferenceSteps
  import opened ConferenceTheorems
  import opened SessionLists

  /** What the server sends because of a command. */
  function Sent(w: World, fd: int, cmd: Command): seq<Reply>
    requires fd in w.peers
  {
    if cmd.Crash? then Disconnect(w.server, w.peers[fd].conn).1
    else HandleAll(w.server, w.peers[fd].conn, fd, Obey(w.peers[fd].client, cmd).1).2
  }

  /** The messages to one socket, in order. */
  function To(out: seq<Reply>, x: int): seq<Reply> {
    if out == [] then []
    else
      var r := out[|out| - 1];
      To(out[..|out| - 1], x) + (if r.fd == x then [r] else [])
  }

  /** What a client reads is what was sent to its socket. */
  lemma {:induction false} ReadsOwn(c: Client, x: int, out: seq<Reply>)
    ensures Inbox(c, x, To(out, x)) == Inbox(c, x, out)
  {
    hide OnMessage;
    if out != [] {
      var n := |out| - 1;
      ReadsOwn(c, x, out[..n]);
      if out[n].fd == x {
        assert To(out, x)[..|To(out, x)| - 1] == To(out[..n], x);
      } else {
        assert To(out, x) == To(out[..n], x);
      }
    }
  }

  lemma ToOne(r: Reply, x: int)
    ensures To([r], x) == if r.fd == x then [r] else []
  {
    assert [r][..0] == [];
  }

  lemma ToTwo(r1: Reply, r2: Reply, x: int)
    ensures To([r1, r2], x) == (if r1.fd == x then [r1] else []) + (if r2.fd == x then [r2] else [])
  {
    ToOne(r1, x);
    assert [r1, r2][..1] == [r1];
  }

  lemma SentOne(w: World, fd: int, cmd: Command, q: Request)
    requires fd in w.peers && !cmd.Crash? && Obey(w.peers[fd].client, cmd).1 == [q]
    ensures Sent(w, fd, cmd) == Handle(w.server, w.peers[fd].conn, fd, q).2
  {
    hide Handle, Obey;
    var (s, conn, out) := Handle(w.server, w.peers[fd].conn, fd, q);
    HandleNone(s, conn, fd, [q][1..]);
    assert out + [] == out;
  }

  // ----- users by name -----

  function Names(t: Table): set<string> { set i | 0 <= i < |t| :: t[i].name }

  lemma NameKnown(t: Table, name: string)
    ensures name in Names(t) <==> Search(t, name) < |t|
  {
  }

  /** Some client is logged in as this user. */
  ghost predicate OnlineAs(w: World, name: string) { exists x :: IsAs(w, x, name) }

  predicate IsAs(w: World, x: int, name: string) {
    x in w.peers && w.peers[x].client.verified && w.peers[x].client.name == name
  }

  lemma OnlineIs(w: World, k: nat)
    requires Agree(w) && k < |w.server.users|
    ensures OnlineAs(w, w.server.users[k].name) <==> w.server.users[k].online
    ensures w.server.users[k].online ==>
              forall x :: IsAs(w, x, w.server.users[k].name) <==> x == w.server.users[k].fd
  {
    hide Agree, Search;
    var u := w.server.users[k];
    TableOf(w);
    SearchFinds(w.server.users, k);
    if u.online {
      OwnerOf(w, k);
      OwnRecord(w, u.fd, k);
      assert IsAs(w, u.fd, u.name);
    }
    forall x | IsAs(w, x, u.name) ensures u.online && x == u.fd {
      OwnRecord(w, x, k);
    }
  }

  predicate Somewhere(rooms: Rooms, name: string) { exists s :: s in rooms && name in rooms[s].members }

  lemma SomewhereIs(t: Table, k: nat)
    requires TableInv(t) && k < |t|
    ensures Somewhere(RoomsOf(t), t[k].name) <==> t[k].inSession
  {
    hide RoomsOf, Members, Admins;
    AtHome(t, k);
    RoomsAt(t);
    if s :| s in RoomsOf(t) && t[k].name in RoomsOf(t)[s].members {
      Own(t, k, s);
      SaneAt(t, k);
    }
  }

  // ----- kicking and promoting -----

  /** Why a user cannot be kicked out of session `home` or promoted in it: the first that
      applies. */
  ghost function Obstacle(w: World, home: string, target: string): string {
    var rooms := RoomsOf(w.server.users);
    if target !in Names(w.server.users) then "User does not exist!."
    else if !OnlineAs(w, target) then "User is not online!."
    else if !Somewhere(rooms, target) then "User is not in a session!."
    else if !In(rooms, home, target) then "User is in a different session!."
    else if target in rooms[home].admins then "Target User is an admin."
    else ""
  }

  lemma RefusalIsObstacle(w: World, fd: int, k: nat, target: string)
    requires Agree(w) && LoggedIn(w, fd, k) && w.peers[fd].client.session
    ensures Known(w.server, w.peers[fd].client.name)
    ensures Refusal(w.server, w.peers[fd].client.name, target) == Obstacle(w, Home(w, fd), target)
  {
    hide Agree, RoomsOf, Members, Admins, Search, TableInv, OnlineAs, Somewhere, Names;
    var t := w.server.users;
    OwnRecord(w, fd, k);
    AgreeTable(w);
    NameKnown(t, target);
    var j := Search(t, target);
    if j < |t| {
      OnlineIs(w, j);
      SomewhereIs(t, j);
      AtHome(t, j);
      AtHome(t, k);
      HomeOf(t, j, t[k].session);
    }
  }

  lemma HomeOf(t: Table, j: nat, home: string)
    requires TableInv(t) && j < |t| && home != NOT_IN_SESSION
    ensures In(RoomsOf(t), home, t[j].name) <==> t[j].session == home
  {
    hide RoomsOf, Members, Admins;
    RoomsAt(t);
    Own(t, j, home);
  }

  /** An admin has only plain members to kick or to promote: the last check of the chain
      never fails. */
  lemma NoOtherAdmin(w: World, fd: int, k: nat, target: string)
    requires Agree(w) && LoggedIn(w, fd, k) && w.peers[fd].client.session && w.peers[fd].client.role == Admin
    requires target != w.peers[fd].client.name
    ensures var rooms := RoomsOf(w.server.users);
            Home(w, fd) in rooms && rooms[Home(w, fd)].admins == {w.peers[fd].client.name}
    ensures Obstacle(w, Home(w, fd), target) != "Target User is an admin."
    ensures Obstacle(w, Home(w, fd), target) == "" <==> In(RoomsOf(w.server.users), Home(w, fd), target)
  {
    hide Agree, RoomsOf, Members, Admins, Search, TableInv, OnlineAs, Somewhere, Names, Refusal;
    OwnRecord(w, fd, k);
    AgreeTable(w);
    TheAdmin(w.server.users, k);
    RoomIsOk(w.server.users, k);
    RefusalIsObstacle(w, fd, k, target);
    RefusalMeans(w.server, w.peers[fd].client.name, target);
  }

  /** The client of an admin of a session who names somebody else. */
  predicate Commands(w: World, fd: int, target: string) {
    fd in w.peers && var c := w.peers[fd].client;
    c.verified && c.session && c.role == Admin && Token(target) && |target| < MAX_NAME && target != c.name
  }

  /** A refusal to fd alone. */
  lemma OneTold(r: Reply, x: int)
    ensures To([r], r.fd) == [r] && (x != r.fd ==> To([r], x) == [])
  {
    ToOne(r, x);
    ToOne(r, r.fd);
  }

  /** One message to the target and one to the sender. */
  lemma TwoTold(r1: Reply, r2: Reply, x: int)
    requires r1.fd != r2.fd
    ensures To([r1, r2], r2.fd) == [r2] && To([r1, r2], r1.fd) == [r1]
    ensures x != r1.fd && x != r2.fd ==> To([r1, r2], x) == []
  {
    hide To;
    ToTwo(r1, r2, x);
    ToTwo(r1, r2, r1.fd);
    ToTwo(r1, r2, r2.fd);
  }

  /** The sockets of a target that is not refused. */
  lemma TargetSocket(w: World, fd: int, k: nat, target: string)
    requires Agree(w) && LoggedIn(w, fd, k) && target != w.peers[fd].client.name
    requires Known(w.server, w.peers[fd].client.name) && Refusal(w.server, w.peers[fd].client.name, target) == ""
    ensures Known(w.server, target) && Find(w.server, target).name == target && Find(w.server, target).fd != fd
    ensures forall x :: IsAs(w, x, target) <==> x == Find(w.server, target).fd
  {
    hide Agree, IsAs, Search;
    OwnRecord(w, fd, k);
    OnlineIs(w, Search(w.server.users, target));
    if Find(w.server, target).fd == fd {
      OwnerOf(w, Search(w.server.users, target));
    }
  }

  lemma KickReplies(w: World, fd: int, k: nat, target: string)
    requires Agree(w) && LoggedIn(w, fd, k) && target != w.peers[fd].client.name
    requires Known(w.server, w.peers[fd].client.name)
    ensures var me := w.peers[fd].client.name;
            var why, out := Refusal(w.server, me, target), Kick(w.server, me, target).1;
            To(out, fd) == [if why == "" then Reply(fd, KI_ACK, me, target) else Reply(fd, KI_NAK, me, why)]
            && forall x :: x != fd ==>
                 To(out, x)
                 == if why == "" && IsAs(w, x, target) then [Reply(x, KI_MESSAGE, "server", Home(w, fd))] else []
  {
    hide Agree, Search, IsAs, To, Refusal;
    OwnRecord(w, fd, k);
    var me := w.peers[fd].client.name;
    var why, out := Refusal(w.server, me, target), Kick(w.server, me, target).1;
    if why == "" {
      TargetSocket(w, fd, k, target);
      TwoTold(out[0], out[1], fd);
      forall x | x != fd
        ensures To(out, x) == if IsAs(w, x, target) then [Reply(x, KI_MESSAGE, "server", Home(w, fd))] else []
      {
        TwoTold(out[0], out[1], x);
      }
    } else {
      forall x ensures x != fd ==> To(out, x) == [] { OneTold(out[0], x); }
      OneTold(out[0], fd);
    }
  }

  /** In every reachable state, an admin who kicks a user is told exactly one thing: that it
      was done, with the user's name, if and only if this user was in the session before and
      is not after; otherwise the first reason against it. The user's client is told from
      which session, and nobody else hears of it. */
  lemma KickAnswered(w: World, fd: int, target: string)
    requires Reachable(w) && Commands(w, fd, target)
    ensures var me, home, why := w.peers[fd].client.name, Home(w, fd), Obstacle(w, Home(w, fd), target);
            var out, before := Sent(w, fd, DoKick(target)), RoomsOf(w.server.users);
            var after := RoomsOf(Step(w, fd, DoKick(target)).server.users);
            To(out, fd) == [if why == "" then Reply(fd, KI_ACK, me, target) else Reply(fd, KI_NAK, me, why)]
            && (why == "" <==> In(before, home, target) && !In(after, home, target))
            && why != "Target User is an admin."
            && forall x :: x != fd ==>
                 To(out, x) == if why == "" && IsAs(w, x, target) then [Reply(x, KI_MESSAGE, "server", home)] else []
  {
    hide Agree, Reachable, RoomsOf, Search, Obstacle, Refusal, Handle, Step, IsAs, To, Kick;
    AlwaysAgree(w);
    var k, c := Search(w.server.users, w.peers[fd].client.name), w.peers[fd].client;
    OwnRecord(w, fd, k);
    AgreeTable(w);
    SentOne(w, fd, DoKick(target), Request(KICK, c.name, target));
    Dispatched(w.server, w.peers[fd].conn, fd, Request(KICK, c.name, target));
    NoOtherAdmin(w, fd, k, target);
    RefusalIsObstacle(w, fd, k, target);
    StepRefines(w, fd, DoKick(target));
    GoneAfterKick(RoomsOf(w.server.users), target, Home(w, fd));
    KickReplies(w, fd, k, target);
  }

  lemma GoneAfterKick(rooms: Rooms, user: string, home: string)
    requires home in rooms
    ensures !In(Kicked(rooms, user, home), home, user)
  {
  }

  lemma PromoteReplies(w: World, fd: int, k: nat, target: string)
    requires Agree(w) && LoggedIn(w, fd, k) && target != w.peers[fd].client.name
    requires Known(w.server, w.peers[fd].client.name)
    ensures var me := w.peers[fd].client.name;
            var why, out := Refusal(w.server, me, target), Promote(w.server, me, target).1;
            To(out, fd) == [if why == "" then Reply(fd, PM_ACK, me, target) else Reply(fd, PM_NAK, me, why)]
            && forall x :: x != fd ==>
                 To(out, x) == if why == "" && IsAs(w, x, target) then [Reply(x, PM_MESSAGE, "server", "")] else []
  {
    hide Agree, Search, IsAs, To, Refusal;
    OwnRecord(w, fd, k);
    var me := w.peers[fd].client.name;
    var why, out := Refusal(w.server, me, target), Promote(w.server, me, target).1;
    if why == "" {
      TargetSocket(w, fd, k, target);
      TwoTold(out[0], out[1], fd);
      forall x | x != fd ensures To(out, x) == if IsAs(w, x, target) then [Reply(x, PM_MESSAGE, "server", "")] else [] {
        TwoTold(out[0], out[1], x);
      }
    } else {
      forall x ensures x != fd ==> To(out, x) == [] { OneTold(out[0], x); }
      OneTold(out[0], fd);
    }
  }

  /** And one who promotes a user is told that it was done if and only if this user has the
      role afterwards; the user's client is told so. */
  lemma PromoteAnswered(w: World, fd: int, target: string)
    requires Reachable(w) && Commands(w, fd, target)
    ensures var me, home, why := w.peers[fd].client.name, Home(w, fd), Obstacle(w, Home(w, fd), target);
            var out, after := Sent(w, fd, DoPromote(target)), RoomsOf(Step(w, fd, DoPromote(target)).server.users);
            To(out, fd) == [if why == "" then Reply(fd, PM_ACK, me, target) else Reply(fd, PM_NAK, me, why)]
            && home in after && (why == "" <==> target in after[home].admins)
            && why != "Target User is an admin."
            && forall x :: x != fd ==>
                 To(out, x) == if why == "" && IsAs(w, x, target) then [Reply(x, PM_MESSAGE, "server", "")] else []
  {
    hide Agree, Reachable, RoomsOf, Search, Obstacle, Refusal, Handle, Step, IsAs, To, Promote;
    AlwaysAgree(w);
    var k, c := Search(w.server.users, w.peers[fd].client.name), w.peers[fd].client;
    OwnRecord(w, fd, k);
    AgreeTable(w);
    SentOne(w, fd, DoPromote(target), Request(PROMOTE, c.name, target));
    Dispatched(w.server, w.peers[fd].conn, fd, Request(PROMOTE, c.name, target));
    NoOtherAdmin(w, fd, k, target);
    RefusalIsObstacle(w, fd, k, target);
    StepRefines(w, fd, DoPromote(target));
    PromoteReplies(w, fd, k, target);
  }

  // ----- joining and creating -----

  /** A logged-in client in no session, and a session name that fits. */
  predicate CanEnter(w: World, fd: int, session: string) {
    fd in w.peers && w.peers[fd].client.verified && !w.peers[fd].client.session
    && Token(session) && |session| < MAX_SESSION_LENGTH
  }

  lemma CountsAre(w: World, session: string)
    requires Agree(w) && session != NOT_IN_SESSION
    ensures var rooms := RoomsOf(w.server.users);
            Count(w.server.users, session) == if session in rooms then |rooms[session].members| else 0
    ensures session in RoomsOf(w.server.users) ==> |RoomsOf(w.server.users)[session].members| > 0
  {
    hide Agree, RoomsOf, Members, Admins;
    TableOf(w);
    RoomsAt(w.server.users);
    CountIsMembers(w.server.users, session);
  }

  lemma EntersOnly(rooms: Rooms, user: string, s: string)
    ensures In(Opened(rooms, user, s), s, user)
    ensures s in rooms ==> In(Joined(rooms, user, s), s, user)
  {
  }

  /** Where a user in no session is. */
  lemma NotIn(w: World, fd: int, k: nat, session: string)
    requires Agree(w) && LoggedIn(w, fd, k) && !w.peers[fd].client.session && session != NOT_IN_SESSION
    ensures !In(RoomsOf(w.server.users), session, w.peers[fd].client.name) && Home(w, fd) == NOT_IN_SESSION
  {
    hide Agree, RoomsOf, Search, TableInv;
    OwnRecord(w, fd, k);
    AgreeTable(w);
    HomeOf(w.server.users, k, session);
  }

  /** In every reachable state, whoever asks to join is told exactly one thing: that it was
      done if and only if they are in the session afterwards, and otherwise whether the
      session does not exist or has six members. Nobody else hears of it. */
  lemma JoinAnswered(w: World, fd: int, session: string)
    requires Reachable(w) && CanEnter(w, fd, session)
    ensures var me, out, before := w.peers[fd].client.name, Sent(w, fd, DoJoin(session)), RoomsOf(w.server.users);
            var after := RoomsOf(Step(w, fd, DoJoin(session)).server.users);
            out == [if session !in before then Reply(fd, JN_NAK, me, "Session name is not found!.")
                    else if |before[session].members| == 6 then
                      Reply(fd, JN_NAK, me, "Session you tried to join was full!.")
                    else Reply(fd, JN_ACK, me, session)]
            && (out[0].kind == JN_ACK <==> In(after, session, me))
  {
    hide Agree, Reachable, RoomsOf, Search, Handle, Step, Count;
    AlwaysAgree(w);
    var k, c := Search(w.server.users, w.peers[fd].client.name), w.peers[fd].client;
    OwnRecord(w, fd, k);
    AgreeTable(w);
    assert session != NOT_IN_SESSION;
    SentOne(w, fd, DoJoin(session), Request(JOIN, c.name, session));
    Dispatched(w.server, w.peers[fd].conn, fd, Request(JOIN, c.name, session));
    CountsAre(w, session);
    NotIn(w, fd, k, session);
    RoomBound(w, session);
    EntersOnly(RoomsOf(w.server.users), c.name, session);
    StepRefines(w, fd, DoJoin(session));
  }

  lemma RoomBound(w: World, session: string)
    requires Agree(w)
    ensures session in RoomsOf(w.server.users) ==> |RoomsOf(w.server.users)[session].members| <= MAX_SESSION_USER
  {
    hide Agree, RoomsOf;
    TableOf(w);
  }

  /** And whoever asks to create one is told that it was done if and only if no session had
      this name. */
  lemma CreateAnswered(w: World, fd: int, session: string)
    requires Reachable(w) && CanEnter(w, fd, session)
    ensures var me, out, before := w.peers[fd].client.name, Sent(w, fd, DoCreate(session)), RoomsOf(w.server.users);
            var after := RoomsOf(Step(w, fd, DoCreate(session)).server.users);
            out == [if session in before then Reply(fd, NEW_SESS, me, "Session already exists!.")
                    else Reply(fd, NS_ACK, me, session)]
            && (out[0].kind == NS_ACK <==> In(after, session, me))
  {
    hide Agree, Reachable, RoomsOf, Search, Handle, Step, Count;
    AlwaysAgree(w);
    var k, c := Search(w.server.users, w.peers[fd].client.name), w.peers[fd].client;
    OwnRecord(w, fd, k);
    AgreeTable(w);
    assert session != NOT_IN_SESSION;
    SentOne(w, fd, DoCreate(session), Request(NEW_SESS, c.name, session));
    Dispatched(w.server, w.peers[fd].conn, fd, Request(NEW_SESS, c.name, session));
    CountsAre(w, session);
    NotIn(w, fd, k, session);
    EntersOnly(RoomsOf(w.server.users), c.name, session);
    StepRefines(w, fd, DoCreate(session));
  }

  // ----- lists -----

  /** Whoever asks for the list of a session gets it if and only if the session exists. */
  lemma UserListAnswered(w: World, fd: int, session: string)
    requires Reachable(w) && fd in w.peers && w.peers[fd].client.verified && Token(session)
    ensures var me, out, rooms := w.peers[fd].client.name, Sent(w, fd, DoUserList(session)), RoomsOf(w.server.users);
            |out| == 1 && out[0].fd == fd && out[0].source == me
            && if session in rooms then out[0].kind == SQ_ACK && ShowsRoom(out[0].data, session, rooms[session])
               else out[0].kind == SQ_NAK && out[0].data == "Session name is not found!."
  {
    hide Agree, Reachable, RoomsOf, Search, Step, Count, SessionList, ShowsRoom;
    AlwaysAgree(w);
    var c := w.peers[fd].client;
    OwnRecord(w, fd, Search(w.server.users, c.name));
    AgreeTable(w);
    assert session != NOT_IN_SESSION;
    SentOne(w, fd, DoUserList(session), Request(SESS_QUERY, c.name, session));
    QueryExact(w, c.name, session, fd);
    if session in RoomsOf(w.server.users) { ListExact(w, session); }
  }

  /** And whoever asks for the list of all users online gets that. */
  lemma ListAnswered(w: World, fd: int)
    requires Reachable(w) && fd in w.peers && w.peers[fd].client.verified
    ensures var out := Sent(w, fd, DoList);
            |out| == 1 && out[0].fd == fd && out[0].kind == QU_ACK && out[0].source == w.peers[fd].client.name
            && ShowsUsers(out[0].data, Present(w))
  {
    hide Agree, Reachable, Search, Step, OnlineList, ShowsUsers, Present;
    AlwaysAgree(w);
    var c := w.peers[fd].client;
    OwnRecord(w, fd, Search(w.server.users, c.name));
    AgreeTable(w);
    SentOne(w, fd, DoList, Request(QUERY, c.name, ""));
    OnlineListExact(w);
  }

  // ----- leaving -----

  predicate AdminSocket(t: Table, x: int) { exists i :: 0 <= i < |t| && t[i].role == Admin && t[i].fd == x }

  lemma OneMoreAdmin(t: Table, x: int)
    requires t != []
    ensures var n := |t| - 1;
            AdminSocket(t, x) <==> AdminSocket(t[..n], x) || (t[n].role == Admin && t[n].fd == x)
  {
    var n := |t| - 1;
    if i :| 0 <= i < |t| && t[i].role == Admin && t[i].fd == x { assert i < n ==> t[..n][i] == t[i]; }
    if i :| 0 <= i < n && t[..n][i].role == Admin && t[..n][i].fd == x { assert t[i] == t[..n][i]; }
  }

  predicate AdminSocketsDiffer(t: Table) {
    forall i, j :: 0 <= i < j < |t| && t[i].role == Admin && t[j].role == Admin ==> t[i].fd != t[j].fd
  }

  lemma LastDiffers(t: Table)
    requires AdminSocketsDiffer(t) && t != []
    ensures AdminSocketsDiffer(t[..|t| - 1])
    ensures t[|t| - 1].role == Admin ==> !AdminSocket(t[..|t| - 1], t[|t| - 1].fd)
  {
    assert forall i :: 0 <= i < |t| - 1 ==> t[..|t| - 1][i] == t[i];
  }

  lemma ToOneMore(out: seq<Reply>, r: Reply, x: int)
    ensures To(out + [r], x) == To(out, x) + (if r.fd == x then [r] else [])
  {
    assert (out + [r])[..|out|] == out;
  }

  /** What an admin at socket x is told after somebody left. */
  lemma {:induction false} NoticesTo(t: Table, x: int)
    requires AdminSocketsDiffer(t)
    ensures To(AdminNotices(t), x) == if AdminSocket(t, x) then [Reply(x, PM_MESSAGE, "server", "")] else []
  {
    hide AdminSocket, AdminSocketsDiffer, To;
    if t == [] {
      NoNotices(x);
    } else {
      var n := |t| - 1;
      LastDiffers(t);
      NoticesTo(t[..n], x);
      OneMoreAdmin(t, x);
      if t[n].role == Admin {
        ToOneMore(AdminNotices(t[..n]), Reply(t[n].fd, PM_MESSAGE, "server", ""), x);
      } else {
        assert AdminNotices(t) == AdminNotices(t[..n]);
      }
    }
  }

  lemma NoNotices(x: int)
    ensures To(AdminNotices([]), x) == [] && !AdminSocket([], x)
  {
  }

  predicate HasRole(w: World, x: int) { x in w.peers && w.peers[x].client.verified && w.peers[x].client.role == Admin }

  /** The admins of a table, when v is the state that follows. */
  lemma AdminsTold(v: World, t: Table, x: int)
    requires Agree(v) && |t| == |v.server.users|
    requires forall i :: 0 <= i < |t| ==>
               t[i].role == v.server.users[i].role && (t[i].role == Admin ==> t[i].fd == v.server.users[i].fd)
    ensures To(AdminNotices(t), x) == if HasRole(v, x) then [Reply(x, PM_MESSAGE, "server", "")] else []
  {
    hide Agree, Search, AdminNotices, To;
    TableOf(v);
    forall i, j | 0 <= i < j < |t| && t[i].role == Admin && t[j].role == Admin ensures t[i].fd != t[j].fd {
      OwnerOf(v, i);
      OwnerOf(v, j);
    }
    NoticesTo(t, x);
    if i :| 0 <= i < |t| && t[i].role == Admin && t[i].fd == x {
      OwnerOf(v, i);
    }
    if HasRole(v, x) {
      var k := Search(v.server.users, v.peers[x].client.name);
      OwnRecord(v, x, k);
      assert t[k].role == Admin && t[k].fd == x;
    }
  }

  lemma SignedOffRoles(t: Table, k: nat)
    requires k < |t| && t[k].role == Ordinary
    ensures |SignedOff(t, k)| == |t|
    ensures forall i :: 0 <= i < |t| ==>
              SignedOff(t, k)[i].role == t[i].role && (t[i].role == Admin ==> SignedOff(t, k)[i].fd == t[i].fd)
  {
  }

  /** What a user who leaves a session, logs out of it or dies in it makes the server say:
      what is said when they leave. */
  lemma GoneSays(w: World, fd: int, k: nat, cmd: Command)
    requires Agree(w) && LoggedIn(w, fd, k) && w.peers[fd].client.session
    requires cmd.DoLeave? || cmd.DoLogout? || cmd.Crash?
    ensures k < |w.server.users|
    ensures var t := ExitSession(w.server.users, k);
            Sent(w, fd, cmd) == AdminNotices(t) && t[k] == Outside(w.server.users[k])
            && Step(w, fd, cmd).server.users == if cmd.DoLeave? then t else SignedOff(t, k)
  {
    hide Agree, TableInv, Search, ExitSession, AdminNotices, Delivered, Leave;
    OwnRecord(w, fd, k);
    AgreeTable(w);
    LeaveHandled(w, fd, k);
    ExitedRecord(w.server.users, k);
    LeaveKeeps(w.server, w.peers[fd].client.name);
    if cmd.DoLeave? {
      SentOne(w, fd, cmd, Request(LEAVE_SESS, w.peers[fd].client.name, ""));
      LeaveStep(w, fd, k);
    } else if cmd.DoLogout? {
      LogoutSays(w, fd, k);
    } else {
      CrashSays(w, fd, k);
    }
  }

  lemma LogoutSays(w: World, fd: int, k: nat)
    requires Agree(w) && LoggedIn(w, fd, k) && w.peers[fd].client.session && k < |w.server.users|
    ensures var t := ExitSession(w.server.users, k);
            Sent(w, fd, DoLogout) == AdminNotices(t) && Step(w, fd, DoLogout).server.users == SignedOff(t, k)
  {
    hide Agree, TableInv, Search, ExitSession, AdminNotices, Delivered, Handle, Leave, Step;
    var c, conn := w.peers[fd].client, w.peers[fd].conn;
    OwnRecord(w, fd, k);
    AgreeTable(w);
    LeaveHandled(w, fd, k);
    AfterLeave(w, fd, k);
    OwnRecord(Step(w, fd, DoLeave), fd, k);
    LeaveKeeps(w.server, c.name);
    var s1 := w.server.(users := ExitSession(w.server.users, k));
    var q1, q2 := Request(LEAVE_SESS, c.name, ""), Request(EXIT, c.name, "");
    LeaveIs(w, fd, k);
    LogoutRequests(w, fd, k, s1, AdminNotices(s1.users));
    ExitSilent(s1, conn, fd, k, q2);
    HandlePair(w.server, conn, fd, q1, q2);
    assert Obey(c, DoLogout).1 == [q1, q2];
    assert AdminNotices(s1.users) + [] == AdminNotices(s1.users);
  }

  lemma LeaveIs(w: World, fd: int, k: nat)
    requires Agree(w) && LoggedIn(w, fd, k) && w.peers[fd].client.session && k < |w.server.users|
    ensures Known(w.server, w.peers[fd].client.name)
    ensures Leave(w.server, w.peers[fd].client.name)
         == (w.server.(users := ExitSession(w.server.users, k)), AdminNotices(ExitSession(w.server.users, k)))
  {
    hide Agree, Search, ExitSession, AdminNotices, TableInv;
    OwnRecord(w, fd, k);
  }

  lemma ExitSilent(s: Server, conn: Conn, fd: int, k: nat, q: Request)
    requires ServerOk(s) && q.kind == EXIT && Search(s.users, conn.source) == k < |s.users| && !s.users[k].inSession
    ensures Handle(s, conn, fd, q).2 == []
  {
    hide Search;
  }

  lemma CrashSays(w: World, fd: int, k: nat)
    requires Agree(w) && LoggedIn(w, fd, k) && w.peers[fd].client.session && k < |w.server.users|
    ensures var t := ExitSession(w.server.users, k);
            Sent(w, fd, Crash) == AdminNotices(t) && Step(w, fd, Crash).server.users == SignedOff(t, k)
  {
    hide Agree, TableInv, Search, ExitSession, AdminNotices, Delivered, Leave, UserExit;
    OwnRecord(w, fd, k);
    AgreeTable(w);
    PeerAt(w, fd);
    LeaveIs(w, fd, k);
    UserExitInTwo(w.server, w.peers[fd].client.name);
  }

  /** In every reachable state, when a user leaves a session, logs out of it or dies in it,
      each client whose user is an admin afterwards is told so once, in any session, and
      nobody else is told anything. */
  lemma LeaveAnswered(w: World, fd: int, cmd: Command, x: int)
    requires Reachable(w) && fd in w.peers && w.peers[fd].client.verified && w.peers[fd].client.session
    requires cmd.DoLeave? || cmd.DoLogout? || cmd.Crash?
    ensures To(Sent(w, fd, cmd), x)
         == if HasRole(Step(w, fd, cmd), x) then [Reply(x, PM_MESSAGE, "server", "")] else []
  {
    hide Agree, Reachable, Search, Step, Sent, To, AdminNotices, ExitSession, HasRole, SignedOff;
    AlwaysAgree(w);
    var k := Search(w.server.users, w.peers[fd].client.name);
    GoneSays(w, fd, k, cmd);
    StepAgrees(w, fd, cmd);
    SignedOffRoles(ExitSession(w.server.users, k), k);
    AdminsTold(Step(w, fd, cmd), ExitSession(w.server.users, k), x);
  }
}
