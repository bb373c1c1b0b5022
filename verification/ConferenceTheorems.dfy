// What agreement gives: the clients' guards discharge the handlers' unchecked
// preconditions, every run is a run of the abstract sessions, and messages and lists
// reach and show exactly the members.
module ConferenceTheorems {
  import opened Users
  import opened Sessions
  import opened RoomMoves
  import opened SessionProof
  import opened Conference
  import opened ConferenceProof
  import opened ConferenceSteps

  // ----- the guards -----

  /** What the handler of a request relies on but does not check. */
  predicate Expected(s: Server, source: string, q: Request) {
    if q.kind == LOGIN || q.kind == CREATE then true
    else
      Known(s, source) && q.source == source &&
      var u := Find(s, source);
      if q.kind == NEW_SESS then !u.inSession && u.session == NOT_IN_SESSION
      else if q.kind == LEAVE_SESS || q.kind == MESSAGE then u.inSession && u.session != NOT_IN_SESSION
      else if q.kind == KICK || q.kind == PROMOTE then
        u.inSession && u.role == Admin && q.data != source
      else true
  }

  /** In every reachable state, the first request of any command satisfies what its
      handler relies on: creating in no session, leaving and talking in one, kicking and
      promoting as its admin. A logout sends its EXIT from the state after the leave. */
  lemma GuardsDischarge(w: World, fd: int, cmd: Command)
    requires Reachable(w) && fd in w.peers && CommandOk(cmd)
    requires Obey(w.peers[fd].client, cmd).1 != []
    ensures Expected(w.server, w.peers[fd].conn.source, Obey(w.peers[fd].client, cmd).1[0])
    ensures cmd.DoLogout? && w.peers[fd].client.session ==>
              Expected(Step(w, fd, DoLeave).server, w.peers[fd].conn.source, Obey(w.peers[fd].client, cmd).1[1])
  {
    hide Agree, Step, Search;
    AlwaysAgree(w);
    if w.peers[fd].client.verified {
      var k := Search(w.server.users, w.peers[fd].client.name);
      OwnRecord(w, fd, k);
      if cmd.DoLogout? && w.peers[fd].client.session {
        AfterLeave(w, fd, k);
        OwnRecord(Step(w, fd, DoLeave), fd, k);
      }
    } else {
      PeerAt(w, fd);
    }
  }

  // ----- why the guards are needed -----

  /** Without the client's guard, the kick handler would break the rule that a sole member
      is the admin exactly when a plain member kicks the only other one. */
  lemma KickNeedsGuard(s: Server, sender: string, target: string)
    requires TableInv(s.users) && Known(s, sender) && target != sender && Refusal(s, sender, target) == ""
    ensures TableInv(Kick(s, sender, target).0.users)
       <==> Find(s, sender).role == Admin || Count(s.users, Find(s, sender).session) > 2
  {
    hide Members, Admins, RoomsOf, Count;
    var t, k, j := s.users, Search(s.users, target), Search(s.users, sender);
    var home := t[k].session;
    var t' := t[k := Outside(t[k])];
    assert Kick(s, sender, target).0.users == t';
    KickedRefines(t, k, j);
    RoomIsOk(t, k);
    CountIsMembers(t, home);
    Own(t, j, home);
    Own(t, k, home);
    var r := RoomsOf(t)[home];
    PairKicked(r, target, sender);
    if t[j].role == Admin {
      TheAdmin(t, j);
    } else if TableInv(t') {
      assert home in RoomsOf(t') && RoomOk(RoomsOf(t')[home]);
    }
  }

  lemma PairKicked(r: Room, target: string, sender: string)
    requires RoomOk(r) && target in r.members && sender in r.members && target != sender
    requires target !in r.admins
    ensures |r.members - {target}| == |r.members| - 1
    ensures RoomOk(Room(r.members - {target}, r.admins)) <==> sender in r.admins || |r.members| > 2
  {
    var rest := r.members - {target};
    assert r.members == rest + {target} && sender in rest;
    if |rest| == 1 { OnlyOne(rest, sender); }
    if sender in r.admins { OnlyOne(r.admins, sender); }
  }

  lemma OnlyOne(s: set<string>, x: string)
    requires x in s && |s| <= 1
    ensures s == {x}
  {
    assert s == {x} + (s - {x});
    assert |s - {x}| == 0;
  }

  /** And the promote handler would leave a session with two admins exactly when the
      session has an admin other than the sender. */
  lemma PromoteNeedsGuard(s: Server, sender: string, target: string)
    requires TableInv(s.users) && Known(s, sender) && target != sender && Refusal(s, sender, target) == ""
    ensures TableInv(Promote(s, sender, target).0.users)
       <==> Admins(s.users, Find(s, sender).session) <= {sender}
  {
    hide Members, Admins, RoomsOf, Count;
    var t, k, j := s.users, Search(s.users, target), Search(s.users, sender);
    var home := t[k].session;
    var t' := RolesChanged(t, j, k);
    assert Promote(s, sender, target).0.users == t';
    PromotedRefines(t, j, k);
    RoomIsOk(t, k);
    Own(t, j, home);
    Own(t, k, home);
    var r := RoomsOf(t)[home];
    OthersPromoted(r, sender, target);
    if TableInv(t') {
      assert home in RoomsOf(t') && RoomOk(RoomsOf(t')[home]);
    }
  }

  lemma OthersPromoted(r: Room, sender: string, target: string)
    requires RoomOk(r) && target in r.members && sender in r.members && target != sender
    requires target !in r.admins
    ensures RoomOk(Room(r.members, r.admins - {sender} + {target})) <==> r.admins <= {sender}
  {
    CardinalityOfSubset({sender, target}, r.members);
    if r.admins <= {sender} {
      assert r.admins - {sender} + {target} == {target};
    } else {
      var x :| x in r.admins && x != sender;
      CardinalityOfSubset({x, target}, r.admins - {sender} + {target});
    }
  }

  /** And the create handler, used from within a session, would move its user and give
      nobody else the role: it breaks the rules exactly when the session has one other
      member, who is not its admin. */
  lemma CreateNeedsGuard(s: Server, name: string, session: string)
    requires TableInv(s.users) && Known(s, name) && Find(s, name).inSession
    requires session != NOT_IN_SESSION && |session| < MAX_SESSION_LENGTH && Count(s.users, session) == 0
    ensures var home := Find(s, name).session;
            TableInv(Create(s, name, session).0.users)
            <==> Count(s.users, home) != 2 || Admins(s.users, home) == Members(s.users, home) - {name}
  {
    hide Members, Admins, RoomsOf, Count, Opened, TableInv;
    var t, k := s.users, Search(s.users, name);
    var home, t' := t[k].session, t[k := t[k].(session := session, inSession := true, role := Admin)];
    assert Create(s, name, session).0.users == t';
    InTable(t, k);
    CountIsMembers(t, home);
    RoomIsOk(t, k);
    Own(t, k, home);
    CreatedFromWithin(t, k, session);
    OneDropped(RoomsOf(t)[home], name);
    RoomsOkAfterDrop(RoomsOf(t), home, name, session);
  }

  lemma InTable(t: Table, k: nat)
    requires TableInv(t) && k < |t|
    ensures UniqueNames(t) && Sane(t[k])
  {
  }

  /** The sessions after a user is taken out of one. */
  function Dropped(rooms: Rooms, home: string, user: string): Rooms
    requires home in rooms
  {
    var rest := rooms[home].members - {user};
    if rest == {} then rooms - {home} else rooms[home := Room(rest, rooms[home].admins - {user})]
  }

  lemma CreatedFromWithin(t: Table, k: nat, session: string)
    requires TableInv(t) && k < |t| && t[k].inSession
    requires session != NOT_IN_SESSION && |session| < MAX_SESSION_LENGTH && Count(t, session) == 0
    ensures var t' := t[k := t[k].(session := session, inSession := true, role := Admin)];
            t[k].session in RoomsOf(t) && session !in RoomsOf(t) && RoomsOk(RoomsOf(t))
            && (TableInv(t') <==> RoomsOk(Opened(Dropped(RoomsOf(t), t[k].session, t[k].name), t[k].name, session)))
  {
    hide Members, Admins, RoomsOf, Count, Opened;
    var t1 := t[k := Outside(t[k])];
    SaneAt(t, k);
    CountIsMembers(t, session);
    Own(t, k, session);
    DroppedRefines(t, k);
    MoveOut(t, k, session);
    CountIsMembers(t1, session);
    OpenedRefines(t1, k, session);
    var t' := t[k := t[k].(session := session, inSession := true, role := Admin)];
    assert Moved(t1, k, session, true, Admin) == t';
    RecordRewritten(t, k, t'[k], session);
    RoomsAt(t);
  }

  lemma RoomsOkAfterDrop(rooms: Rooms, home: string, user: string, session: string)
    requires RoomsOk(rooms) && home in rooms && session !in rooms
    ensures var rest := Room(rooms[home].members - {user}, rooms[home].admins - {user});
            RoomsOk(Opened(Dropped(rooms, home, user), user, session)) <==> rest.members == {} || RoomOk(rest)
  {
    var after := Opened(Dropped(rooms, home, user), user, session);
    assert after[session] == Room({user}, {user});
    assert rooms[home].members - {user} != {} ==> home in after;
  }

  lemma OneDropped(r: Room, user: string)
    requires RoomOk(r) && user in r.members
    ensures r.members == {user} || |r.members| >= 2
    ensures r.members != {user} ==>
              (RoomOk(Room(r.members - {user}, r.admins - {user}))
               <==> |r.members| != 2 || r.admins == r.members - {user})
  {
    var rest := r.members - {user};
    assert r.members == rest + {user};
    assert |r.members| == |rest| + 1;
    if |rest| == 1 {
      var x :| x in rest;
      OnlyOne(rest, x);
      if x in r.admins { OnlyOne(r.admins, x); }
    }
    if r.members != {user} { assert rest != {}; }
  }

  /** The sessions after a user is taken out of one and nothing else is done. */
  lemma DroppedRefines(t: Table, k: nat)
    requires UniqueNames(t) && k < |t| && t[k].session != NOT_IN_SESSION
    ensures var rooms, home, t' := RoomsOf(t), t[k].session, t[k := Outside(t[k])];
            home in rooms && UniqueNames(t')
            && RoomsOf(t') == Dropped(rooms, home, t[k].name)
  {
    hide Members, Admins, RoomsOf;
    var home, t' := t[k].session, t[k := Outside(t[k])];
    RoomsAt(t);
    Own(t, k, home);
    MoveOut(t, k, home);
    forall x | x != NOT_IN_SESSION
      ensures Members(t', x) == Members(t, x) - (if x == home then {t[k].name} else {})
      ensures Admins(t', x) == Admins(t, x) - (if x == home then {t[k].name} else {})
    {
      MoveOut(t, k, x);
    }
    RoomsAre(t', Dropped(RoomsOf(t), home, t[k].name));
  }

  // ----- every run is a run of the abstract sessions -----

  /** The session a logged-in client is in. */
  function Home(w: World, fd: int): string
    requires fd in w.peers
  {
    var c := w.peers[fd].client;
    if c.verified && Known(w.server, c.name) then Find(w.server, c.name).session else NOT_IN_SESSION
  }

  predicate In(rooms: Rooms, s: string, user: string) { s in rooms && user in rooms[s].members }

  /** The meaning of a command: what it does to the sessions, said in terms of sessions,
      members and admins alone. */
  function Meaning(rooms: Rooms, c: Client, home: string, cmd: Command): Rooms {
    if !c.verified then rooms
    else
      match cmd
      case DoCreate(s) =>
        if home == NOT_IN_SESSION && Fits(s, MAX_SESSION_LENGTH) && s !in rooms then Opened(rooms, c.name, s) else rooms
      case DoJoin(s) =>
        if home == NOT_IN_SESSION && Fits(s, MAX_SESSION_LENGTH) && s in rooms && |rooms[s].members| < MAX_SESSION_USER
        then Joined(rooms, c.name, s) else rooms
      case DoLeave => if In(rooms, home, c.name) then Left(rooms, c.name, home) else rooms
      case DoLogout => if In(rooms, home, c.name) then Left(rooms, c.name, home) else rooms
      case Crash => if In(rooms, home, c.name) then Left(rooms, c.name, home) else rooms
      case DoKick(v) =>
        if In(rooms, home, v) && c.name in rooms[home].admins && v != c.name && Fits(v, MAX_NAME)
        then Kicked(rooms, v, home) else rooms
      case DoPromote(v) =>
        if In(rooms, home, v) && c.name in rooms[home].admins && v != c.name && Fits(v, MAX_NAME)
        then Promoted(rooms, c.name, v, home) else rooms
      case _ => rooms
  }

  /** A record and the room it belongs to. */
  lemma AtHome(t: Table, k: nat)
    requires TableInv(t) && k < |t|
    ensures var rooms := RoomsOf(t);
            var home := t[k].session;
            (t[k].inSession <==> In(rooms, home, t[k].name))
            && (t[k].inSession ==> (t[k].name in rooms[home].admins <==> t[k].role == Admin))
  {
    hide Members, Admins, RoomsOf;
    RoomsAt(t);
    Own(t, k, t[k].session);
    SaneAt(t, k);
  }

  /** The chain of checks in kick and promote amounts to one thing: the target is a plain
      member of the sender's session. */
  lemma RefusalMeans(s: Server, sender: string, target: string)
    requires TableInv(s.users) && Known(s, sender) && Find(s, sender).inSession
    ensures var rooms := RoomsOf(s.users);
            var home := Find(s, sender).session;
            home in rooms
            && (Refusal(s, sender, target) == ""
                <==> target in rooms[home].members && target !in rooms[home].admins)
  {
    hide Members, Admins, RoomsOf;
    var t, home := s.users, Find(s, sender).session;
    RoomIsOk(t, Search(t, sender));
    SaneAt(t, Search(t, sender));
    var k := Search(t, target);
    if k < |t| {
      Own(t, k, home);
      SaneAt(t, k);
    } else {
      NoMember(t, target, home);
    }
  }

  lemma NoMember(t: Table, name: string, session: string)
    requires Search(t, name) == |t|
    ensures name !in Members(t, session)
  {
  }

  lemma LeaveRefines(s: Server, k: nat)
    requires TableInv(s.users) && k < |s.users| && k == Search(s.users, s.users[k].name)
    ensures var u := s.users[k];
            var rooms := RoomsOf(s.users);
            RoomsOf((if u.inSession then Leave(s, u.name).0 else s).users)
            == if In(rooms, u.session, u.name) then Left(rooms, u.name, u.session) else rooms
  {
    hide RoomsOf, Left, In, Leave;
    AtHome(s.users, k);
    if s.users[k].inSession { LeaveKeeps(s, s.users[k].name); }
  }

  lemma ExitRefines(s: Server, k: nat)
    requires TableInv(s.users) && k < |s.users| && k == Search(s.users, s.users[k].name)
    ensures var u := s.users[k];
            var rooms := RoomsOf(s.users);
            RoomsOf(UserExit(s, u.name).0.users)
            == if In(rooms, u.session, u.name) then Left(rooms, u.name, u.session) else rooms
  {
    hide RoomsOf, Left, In, UserExit;
    AtHome(s.users, k);
    UserExitKeeps(s, s.users[k].name);
  }

  /** What a command leaves of the server, in terms of the handlers. */
  lemma ServerAfter(w: World, fd: int, k: nat, cmd: Command, q: Request)
    requires Agree(w) && LoggedIn(w, fd, k) && !cmd.Crash?
    requires Obey(w.peers[fd].client, cmd).1 == [q]
    ensures Step(w, fd, cmd).server == Handle(w.server, w.peers[fd].conn, fd, q).0
  {
    hide Agree, Step, Handle, Obey;
    StepOne(w, fd, cmd, Obey(w.peers[fd].client, cmd).0, q);
  }

  lemma CreateRefines(w: World, fd: int, k: nat, session: string)
    requires Agree(w) && LoggedIn(w, fd, k) && Token(session)
    ensures RoomsOf(Step(w, fd, DoCreate(session)).server.users)
         == Meaning(RoomsOf(w.server.users), w.peers[fd].client, Home(w, fd), DoCreate(session))
  {
    hide Agree, TableInv, Step, Search, RoomsOf, Opened, Count;
    OwnRecord(w, fd, k);
    AgreeTable(w);
    var c := w.peers[fd].client;
    if !Fits(session, MAX_SESSION_LENGTH) || c.session {
      StepNone(w, fd, DoCreate(session));
    } else {
      ServerAfter(w, fd, k, DoCreate(session), Request(NEW_SESS, c.name, session));
      CreateKeeps(w.server, c.name, session);
    }
  }

  lemma JoinRefines(w: World, fd: int, k: nat, session: string)
    requires Agree(w) && LoggedIn(w, fd, k) && Token(session)
    ensures RoomsOf(Step(w, fd, DoJoin(session)).server.users)
         == Meaning(RoomsOf(w.server.users), w.peers[fd].client, Home(w, fd), DoJoin(session))
  {
    hide Agree, Step, Search, RoomsOf, Joined, Count;
    OwnRecord(w, fd, k);
    AgreeTable(w);
    var c := w.peers[fd].client;
    if !Fits(session, MAX_SESSION_LENGTH) || c.session {
      StepNone(w, fd, DoJoin(session));
    } else {
      ServerAfter(w, fd, k, DoJoin(session), Request(JOIN, c.name, session));
      JoinKeeps(w.server, c.name, session);
      assert session in RoomsOf(w.server.users) ==> RoomOk(RoomsOf(w.server.users)[session]);
    }
  }

  lemma GoneRefines(w: World, fd: int, k: nat, cmd: Command)
    requires Agree(w) && LoggedIn(w, fd, k) && (cmd.DoLeave? || cmd.DoLogout? || cmd.Crash?)
    ensures RoomsOf(Step(w, fd, cmd).server.users)
         == Meaning(RoomsOf(w.server.users), w.peers[fd].client, Home(w, fd), cmd)
  {
    hide Agree, TableInv, Search, RoomsOf, Left, In, UserExit, Leave, ExitSession, Delivered;
    OwnRecord(w, fd, k);
    AgreeTable(w);
    LeaveRefines(w.server, k);
    ExitRefines(w.server, k);
    var c := w.peers[fd].client;
    if cmd.DoLeave? {
      if c.session { ServerAfter(w, fd, k, cmd, Request(LEAVE_SESS, c.name, "")); } else { StepNone(w, fd, cmd); }
    } else if cmd.Crash? {
      PeerAt(w, fd);
    } else if c.session {
      AfterLeave(w, fd, k);
      var w1 := Step(w, fd, DoLeave);
      OwnRecord(w1, fd, k);
      LeaveKeeps(w.server, c.name);
      AgreeTable(w1);
      LogoutRequests(w, fd, k, w1.server, Leave(w.server, c.name).1);
      SignOffKeeps(w1.server.users, k);
    } else {
      assert Obey(c, cmd).1 == [Request(EXIT, c.name, "")];
      ServerAfter(w, fd, k, cmd, Request(EXIT, c.name, ""));
    }
  }

  lemma AdminRefines(w: World, fd: int, k: nat, cmd: Command)
    requires Agree(w) && LoggedIn(w, fd, k) && (cmd.DoKick? || cmd.DoPromote?)
    ensures RoomsOf(Step(w, fd, cmd).server.users)
         == Meaning(RoomsOf(w.server.users), w.peers[fd].client, Home(w, fd), cmd)
  {
    hide Agree, TableInv, Step, Search, RoomsOf, Kicked, Promoted, Refusal, Admins, Members;
    OwnRecord(w, fd, k);
    AgreeTable(w);
    AtHome(w.server.users, k);
    var c := w.peers[fd].client;
    if !c.session || c.role == Ordinary || !Fits(cmd.target, MAX_NAME) || cmd.target == c.name {
      StepNone(w, fd, cmd);
      RoomsAt(w.server.users);
    } else {
      RefusalMeans(w.server, c.name, cmd.target);
      TheAdmin(w.server.users, k);
      RoomIsOk(w.server.users, k);
      if cmd.DoKick? {
        ServerAfter(w, fd, k, cmd, Request(KICK, c.name, cmd.target));
        KickKeeps(w.server, c.name, cmd.target);
      } else {
        ServerAfter(w, fd, k, cmd, Request(PROMOTE, c.name, cmd.target));
        PromoteKeeps(w.server, c.name, cmd.target);
      }
    }
  }

  lemma SignOnRefines(w: World, fd: int, cmd: Command)
    requires Agree(w) && fd in w.peers && (cmd.DoLogin? || cmd.DoRegister?)
    ensures RoomsOf(Step(w, fd, cmd).server.users) == RoomsOf(w.server.users)
  {
    hide Agree, TableInv, Step, RoomsOf;
    AgreeTable(w);
    PeerAt(w, fd);
    var (c, qs) := Obey(w.peers[fd].client, cmd);
    if qs == [] {
      StepNone(w, fd, cmd);
    } else {
      StepOne(w, fd, cmd, c, qs[0]);
      if cmd.DoLogin? {
        LoginKeeps(w.server, cmd.name, cmd.password, fd);
      } else {
        RegisterKeeps(w.server, cmd.name, cmd.password, fd);
      }
    }
  }

  /** In every reachable state, every command does to the sessions implied by the flat
      table exactly what it means. */
  lemma StepRefines(w: World, fd: int, cmd: Command)
    requires Reachable(w) && fd in w.peers && CommandOk(cmd)
    ensures RoomsOf(Step(w, fd, cmd).server.users)
         == Meaning(RoomsOf(w.server.users), w.peers[fd].client, Home(w, fd), cmd)
  {
    hide Agree, Step, Search, RoomsOf;
    AlwaysAgree(w);
    var k := Search(w.server.users, w.peers[fd].client.name);
    if cmd.DoLogin? || cmd.DoRegister? {
      SignOnRefines(w, fd, cmd);
    } else if !w.peers[fd].client.verified {
      OfflineStep(w, fd, cmd);
    } else {
      match cmd
      case DoCreate(session) => CreateRefines(w, fd, k, session);
      case DoJoin(session) => JoinRefines(w, fd, k, session);
      case DoKick(target) => AdminRefines(w, fd, k, cmd);
      case DoPromote(target) => AdminRefines(w, fd, k, cmd);
      case DoSay(text) => TalkStep(w, fd, k, cmd);
      case DoList => TalkStep(w, fd, k, cmd);
      case DoUserList(session) => TalkStep(w, fd, k, cmd);
      case _ => GoneRefines(w, fd, k, cmd);
    }
  }

  // ----- messages -----

  lemma {:induction false} RecipientsAre(t: Table, session: string, x: int)
    ensures x in Recipients(t, session)
       <==> exists i :: 0 <= i < |t| && t[i].online && t[i].inSession && t[i].session == session && t[i].fd == x
  {
    if t != [] {
      var n := |t| - 1;
      var rest := t[..n];
      RecipientsAre(rest, session, x);
      assert Recipients(t, session)
          == Recipients(rest, session)
             + if t[n].online && t[n].inSession && t[n].session == session then [t[n].fd] else [];
      if i :| 0 <= i < |t| && t[i].online && t[i].inSession && t[i].session == session && t[i].fd == x {
        if i < n { assert rest[i] == t[i]; }
      }
      if x in Recipients(rest, session) {
        var i :| 0 <= i < n && rest[i].online && rest[i].inSession && rest[i].session == session && rest[i].fd == x;
        assert t[i] == rest[i];
      }
    }
  }

  predicate DistinctSockets(t: Table) {
    forall i, j :: 0 <= i < j < |t| && t[i].online && t[j].online ==> t[i].fd != t[j].fd
  }

  lemma {:induction false} RecipientsOnce(t: Table, session: string)
    requires DistinctSockets(t) && session != NOT_IN_SESSION && forall i :: 0 <= i < |t| ==> Sane(t[i])
    ensures |Recipients(t, session)| == Count(t, session)
    ensures forall i, j :: 0 <= i < j < |Recipients(t, session)| ==>
              Recipients(t, session)[i] != Recipients(t, session)[j]
  {
    if t != [] {
      var n := |t| - 1;
      assert forall i :: 0 <= i < n ==> t[..n][i] == t[i];
      RecipientsOnce(t[..n], session);
      var to := Recipients(t[..n], session);
      if t[n].session == session {
        RecipientsAre(t[..n], session, t[n].fd);
        assert Recipients(t, session) == to + [t[n].fd];
        assert t[n].fd !in to;
      } else {
        assert Recipients(t, session) == to;
      }
    }
  }

  /** In every reachable state a message reaches the clients of exactly the members of the
      sender's session, each once. */
  lemma BroadcastExact(w: World, fd: int)
    requires Reachable(w) && fd in w.peers && w.peers[fd].client.verified && w.peers[fd].client.session
    ensures var to := Recipients(w.server.users, Home(w, fd));
            var rooms := RoomsOf(w.server.users);
            Home(w, fd) in rooms && |to| == |rooms[Home(w, fd)].members|
            && (forall i, j :: 0 <= i < j < |to| ==> to[i] != to[j])
            && (forall x :: x in to <==> x in w.peers && w.peers[x].client.verified
                                         && In(rooms, Home(w, fd), w.peers[x].client.name))
  {
    hide Members, Admins, RoomsOf, Search, Recipients, Count;
    AlwaysAgree(w);
    var t, k := w.server.users, Search(w.server.users, w.peers[fd].client.name);
    OwnRecord(w, fd, k);
    var home := t[k].session;
    RoomIsOk(t, k);
    forall i, j | 0 <= i < j < |t| && t[i].online && t[j].online ensures t[i].fd != t[j].fd {
      OwnerOf(w, i);
      OwnerOf(w, j);
    }
    RecipientsOnce(t, home);
    CountIsMembers(t, home);
    forall x ensures x in Recipients(t, home) <==> x in w.peers && w.peers[x].client.verified
                                                   && In(RoomsOf(t), home, w.peers[x].client.name)
    {
      RecipientsAre(t, home, x);
      ReachedIsMember(w, home, x);
    }
  }

  lemma ReachedIsMember(w: World, home: string, x: int)
    requires Agree(w) && home in RoomsOf(w.server.users)
    requires home != NOT_IN_SESSION
    ensures (exists i :: 0 <= i < |w.server.users| && w.server.users[i].online && w.server.users[i].inSession
                         && w.server.users[i].session == home && w.server.users[i].fd == x)
       <==> x in w.peers && w.peers[x].client.verified && In(RoomsOf(w.server.users), home, w.peers[x].client.name)
  {
    hide Members, Admins, RoomsOf, Search;
    var t := w.server.users;
    RoomsAt(t);
    if i :| 0 <= i < |t| && t[i].online && t[i].inSession && t[i].session == home && t[i].fd == x {
      OwnerOf(w, i);
      PeerAt(w, x);
      Own(t, i, home);
    }
    if x in w.peers && w.peers[x].client.verified && In(RoomsOf(t), home, w.peers[x].client.name) {
      var i := Search(t, w.peers[x].client.name);
      OwnRecord(w, x, i);
      Own(t, i, home);
    }
  }

  /** A user in no session reaches nobody, although many records share that string. */
  lemma NobodyOutside(w: World)
    requires Reachable(w)
    ensures Recipients(w.server.users, NOT_IN_SESSION) == []
  {
    AlwaysAgree(w);
    var to := Recipients(w.server.users, NOT_IN_SESSION);
    if to != [] {
      RecipientsAre(w.server.users, NOT_IN_SESSION, to[0]);
    }
  }

  lemma TableOf(w: World)
    requires Agree(w)
    ensures UniqueNames(w.server.users)
    ensures forall i :: 0 <= i < |w.server.users| ==> Sane(w.server.users[i])
    ensures forall s :: s in RoomsOf(w.server.users) ==> RoomOk(RoomsOf(w.server.users)[s])
  {
  }

  // ----- conservation -----

  /** How many users are in some session. */
  ghost function Population(rooms: Rooms): nat {
    if rooms == map[] then 0
    else var s :| s in rooms; |rooms[s].members| + Population(rooms - {s})
  }

  function CountIn(t: Table, sessions: set<string>): nat {
    if t == [] then 0
    else CountIn(t[..|t| - 1], sessions) + (if t[|t| - 1].session in sessions then 1 else 0)
  }

  lemma {:induction false} CountWithout(t: Table, sessions: set<string>, s: string)
    requires s in sessions
    ensures CountIn(t, sessions) == Count(t, s) + CountIn(t, sessions - {s})
  {
    if t != [] { CountWithout(t[..|t| - 1], sessions, s); }
  }

  lemma {:induction false} CountOfAll(t: Table, sessions: set<string>)
    requires forall i :: 0 <= i < |t| ==> t[i].session in sessions
    ensures CountIn(t, sessions) == |t|
  {
    if t != [] {
      var n := |t| - 1;
      assert forall i :: 0 <= i < n ==> t[..n][i] == t[i];
      CountOfAll(t[..n], sessions);
    }
  }

  lemma {:induction false} CountOfNone(t: Table)
    ensures CountIn(t, {}) == 0
  {
    if t != [] { CountOfNone(t[..|t| - 1]); }
  }

  lemma {:induction false} PopulationIsCount(t: Table, rooms: Rooms)
    requires UniqueNames(t) && forall s :: s in rooms ==> rooms[s].members == Members(t, s)
    ensures Population(rooms) == CountIn(t, rooms.Keys)
    decreases |rooms|
  {
    hide Members;
    if rooms == map[] {
      CountOfNone(t);
    } else {
      var s :| s in rooms && Population(rooms) == |rooms[s].members| + Population(rooms - {s});
      assert (rooms - {s}).Keys == rooms.Keys - {s};
      CardinalityWithout(rooms, s);
      PopulationIsCount(t, rooms - {s});
      CountIsMembers(t, s);
      CountWithout(t, rooms.Keys, s);
    }
  }

  lemma CardinalityWithout(rooms: Rooms, s: string)
    requires s in rooms
    ensures |rooms - {s}| < |rooms|
  {
    var rest := rooms - {s};
    assert rooms.Keys == rest.Keys + {s} && s !in rest.Keys;
    assert |rooms.Keys| == |rest.Keys| + 1;
    assert |rooms| == |rooms.Keys| && |rest| == |rest.Keys|;
  }

  /** In every reachable state each registered user is either in no session or a member of
      exactly one: the sizes of all sessions and the count of users outside add up to the
      number of users. */
  lemma EveryoneSomewhere(w: World)
    requires Reachable(w)
    ensures Count(w.server.users, NOT_IN_SESSION) + Population(RoomsOf(w.server.users)) == |w.server.users|
  {
    hide Members, Admins, TableInv, Agree, Reachable;
    var t := w.server.users;
    AlwaysAgree(w);
    UniqueHere(w);
    RoomsAt(t);
    PopulationIsCount(t, RoomsOf(t));
    var all := RoomsOf(t).Keys + {NOT_IN_SESSION};
    assert all - {NOT_IN_SESSION} == RoomsOf(t).Keys;
    CountOfAll(t, all);
    CountWithout(t, all, NOT_IN_SESSION);
  }

  lemma UniqueHere(w: World)
    requires Agree(w)
    ensures UniqueNames(w.server.users)
  {
  }
}
