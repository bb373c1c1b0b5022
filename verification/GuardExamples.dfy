// Reachable states in which a handler, called without the client's guard, would break the
// rules: what the exact conditions for the guards rule out does occur.
module GuardExamples {
  import opened Users
  import opened Sessions
  import opened Conference
  import opened ConferenceProof
  import opened ConferenceSteps
  import opened ConferenceTheorems

  // ----- what single commands leave of the table -----

  lemma LoginTo(w: World, fd: int, k: nat) returns (v: World)
    requires Reachable(w) && fd in w.peers && k < |w.server.users| && !w.server.users[k].online
    requires forall i :: 0 <= i < |w.server.users| && w.server.users[i].online ==> w.server.users[i].fd != fd
    requires var u := w.server.users[k];
             CommandOk(DoLogin(u.name, u.password)) && |u.name| < MAX_NAME && |u.password| < MAX_PASSWORD_LENGTH
    ensures Reachable(v) && v.peers.Keys == w.peers.Keys
    ensures v.server.users == w.server.users[k := w.server.users[k].(online := true, fd := fd)]
  {
    hide Agree, Reachable, Search, Step, CommandOk, Delivered;
    AlwaysAgree(w);
    AgreeTable(w);
    PeerAt(w, fd);
    var u, p := w.server.users[k], w.peers[fd];
    var cmd, q := DoLogin(u.name, u.password), Request(LOGIN, u.name, u.password);
    FoundAgain(w.server.users, w.server.users, k);
    v := Step(w, fd, cmd);
    StepOne(w, fd, cmd, p.client.(connected := true), q);
    ReachableNext(w, Act(fd, cmd));
    SameSockets(w, fd, cmd);
  }

  lemma SameSockets(w: World, fd: int, cmd: Command)
    requires fd in w.peers
    ensures Step(w, fd, cmd).peers.Keys == w.peers.Keys
  {
  }

  /** The client of an online user types a command. */
  lemma Types(w: World, k: nat, cmd: Command) returns (fd: int)
    requires Reachable(w) && k < |w.server.users| && w.server.users[k].online && CommandOk(cmd)
    ensures Agree(w) && LoggedIn(w, fd, k) && fd == w.server.users[k].fd
    ensures fd in w.peers && Reachable(Step(w, fd, cmd)) && Step(w, fd, cmd).peers.Keys == w.peers.Keys
  {
    hide Agree, Reachable, Search, Step, CommandOk;
    AlwaysAgree(w);
    fd := w.server.users[k].fd;
    OwnerOf(w, k);
    ReachableNext(w, Act(fd, cmd));
    SameSockets(w, fd, cmd);
  }

  lemma CreateTo(w: World, k: nat, session: string) returns (v: World)
    requires Reachable(w) && k < |w.server.users| && w.server.users[k].online && !w.server.users[k].inSession
    requires Token(session) && |session| < MAX_SESSION_LENGTH && Count(w.server.users, session) == 0
    ensures Reachable(v) && v.peers.Keys == w.peers.Keys
    ensures v.server.users
         == w.server.users[k := w.server.users[k].(session := session, inSession := true, role := Admin)]
  {
    hide Agree, Reachable, Search, Step, Count, Token;
    var cmd := DoCreate(session);
    var fd := Types(w, k, cmd);
    OwnRecord(w, fd, k);
    AgreeTable(w);
    v := Step(w, fd, cmd);
    ServerAfter(w, fd, k, cmd, Request(NEW_SESS, w.peers[fd].client.name, session));
  }

  lemma JoinTo(w: World, k: nat, session: string) returns (v: World)
    requires Reachable(w) && k < |w.server.users| && w.server.users[k].online && !w.server.users[k].inSession
    requires Token(session) && |session| < MAX_SESSION_LENGTH
    requires 0 < Count(w.server.users, session) < MAX_SESSION_USER
    ensures Reachable(v) && v.peers.Keys == w.peers.Keys
    ensures v.server.users == w.server.users[k := w.server.users[k].(session := session, inSession := true)]
  {
    hide Agree, Reachable, Search, Step, Count, Token;
    var cmd := DoJoin(session);
    var fd := Types(w, k, cmd);
    OwnRecord(w, fd, k);
    AgreeTable(w);
    v := Step(w, fd, cmd);
    ServerAfter(w, fd, k, cmd, Request(JOIN, w.peers[fd].client.name, session));
  }

  lemma LeaveTo(w: World, k: nat) returns (v: World)
    requires Reachable(w) && k < |w.server.users| && w.server.users[k].inSession && w.server.users[k].online
    ensures Reachable(v) && v.server.users == ExitSession(w.server.users, k)
  {
    hide Agree, Reachable, Search, Step, ExitSession;
    var fd := Types(w, k, DoLeave);
    OwnRecord(w, fd, k);
    v := Step(w, fd, DoLeave);
    LeaveStep(w, fd, k);
  }

  // ----- three users -----

  function Someone(name: string, session: string, online: bool, fd: int, role: Role): User {
    User(name, "pw", session, session != NOT_IN_SESSION, online, fd, role)
  }

  function Outsider(name: string): User { Someone(name, NOT_IN_SESSION, false, 0, Ordinary) }

  function SignedOn(name: string, fd: int): User { Someone(name, NOT_IN_SESSION, true, fd, Ordinary) }

  function Member(name: string, fd: int, role: Role): User { Someone(name, "s", true, fd, role) }

  lemma CountThree(a: User, b: User, c: User, s: string)
    ensures Count([a, b, c], s)
         == (if a.session == s then 1 else 0) + (if b.session == s then 1 else 0) + (if c.session == s then 1 else 0)
  {
    assert [a, b, c][..2] == [a, b] && [a, b][..1] == [a] && [a][..0] == [];
    assert Count([a], s) == if a.session == s then 1 else 0;
    assert Count([a, b], s) == Count([a], s) + if b.session == s then 1 else 0;
  }

  lemma NamesFound(a: User, b: User, c: User)
    requires a.name == "a" && b.name == "b" && c.name == "c"
    ensures Search([a, b, c], "a") == 0 && Search([a, b, c], "b") == 1 && Search([a, b, c], "c") == 2
  {
    var t := [a, b, c];
    assert t[0].name != t[1].name && t[0].name != t[2].name && t[1].name != t[2].name;
    SearchFinds(t, 0);
    SearchFinds(t, 1);
    SearchFinds(t, 2);
  }

  lemma Begin() returns (w: World)
    ensures Reachable(w) && w.peers.Keys == {1, 2, 3}
    ensures w.server.users == [Outsider("a"), Outsider("b"), Outsider("c")]
  {
    var nobody := Peer(FreshClient(), Conn(false, ""));
    w := World(Server([Outsider("a"), Outsider("b"), Outsider("c")], "", false, false, false),
               map[1 := nobody, 2 := nobody, 3 := nobody]);
    assert Start(w) && Run(w, [], w);
  }

  lemma NamesAreOk()
    ensures forall n :: n in {"a", "b", "c"} ==> CommandOk(DoLogin(n, "pw"))
    ensures Token("s") && Token("t") && "s" != "t" && "s" != NOT_IN_SESSION
  {
  }

  lemma AllSignedOn() returns (w: World)
    ensures Reachable(w) && w.peers.Keys == {1, 2, 3}
    ensures w.server.users == [SignedOn("a", 1), SignedOn("b", 2), SignedOn("c", 3)]
  {
    hide Reachable, CommandOk, Token;
    NamesAreOk();
    w := Begin();
    w := LoginTo(w, 1, 0);
    w := LoginTo(w, 2, 1);
    w := LoginTo(w, 3, 2);
  }

  /** A creates a session and B joins it. */
  lemma TwoMembers() returns (w: World)
    ensures Reachable(w) && w.peers.Keys == {1, 2, 3}
    ensures w.server.users == [Member("a", 1, Admin), Member("b", 2, Ordinary), SignedOn("c", 3)]
  {
    hide Reachable, Token, Count;
    NamesAreOk();
    w := AllSignedOn();
    CountThree(SignedOn("a", 1), SignedOn("b", 2), SignedOn("c", 3), "s");
    w := CreateTo(w, 0, "s");
    assert w.server.users == [Member("a", 1, Admin), SignedOn("b", 2), SignedOn("c", 3)];
    CountThree(Member("a", 1, Admin), SignedOn("b", 2), SignedOn("c", 3), "s");
    w := JoinTo(w, 1, "s");
  }

  /** A now creates another session without leaving: B would be left alone and no admin. */
  lemma CreateUnguarded() returns (w: World)
    ensures Reachable(w) && Known(w.server, "a") && Find(w.server, "a").inSession
    ensures Count(w.server.users, "t") == 0 && !TableInv(Create(w.server, "a", "t").0.users)
  {
    hide Reachable, Count, TableInv, Agree, Search, Admins, Members;
    NamesAreOk();
    w := TwoMembers();
    var a, b, c := Member("a", 1, Admin), Member("b", 2, Ordinary), SignedOn("c", 3);
    NamesFound(a, b, c);
    CountThree(a, b, c, "s");
    CountThree(a, b, c, "t");
    AlwaysAgree(w);
    AgreeTable(w);
    CreateNeedsGuard(w.server, "a", "t");
    OnlyOrdinary(w.server.users);
  }

  lemma OnlyOrdinary(t: Table)
    requires |t| == 3 && t[0] == Member("a", 1, Admin) && t[1] == Member("b", 2, Ordinary)
    ensures Admins(t, "s") != Members(t, "s") - {"a"}
  {
    assert t[0].name in Admins(t, "s");
    assert t[0].name !in Members(t, "s") - {"a"};
  }

  /** And C joins. */
  lemma ThreeMembers() returns (w: World)
    ensures Reachable(w)
    ensures w.server.users == [Member("a", 1, Admin), Member("b", 2, Ordinary), Member("c", 3, Ordinary)]
  {
    hide Reachable, Token, Count;
    NamesAreOk();
    w := TwoMembers();
    CountThree(Member("a", 1, Admin), Member("b", 2, Ordinary), SignedOn("c", 3), "s");
    w := JoinTo(w, 2, "s");
  }

  /** B, who is not the admin, promotes C: there would be two. */
  lemma PromoteUnguarded() returns (w: World)
    ensures Reachable(w) && Known(w.server, "b") && Refusal(w.server, "b", "c") == ""
    ensures !TableInv(Promote(w.server, "b", "c").0.users)
  {
    hide Reachable, TableInv, Agree, Search, Admins;
    w := ThreeMembers();
    var t := w.server.users;
    NamesFound(t[0], t[1], t[2]);
    AlwaysAgree(w);
    AgreeTable(w);
    PromoteNeedsGuard(w.server, "b", "c");
    AdminIs(t);
  }

  lemma AdminIs(t: Table)
    requires |t| == 3 && t[0] == Member("a", 1, Admin)
    ensures !(Admins(t, "s") <= {"b"})
  {
    assert t[0].name in Admins(t, "s");
  }

  /** A leaves, and B kicks C: B would be left alone and no admin. */
  lemma KickUnguarded() returns (w: World)
    ensures Reachable(w) && Known(w.server, "b") && Refusal(w.server, "b", "c") == ""
    ensures !TableInv(Kick(w.server, "b", "c").0.users)
  {
    hide Reachable, TableInv, Agree, Search, Count;
    w := ThreeMembers();
    w := LeaveTo(w, 0);
    var a, b, c := SignedOn("a", 1), Member("b", 2, Ordinary), Member("c", 3, Ordinary);
    AfterALeaves();
    NamesFound(a, b, c);
    CountThree(a, b, c, "s");
    AlwaysAgree(w);
    AgreeTable(w);
    KickNeedsGuard(w.server, "b", "c");
  }

  lemma AfterALeaves()
    ensures ExitSession([Member("a", 1, Admin), Member("b", 2, Ordinary), Member("c", 3, Ordinary)], 0)
         == [SignedOn("a", 1), Member("b", 2, Ordinary), Member("c", 3, Ordinary)]
  {
    hide Count;
    CountThree(SignedOn("a", 1), Member("b", 2, Ordinary), Member("c", 3, Ordinary), "s");
    var t := [Member("a", 1, Admin), Member("b", 2, Ordinary), Member("c", 3, Ordinary)];
    assert t[0 := Outside(t[0])] == [SignedOn("a", 1), t[1], t[2]];
  }
}
