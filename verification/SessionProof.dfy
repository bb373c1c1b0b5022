// Each handler keeps the table's invariant and does to the abstract sessions what it is
// for, given what the client is trusted to have checked.
module SessionProof {
  import opened Users
  import opened Sessions
  import opened RoomMoves

  lemma RoomIsOk(t: Table, k: nat)
    requires TableInv(t) && k < |t| && t[k].session != NOT_IN_SESSION
    ensures t[k].session in RoomsOf(t) && RoomOk(RoomsOf(t)[t[k].session])
    ensures RoomsOf(t)[t[k].session] == Room(Members(t, t[k].session), Admins(t, t[k].session))
  {
    hide Members, Admins, RoomsOf;
    Own(t, k, t[k].session);
    RoomsAt(t);
  }

  ghost predicate RoomsOk(rooms: Rooms) { forall s :: s in rooms ==> RoomOk(rooms[s]) }

  /** A user in no session who creates one is alone in it, as its admin; an existing
      session is left alone. */
  lemma CreateKeeps(s: Server, name: string, session: string)
    requires TableInv(s.users) && Known(s, name) && session != NOT_IN_SESSION && |session| < MAX_SESSION_LENGTH
    requires Find(s, name).session == NOT_IN_SESSION && Find(s, name).online
    ensures TableInv(Create(s, name, session).0.users)
    ensures RoomsOf(Create(s, name, session).0.users)
         == if session in RoomsOf(s.users) then RoomsOf(s.users) else Opened(RoomsOf(s.users), name, session)
  {
    hide Members, Admins, RoomsOf, Count;
    var t, k := s.users, Search(s.users, name);
    CountIsMembers(t, session);
    RoomsAt(t);
    if Count(t, session) == 0 {
      OpenedRefines(t, k, session);
      assert Create(s, name, session).0.users == Moved(t, k, session, true, Admin);
      assert Members(t, session) == {};
    }
  }

  /** Joining adds the user to an existing session that is not full. */
  lemma JoinKeeps(s: Server, name: string, session: string)
    requires TableInv(s.users) && Known(s, name) && Find(s, name).online
    requires session != NOT_IN_SESSION && |session| < MAX_SESSION_LENGTH
    ensures TableInv(Join(s, name, session).0.users)
    ensures RoomsOf(Join(s, name, session).0.users)
         == if Find(s, name).inSession || session !in RoomsOf(s.users)
               || |RoomsOf(s.users)[session].members| == MAX_SESSION_USER
            then RoomsOf(s.users) else Joined(RoomsOf(s.users), name, session)
  {
    hide Members, Admins, RoomsOf, Count;
    var t, k := s.users, Search(s.users, name);
    CountIsMembers(t, session);
    RoomsAt(t);
    Own(t, k, session);
    if !t[k].inSession && Count(t, session) != 0 && Count(t, session) != MAX_SESSION_USER {
      JoinedRefines(t, k, session);
      assert Join(s, name, session).0.users == Moved(t, k, session, true, Ordinary);
      OneMore(RoomsOf(t)[session], name);
    }
  }

  lemma OneMore(r: Room, user: string)
    requires RoomOk(r) && 0 < |r.members| < MAX_SESSION_USER && user !in r.members
    ensures RoomOk(Room(r.members + {user}, r.admins))
  {
  }

  lemma OneLess(r: Room, user: string)
    requires RoomOk(r) && user in r.members
    ensures var rest := r.members - {user};
            RoomOk(Room(rest, if |rest| == 1 then rest else r.admins - {user}))
  {
  }

  lemma ExitKeeps(t: Table, k: nat)
    requires TableInv(t) && k < |t| && t[k].inSession
    ensures TableInv(ExitSession(t, k))
    ensures RoomsOf(ExitSession(t, k)) == Left(RoomsOf(t), t[k].name, t[k].session)
  {
    hide Members, Admins, RoomsOf, Count;
    LeftRefines(t, k);
    RoomIsOk(t, k);
    Own(t, k, t[k].session);
    OneLess(RoomsOf(t)[t[k].session], t[k].name);
  }

  /** Leaving removes the user; a session nobody is left in is gone, and who is left
      alone is its admin. No mutex stays locked. */
  lemma LeaveKeeps(s: Server, name: string)
    requires TableInv(s.users) && Known(s, name) && Find(s, name).inSession
    ensures TableInv(Leave(s, name).0.users)
    ensures RoomsOf(Leave(s, name).0.users) == Left(RoomsOf(s.users), name, Find(s, name).session)
    ensures Leave(s, name).0 == s.(users := ExitSession(s.users, Search(s.users, name)))
  {
    ExitKeeps(s.users, Search(s.users, name));
  }

  lemma SignOffKeeps(t: Table, k: nat)
    requires TableInv(t) && k < |t| && !t[k].inSession
    ensures TableInv(SignedOff(t, k)) && RoomsOf(SignedOff(t, k)) == RoomsOf(t)
  {
    hide Members, Admins, RoomsOf;
    SameRooms(t, k, t[k].(online := false, fd := 0));
  }

  /** Who leaves for good is out of every session first. */
  lemma ExitedRecord(t: Table, k: nat)
    requires k < |t| && t[k].session != NOT_IN_SESSION
    ensures ExitSession(t, k)[k] == Outside(t[k])
    ensures forall i :: 0 <= i < |t| && i != k ==>
              ExitSession(t, k)[i] == t[i]
              || (t[i].session == t[k].session && ExitSession(t, k)[i] == t[i].(role := Admin))
  {
  }

  lemma UserExitKeeps(s: Server, name: string)
    requires TableInv(s.users) && Known(s, name)
    ensures TableInv(UserExit(s, name).0.users)
    ensures RoomsOf(UserExit(s, name).0.users)
         == if Find(s, name).inSession then Left(RoomsOf(s.users), name, Find(s, name).session)
            else RoomsOf(s.users)
    ensures UserExit(s, name).0 == s.(users := UserExit(s, name).0.users)
  {
    hide Members, Admins, RoomsOf, Count, Left, ExitSession;
    var k := Search(s.users, name);
    if s.users[k].inSession {
      LeaveKeeps(s, name);
      ExitedRecord(s.users, k);
      SignOffKeeps(ExitSession(s.users, k), k);
    } else {
      SignOffKeeps(s.users, k);
    }
  }

  /** A session's only admin is its sole element of admins. */
  lemma TheAdmin(t: Table, k: nat)
    requires TableInv(t) && k < |t| && t[k].role == Admin
    ensures Admins(t, t[k].session) == {t[k].name}
  {
    hide RoomsOf, Members, Admins;
    RoomIsOk(t, k);
    Own(t, k, t[k].session);
    var a := Admins(t, t[k].session);
    if x :| x in a && x != t[k].name {
      assert {x, t[k].name} <= a;
      CardinalityOfSubset({x, t[k].name}, a);
    }
  }

  lemma CardinalityOfSubset(a: set<string>, b: set<string>)
    requires a <= b
    ensures |a| <= |b|
  {
    assert b == a + (b - a);
  }

  /** An admin's kick removes a plain member of the same session, and nothing else. */
  lemma KickKeeps(s: Server, sender: string, target: string)
    requires TableInv(s.users) && Known(s, sender) && Find(s, sender).role == Admin
    ensures TableInv(Kick(s, sender, target).0.users)
    ensures RoomsOf(Kick(s, sender, target).0.users)
         == if Refusal(s, sender, target) != "" then RoomsOf(s.users)
            else Kicked(RoomsOf(s.users), target, Find(s, sender).session)
  {
    hide Members, Admins, RoomsOf, Count;
    if Refusal(s, sender, target) == "" {
      var t, k, j := s.users, Search(s.users, target), Search(s.users, sender);
      KickedRefines(t, k, j);
      assert Kick(s, sender, target).0.users == t[k := Outside(t[k])];
      RoomIsOk(t, k);
      TheAdmin(t, j);
      Own(t, j, t[k].session);
      OneKicked(RoomsOf(t)[t[k].session], target, sender);
    }
  }

  lemma OneKicked(r: Room, user: string, admin: string)
    requires RoomOk(r) && r.admins == {admin} && user != admin
    ensures RoomOk(Room(r.members - {user}, r.admins))
  {
    var rest := r.members - {user};
    assert rest == {admin} + (rest - {admin});
    if |rest| == 1 {
      assert rest - {admin} == {};
    }
  }

  /** An admin's promotion hands the role to another member of the session. */
  lemma PromoteKeeps(s: Server, sender: string, target: string)
    requires TableInv(s.users) && Known(s, sender) && Find(s, sender).role == Admin
    ensures TableInv(Promote(s, sender, target).0.users)
    ensures RoomsOf(Promote(s, sender, target).0.users)
         == if Refusal(s, sender, target) != "" then RoomsOf(s.users)
            else Promoted(RoomsOf(s.users), sender, target, Find(s, sender).session)
  {
    hide Members, Admins, RoomsOf, Count;
    if Refusal(s, sender, target) == "" {
      var t, k, j := s.users, Search(s.users, target), Search(s.users, sender);
      PromotedRefines(t, j, k);
      RoomIsOk(t, k);
      TheAdmin(t, j);
      Own(t, j, t[k].session);
      Own(t, k, t[k].session);
      OnePromoted(RoomsOf(t)[t[k].session], sender, target);
    }
  }

  lemma OnePromoted(r: Room, from: string, to: string)
    requires RoomOk(r) && r.admins == {from} && to in r.members && from != to
    ensures RoomOk(Room(r.members, r.admins - {from} + {to}))
  {
    assert r.admins - {from} + {to} == {to};
    if |r.members| == 1 {
      CardinalityOfSubset({from, to}, r.members);
    }
  }

  /** A record of the table, if it has one of this name. */
  ghost predicate Has(t: Table, name: string, password: string, online: bool) {
    exists i :: 0 <= i < |t| && t[i].name == name && t[i].password == password && t[i].online == online
  }

  /** The four answers to a login: by the name, the password and the status of the one
      record that has the name. */
  lemma LoginExactly(t: Table, name: string, password: string)
    requires UniqueNames(t)
    ensures VerifyLogin(t, name, password) == SuccessLogin <==> Has(t, name, password, false)
    ensures VerifyLogin(t, name, password) == AlreadyLogin <==> Has(t, name, password, true)
    ensures VerifyLogin(t, name, password) == UsernameError <==> forall i :: 0 <= i < |t| ==> t[i].name != name
  {
    if i :| 0 <= i < |t| && t[i].name == name {
      SearchFinds(t, i);
    }
    if VerifyLogin(t, name, password) == SuccessLogin || VerifyLogin(t, name, password) == AlreadyLogin {
      assert Has(t, name, password, t[Search(t, name)].online);
    }
  }

  lemma LoginKeeps(s: Server, name: string, password: string, fd: int)
    requires TableInv(s.users)
    ensures TableInv(Login(s, name, password, fd).0.users)
    ensures RoomsOf(Login(s, name, password, fd).0.users) == RoomsOf(s.users)
  {
    hide Members, Admins, RoomsOf;
    var k := Search(s.users, name);
    if k < |s.users| {
      SameRooms(s.users, k, s.users[k].(online := true, fd := fd));
    }
  }

  lemma RegisterKeeps(s: Server, name: string, password: string, fd: int)
    requires TableInv(s.users) && |name| < MAX_NAME
    ensures TableInv(Register(s, name, password, fd).0.users)
    ensures RoomsOf(Register(s, name, password, fd).0.users) == RoomsOf(s.users)
  {
    hide Members, Admins, RoomsOf;
    if AddCode(s.users, name) == AddUserSuccess {
      NewcomerRooms(s.users, NewUser(name, password, true, fd));
    }
  }
}
