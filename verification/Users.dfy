// server/user.c: the flat table of users in which all session state is implicit.
module Users {

  datatype Role = Ordinary | Admin

  /** user_t without the password's buffer sizes, the address and the port. */
  datatype User = User(name: string, password: string, session: string,
                       inSession: bool, online: bool, fd: int, role: Role)

  type Table = seq<User>

  const NOT_IN_SESSION := "Not in session"
  const MAX_SESSION_USER := 6
  const MAX_USER_COUNT := 100
  const MAX_NAME := 17
  const MAX_SESSION_LENGTH := 20
  const MAX_PASSWORD_LENGTH := 20

  // ----- what the loops of user.c compute -----

  /** database_search_user and return_user_by_username: the index, or |t| for NULL. */
  function Search(t: Table, name: string): (k: nat)
    ensures k <= |t|
    ensures forall j :: 0 <= j < k ==> t[j].name != name
    ensures k < |t| ==> t[k].name == name
  {
    if t == [] then 0
    else
      var k := Search(t[..|t| - 1], name);
      if k < |t| - 1 || t[|t| - 1].name == name then k else |t|
  }

  /** get_user_count_in_a_session. */
  function Count(t: Table, session: string): nat {
    if t == [] then 0
    else Count(t[..|t| - 1], session) + (if t[|t| - 1].session == session then 1 else 0)
  }

  /** set_the_only_user_admin: every member of the session becomes an admin. */
  function AllAdmins(t: Table, session: string): (t': Table)
    ensures |t'| == |t|
    ensures forall i :: 0 <= i < |t| ==>
              t'[i] == if t[i].session == session then t[i].(role := Admin) else t[i]
  {
    seq(|t|, i requires 0 <= i < |t| => if t[i].session == session then t[i].(role := Admin) else t[i])
  }

  /** The record of a user who has left their session. */
  function Outside(u: User): User { u.(inSession := false, role := Ordinary, session := NOT_IN_SESSION) }

  /** user_exit_current_session of a user in a session: who stays behind alone becomes
      its admin. */
  function ExitSession(t: Table, k: nat): (t': Table)
    requires k < |t|
    ensures |t'| == |t|
  {
    var t1 := t[k := Outside(t[k])];
    if Count(t1, t[k].session) == 1 then AllAdmins(t1, t[k].session) else t1
  }

  // ----- the sets behind the counts -----

  function Members(t: Table, session: string): set<string> {
    set i | 0 <= i < |t| && t[i].session == session :: t[i].name
  }

  function Admins(t: Table, session: string): set<string> {
    set i | 0 <= i < |t| && t[i].session == session && t[i].role == Admin :: t[i].name
  }

  predicate UniqueNames(t: Table) {
    forall i, j :: 0 <= i < j < |t| ==> t[i].name != t[j].name
  }

  lemma SearchFinds(t: Table, k: nat)
    requires UniqueNames(t) && k < |t|
    ensures Search(t, t[k].name) == k
  {
    assert Search(t, t[k].name) <= k;
  }

  lemma MembersOfLonger(t: Table, u: User, session: string)
    ensures Members(t + [u], session) == Members(t, session) + (if u.session == session then {u.name} else {})
  {
    var t' := t + [u];
    assert forall i :: 0 <= i < |t| ==> t'[i] == t[i];
    assert t'[|t|] == u;
    forall n ensures n in Members(t', session)
                <==> n in Members(t, session) || (u.session == session && n == u.name) {
      if n in Members(t, session) {
        var i :| 0 <= i < |t| && t[i].session == session && t[i].name == n;
        assert t'[i].name == n;
      }
    }
  }

  /** Each match the counting loop sees is a different member. */
  lemma {:induction false} CountIsMembers(t: Table, session: string)
    requires UniqueNames(t)
    ensures Count(t, session) == |Members(t, session)|
  {
    if t == [] {
      assert Members(t, session) == {};
    } else {
      var n := |t| - 1;
      CountIsMembers(t[..n], session);
      assert t == t[..n] + [t[n]];
      MembersOfLonger(t[..n], t[n], session);
      assert t[n].name !in Members(t[..n], session);
    }
  }

  lemma MembersRewritten(t: Table, k: nat, u: User, session: string)
    requires UniqueNames(t) && k < |t| && u.name == t[k].name
    ensures Members(t[k := u], session)
         == if u.session == session then Members(t, session) + {u.name} else Members(t, session) - {u.name}
  {
    var t' := t[k := u];
    var expected := if u.session == session then Members(t, session) + {u.name} else Members(t, session) - {u.name};
    assert forall i :: 0 <= i < |t| && i != k ==> t'[i] == t[i] && t[i].name != u.name;
    forall n ensures n in Members(t', session) <==> n in expected {
      if n in Members(t, session) && n != u.name {
        var i :| 0 <= i < |t| && t[i].session == session && t[i].name == n;
        assert t'[i].name == n;
      }
      if u.session == session { assert t'[k].name == u.name; }
    }
  }

  lemma AdminsRewritten(t: Table, k: nat, u: User, session: string)
    requires UniqueNames(t) && k < |t| && u.name == t[k].name
    ensures Admins(t[k := u], session)
         == if u.session == session && u.role == Admin then Admins(t, session) + {u.name}
            else Admins(t, session) - {u.name}
  {
    var t' := t[k := u];
    var expected := if u.session == session && u.role == Admin then Admins(t, session) + {u.name}
                    else Admins(t, session) - {u.name};
    assert forall i :: 0 <= i < |t| && i != k ==> t'[i] == t[i] && t[i].name != u.name;
    forall n ensures n in Admins(t', session) <==> n in expected {
      if n in Admins(t, session) && n != u.name {
        var i :| 0 <= i < |t| && t[i].session == session && t[i].role == Admin && t[i].name == n;
        assert t'[i].name == n;
      }
      if u.session == session && u.role == Admin { assert t'[k].name == u.name; }
    }
  }

  /** Rewriting one record moves one name. */
  lemma RecordRewritten(t: Table, k: nat, u: User, session: string)
    requires UniqueNames(t) && k < |t| && u.name == t[k].name
    ensures UniqueNames(t[k := u])
    ensures Members(t[k := u], session)
         == if u.session == session then Members(t, session) + {u.name} else Members(t, session) - {u.name}
    ensures Admins(t[k := u], session)
         == if u.session == session && u.role == Admin then Admins(t, session) + {u.name}
            else Admins(t, session) - {u.name}
  {
    hide Members, Admins;
    MembersRewritten(t, k, u, session);
    AdminsRewritten(t, k, u, session);
  }

  lemma EveryoneAdmin(t: Table, session: string, other: string)
    requires UniqueNames(t)
    ensures UniqueNames(AllAdmins(t, session))
    ensures Members(AllAdmins(t, session), other) == Members(t, other)
    ensures Admins(AllAdmins(t, session), other)
         == if other == session then Members(t, session) else Admins(t, other)
  {
    var t' := AllAdmins(t, session);
    assert forall i :: 0 <= i < |t| ==> t'[i].name == t[i].name && t'[i].session == t[i].session;
    forall n ensures n in Members(t', other) <==> n in Members(t, other) {
      if n in Members(t, other) {
        var i :| 0 <= i < |t| && t[i].session == other && t[i].name == n;
        assert t'[i].name == n;
      }
    }
    var expected := if other == session then Members(t, session) else Admins(t, other);
    forall n ensures n in Admins(t', other) <==> n in expected {
      if n in expected {
        var i :| 0 <= i < |t| && t[i].session == other && (other == session || t[i].role == Admin) && t[i].name == n;
        assert t'[i].name == n;
      }
    }
  }

  // ----- the sessions that the table stands for -----

  /** A session as the table implies it. */
  datatype Room = Room(members: set<string>, admins: set<string>)

  type Rooms = map<string, Room>

  function SessionNames(t: Table): set<string> {
    set i | 0 <= i < |t| && t[i].session != NOT_IN_SESSION :: t[i].session
  }

  function RoomsOf(t: Table): Rooms {
    map s | s in SessionNames(t) :: Room(Members(t, s), Admins(t, s))
  }

  lemma SessionHasMembers(t: Table, s: string)
    requires s != NOT_IN_SESSION
    ensures s in SessionNames(t) <==> Members(t, s) != {}
  {
    if s in SessionNames(t) {
      var i :| 0 <= i < |t| && t[i].session == s;
      assert t[i].name in Members(t, s);
    }
    if Members(t, s) != {} {
      var n :| n in Members(t, s);
      var i :| 0 <= i < |t| && t[i].session == s && t[i].name == n;
      assert t[i].session in SessionNames(t);
    }
  }

  lemma RoomsAre(t: Table, rooms: Rooms)
    requires NOT_IN_SESSION !in rooms
    requires forall s :: s != NOT_IN_SESSION ==> (s in rooms <==> Members(t, s) != {})
    requires forall s :: s in rooms ==> rooms[s] == Room(Members(t, s), Admins(t, s))
    ensures RoomsOf(t) == rooms
  {
    forall s ensures s in SessionNames(t) <==> s in rooms {
      if s != NOT_IN_SESSION { SessionHasMembers(t, s); }
    }
  }

  lemma RoomsAt(t: Table)
    ensures forall s :: s != NOT_IN_SESSION ==> (s in RoomsOf(t) <==> Members(t, s) != {})
    ensures forall s :: s in RoomsOf(t) ==>
              s != NOT_IN_SESSION && RoomsOf(t)[s] == Room(Members(t, s), Admins(t, s))
  {
    forall s | s != NOT_IN_SESSION ensures s in RoomsOf(t) <==> Members(t, s) != {} {
      SessionHasMembers(t, s);
    }
  }

  /** A record belongs to the session it names and to no other. */
  lemma Own(t: Table, k: nat, s: string)
    requires UniqueNames(t) && k < |t|
    ensures t[k].name in Members(t, s) <==> t[k].session == s
    ensures t[k].name in Admins(t, s) <==> t[k].session == s && t[k].role == Admin
    ensures Admins(t, s) <= Members(t, s)
  {
  }

  // ----- the invariant -----

  predicate Sane(u: User) {
    (u.inSession <==> u.session != NOT_IN_SESSION) &&
    (u.inSession ==> u.online) && (u.role == Admin ==> u.inSession) &&
    |u.name| < MAX_NAME && |u.session| < MAX_SESSION_LENGTH
  }

  /** At most six members and one admin, and a sole member is the admin. */
  predicate RoomOk(r: Room) {
    |r.members| <= MAX_SESSION_USER && r.admins <= r.members && |r.admins| <= 1 &&
    (|r.members| == 1 ==> r.admins == r.members)
  }

  ghost predicate TableInv(t: Table) {
    |t| <= MAX_USER_COUNT && UniqueNames(t) &&
    (forall i :: 0 <= i < |t| ==> Sane(t[i])) &&
    (forall s :: s in RoomsOf(t) ==> RoomOk(RoomsOf(t)[s]))
  }
}
