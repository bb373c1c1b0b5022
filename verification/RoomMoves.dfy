// The abstract sessions, and the proof that rewriting records of the flat table moves
// users between them as intended.
module RoomMoves {
  import opened Users
  import opened Sessions

  // ----- what a session is supposed to do -----

  function Opened(rooms: Rooms, user: string, s: string): Rooms { rooms[s := Room({user}, {user})] }

  function Joined(rooms: Rooms, user: string, s: string): Rooms
    requires s in rooms
  {
    rooms[s := Room(rooms[s].members + {user}, rooms[s].admins)]
  }

  /** A session nobody is left in is gone; who is left alone is its admin. */
  function Left(rooms: Rooms, user: string, s: string): Rooms
    requires s in rooms
  {
    var rest := rooms[s].members - {user};
    if rest == {} then rooms - {s}
    else rooms[s := Room(rest, if |rest| == 1 then rest else rooms[s].admins - {user})]
  }

  function Kicked(rooms: Rooms, user: string, s: string): Rooms
    requires s in rooms
  {
    rooms[s := Room(rooms[s].members - {user}, rooms[s].admins)]
  }

  function Promoted(rooms: Rooms, from: string, to: string, s: string): Rooms
    requires s in rooms
  {
    rooms[s := Room(rooms[s].members, rooms[s].admins - {from} + {to})]
  }

  // ----- what the records do -----

  /** Record k with another session, flag and role. */
  function Moved(t: Table, k: nat, s: string, inSession: bool, role: Role): Table
    requires k < |t|
  {
    t[k := t[k].(session := s, inSession := inSession, role := role)]
  }

  /** A user in no session moves into s: every other session is as before. */
  lemma MoveIn(t: Table, k: nat, s: string, role: Role, x: string)
    requires UniqueNames(t) && k < |t| && t[k].session == NOT_IN_SESSION
    requires s != NOT_IN_SESSION && x != NOT_IN_SESSION
    ensures var t' := Moved(t, k, s, true, role);
            Members(t', x) == Members(t, x) + (if x == s then {t[k].name} else {})
            && Admins(t', x) == Admins(t, x) + (if x == s && role == Admin then {t[k].name} else {})
  {
    RecordRewritten(t, k, t[k].(session := s, inSession := true, role := role), x);
    Own(t, k, x);
  }

  lemma NobodyIn(t: Table, s: string)
    requires UniqueNames(t) && Count(t, s) == 0
    ensures Members(t, s) == {} && Admins(t, s) == {}
  {
    hide Count;
    CountIsMembers(t, s);
    assert forall n :: n in Admins(t, s) ==> n in Members(t, s);
  }

  lemma OpenedSets(t: Table, k: nat, s: string, x: string)
    requires UniqueNames(t) && k < |t| && t[k].session == NOT_IN_SESSION && s != NOT_IN_SESSION
    requires Count(t, s) == 0 && x != NOT_IN_SESSION
    ensures var t' := Moved(t, k, s, true, Admin);
            Members(t', x) == (if x == s then {t[k].name} else Members(t, x))
            && Admins(t', x) == (if x == s then {t[k].name} else Admins(t, x))
  {
    hide Members, Admins, Count, Moved;
    NobodyIn(t, s);
    MoveIn(t, k, s, Admin, x);
  }

  lemma OpenedRefines(t: Table, k: nat, s: string)
    requires UniqueNames(t) && k < |t| && t[k].session == NOT_IN_SESSION && s != NOT_IN_SESSION
    requires Count(t, s) == 0
    ensures RoomsOf(Moved(t, k, s, true, Admin)) == Opened(RoomsOf(t), t[k].name, s)
  {
    hide Members, Admins, RoomsOf, Count, Moved, UniqueNames;
    RoomsAt(t);
    var t' := Moved(t, k, s, true, Admin);
    var rooms := Opened(RoomsOf(t), t[k].name, s);
    forall x | x != NOT_IN_SESSION
      ensures x in rooms <==> Members(t', x) != {}
      ensures x in rooms ==> rooms[x] == Room(Members(t', x), Admins(t', x))
    {
      OpenedSets(t, k, s, x);
    }
    RoomsAre(t', rooms);
  }

  lemma JoinedRefines(t: Table, k: nat, s: string)
    requires UniqueNames(t) && k < |t| && t[k].session == NOT_IN_SESSION && s != NOT_IN_SESSION
    requires Count(t, s) > 0
    ensures s in RoomsOf(t)
    ensures RoomsOf(Moved(t, k, s, true, Ordinary)) == Joined(RoomsOf(t), t[k].name, s)
  {
    hide Members, Admins, RoomsOf, Count, Moved, UniqueNames;
    CountIsMembers(t, s);
    RoomsAt(t);
    var t' := Moved(t, k, s, true, Ordinary);
    forall x | x != NOT_IN_SESSION
      ensures Members(t', x) == (if x == s then Members(t, x) + {t[k].name} else Members(t, x))
      ensures Admins(t', x) == Admins(t, x)
    {
      MoveIn(t, k, s, Ordinary, x);
    }
    RoomsAre(t', Joined(RoomsOf(t), t[k].name, s));
  }

  /** A user moves out of their session. */
  lemma MoveOut(t: Table, k: nat, x: string)
    requires UniqueNames(t) && k < |t| && t[k].session != NOT_IN_SESSION && x != NOT_IN_SESSION
    ensures var t' := t[k := Outside(t[k])];
            UniqueNames(t')
            && Members(t', x) == Members(t, x) - (if x == t[k].session then {t[k].name} else {})
            && Admins(t', x) == Admins(t, x) - (if x == t[k].session then {t[k].name} else {})
  {
    RecordRewritten(t, k, Outside(t[k]), x);
    Own(t, k, x);
  }

  lemma ExitMembers(t: Table, k: nat, x: string)
    requires UniqueNames(t) && k < |t| && t[k].session != NOT_IN_SESSION && x != NOT_IN_SESSION
    ensures var s := t[k].session;
            var rest := Members(t, s) - {t[k].name};
            var t' := ExitSession(t, k);
            UniqueNames(t')
            && Members(t', x) == (if x == s then rest else Members(t, x))
            && Admins(t', x) == (if x != s then Admins(t, x)
                                 else if |rest| == 1 then rest else Admins(t, x) - {t[k].name})
  {
    hide Members, Admins, Count;
    var s := t[k].session;
    var t1 := t[k := Outside(t[k])];
    MoveOut(t, k, x);
    MoveOut(t, k, s);
    CountIsMembers(t1, s);
    EveryoneAdmin(t1, s, x);
  }

  lemma LeftRefines(t: Table, k: nat)
    requires UniqueNames(t) && k < |t| && t[k].session != NOT_IN_SESSION
    ensures t[k].session in RoomsOf(t)
    ensures UniqueNames(ExitSession(t, k))
    ensures RoomsOf(ExitSession(t, k)) == Left(RoomsOf(t), t[k].name, t[k].session)
  {
    hide Members, Admins, RoomsOf, ExitSession;
    var s := t[k].session;
    Own(t, k, s);
    RoomsAt(t);
    var rest := Members(t, s) - {t[k].name};
    var t' := ExitSession(t, k);
    ExitMembers(t, k, s);
    forall x | x != NOT_IN_SESSION
      ensures Members(t', x) == (if x == s then rest else Members(t, x))
      ensures Admins(t', x) == (if x != s then Admins(t, x)
                                else if |rest| == 1 then rest else Admins(t, x) - {t[k].name})
    {
      ExitMembers(t, k, x);
    }
    RoomsAre(t', Left(RoomsOf(t), t[k].name, s));
  }

  lemma KickedRefines(t: Table, k: nat, j: nat)
    requires UniqueNames(t) && k < |t| && j < |t| && j != k
    requires t[k].session == t[j].session != NOT_IN_SESSION && t[k].role == Ordinary
    ensures t[k].session in RoomsOf(t)
    ensures UniqueNames(t[k := Outside(t[k])])
    ensures RoomsOf(t[k := Outside(t[k])]) == Kicked(RoomsOf(t), t[k].name, t[k].session)
  {
    hide Members, Admins, RoomsOf;
    var s := t[k].session;
    Own(t, j, s);
    Own(t, k, s);
    assert t[j].name != t[k].name;
    RoomsAt(t);
    var t' := t[k := Outside(t[k])];
    MoveOut(t, k, s);
    forall x | x != NOT_IN_SESSION
      ensures Members(t', x) == (if x == s then Members(t, s) - {t[k].name} else Members(t, x))
      ensures Admins(t', x) == Admins(t, x)
    {
      MoveOut(t, k, x);
    }
    assert t[j].name in Members(t', s);
    RoomsAre(t', Kicked(RoomsOf(t), t[k].name, s));
  }

  lemma SwapMembers(t: Table, from: nat, to: nat, x: string)
    requires UniqueNames(t) && from < |t| && to < |t| && from != to
    requires t[from].session == t[to].session
    ensures UniqueNames(RolesChanged(t, from, to))
    ensures Members(RolesChanged(t, from, to), x) == Members(t, x)
    ensures Admins(RolesChanged(t, from, to), x)
         == if x == t[from].session then Admins(t, x) - {t[from].name} + {t[to].name} else Admins(t, x)
  {
    hide Members, Admins;
    var t1 := t[to := t[to].(role := Admin)];
    RecordRewritten(t, to, t1[to], x);
    RecordRewritten(t1, from, t[from].(role := Ordinary), x);
    Own(t, from, x);
    Own(t, to, x);
    assert t[from].name != t[to].name;
  }

  lemma PromotedRefines(t: Table, from: nat, to: nat)
    requires UniqueNames(t) && from < |t| && to < |t| && from != to
    requires t[from].session == t[to].session != NOT_IN_SESSION
    ensures t[from].session in RoomsOf(t)
    ensures UniqueNames(RolesChanged(t, from, to))
    ensures RoomsOf(RolesChanged(t, from, to))
         == Promoted(RoomsOf(t), t[from].name, t[to].name, t[from].session)
  {
    hide Members, Admins, RoomsOf, RolesChanged;
    var s := t[from].session;
    Own(t, from, s);
    RoomsAt(t);
    SwapMembers(t, from, to, s);
    forall x | x != NOT_IN_SESSION
      ensures Members(RolesChanged(t, from, to), x) == Members(t, x)
      ensures Admins(RolesChanged(t, from, to), x)
           == (if x == s then Admins(t, x) - {t[from].name} + {t[to].name} else Admins(t, x))
    {
      SwapMembers(t, from, to, x);
    }
    RoomsAre(RolesChanged(t, from, to), Promoted(RoomsOf(t), t[from].name, t[to].name, s));
  }

  /** Everything else a handler rewrites (status, socket) leaves the sessions alone. */
  lemma SameRooms(t: Table, k: nat, u: User)
    requires UniqueNames(t) && k < |t| && u.name == t[k].name
    requires u.session == t[k].session && u.role == t[k].role
    ensures UniqueNames(t[k := u]) && RoomsOf(t[k := u]) == RoomsOf(t)
  {
    hide Members, Admins, RoomsOf;
    RoomsAt(t);
    RecordRewritten(t, k, u, "");
    forall x ensures Members(t[k := u], x) == Members(t, x) && Admins(t[k := u], x) == Admins(t, x) {
      RecordRewritten(t, k, u, x);
      Own(t, k, x);
    }
    RoomsAre(t[k := u], RoomsOf(t));
  }

  lemma AdminsOfLonger(t: Table, u: User, x: string)
    requires u.session != x
    ensures Admins(t + [u], x) == Admins(t, x)
  {
    var t' := t + [u];
    forall n ensures n in Admins(t', x) <==> n in Admins(t, x) {
      if n in Admins(t, x) {
        var i :| 0 <= i < |t| && t[i].session == x && t[i].role == Admin && t[i].name == n;
        assert t'[i].name == n;
      }
    }
  }

  lemma NewcomerUnique(t: Table, u: User)
    requires UniqueNames(t) && Search(t, u.name) == |t|
    ensures UniqueNames(t + [u])
  {
    hide Search;
  }

  /** A new user, in no session. */
  lemma NewcomerRooms(t: Table, u: User)
    requires UniqueNames(t) && Search(t, u.name) == |t| && u.session == NOT_IN_SESSION
    ensures UniqueNames(t + [u]) && RoomsOf(t + [u]) == RoomsOf(t)
  {
    hide Members, Admins, RoomsOf, Search, UniqueNames;
    NewcomerUnique(t, u);
    RoomsAt(t);
    forall x | x != NOT_IN_SESSION
      ensures Members(t + [u], x) == Members(t, x) && Admins(t + [u], x) == Admins(t, x)
    {
      MembersOfLonger(t, u, x);
      AdminsOfLonger(t, u, x);
    }
    RoomsAre(t + [u], RoomsOf(t));
  }
}
