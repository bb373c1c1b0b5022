// When a session has no admin, and when it gets one back.
module ConferenceRoles {
  import opened Users
  import opened SessionProof
  import opened Conference
  import opened ConferenceProof
  import opened ConferenceSteps
  import opened ConferenceTheorems

  /** Commands that take a user out of the session for good. */
  predicate Goes(cmd: Command) { cmd.DoLeave? || cmd.DoLogout? || cmd.Crash? }

  /** The admin of a session goes, and two or more stay. */
  predicate AdminGoes(r: Room, c: Client, cmd: Command) {
    Goes(cmd) && c.verified && c.name in r.admins && |r.members| > 2
  }

  lemma LeftWithout(r: Room, user: string)
    requires RoomOk(r) && user in r.members
    ensures var rest := r.members - {user};
            var admins := if |rest| == 1 then rest else r.admins - {user};
            rest != {} && r.admins != {} ==> (admins == {} <==> user in r.admins && |r.members| > 2)
  {
    var rest := r.members - {user};
    assert r.members == rest + {user} && |r.members| == |rest| + 1;
    if user in r.admins {
      OnlyOne(r.admins, user);
    }
  }

  /** A member's session is the one where the record says it is. */
  lemma HomeOfMember(w: World, fd: int, s: string)
    requires Agree(w) && fd in w.peers && w.peers[fd].client.verified
    requires s in RoomsOf(w.server.users) && w.peers[fd].client.name in RoomsOf(w.server.users)[s].members
    ensures Home(w, fd) == s
  {
    hide Agree, Search, Members, Admins, RoomsOf;
    var k := Search(w.server.users, w.peers[fd].client.name);
    OwnRecord(w, fd, k);
    TableOf(w);
    RoomsAt(w.server.users);
    Own(w.server.users, k, s);
  }

  /** What is known of the abstract sessions of a reachable state. */
  lemma RoomsHere(w: World)
    requires Reachable(w)
    ensures Agree(w) && RoomsOk(RoomsOf(w.server.users))
  {
    hide Agree, Reachable, RoomsOf;
    AlwaysAgree(w);
    TableOf(w);
  }

  /** A session with an admin that goes on existing loses it exactly when its admin leaves,
      logs out or dies and at least two members stay behind. */
  lemma AdminLost(w: World, fd: int, cmd: Command, s: string)
    requires Reachable(w) && fd in w.peers && CommandOk(cmd)
    requires s in RoomsOf(w.server.users) && RoomsOf(w.server.users)[s].admins != {}
    requires s in RoomsOf(Step(w, fd, cmd).server.users)
    ensures RoomsOf(Step(w, fd, cmd).server.users)[s].admins == {}
       <==> AdminGoes(RoomsOf(w.server.users)[s], w.peers[fd].client, cmd)
  {
    hide Agree, Reachable, RoomsOf, Step, Home, CommandOk;
    RoomsHere(w);
    StepRefines(w, fd, cmd);
    var c, rooms := w.peers[fd].client, RoomsOf(w.server.users);
    if c.verified && c.name in rooms[s].members { HomeOfMember(w, fd, s); }
    LostByMeaning(rooms, c, Home(w, fd), cmd, s);
  }

  lemma LostByMeaning(rooms: Rooms, c: Client, home: string, cmd: Command, s: string)
    requires RoomsOk(rooms) && s in rooms && rooms[s].admins != {}
    requires c.verified && c.name in rooms[s].members ==> home == s
    requires s in Meaning(rooms, c, home, cmd)
    ensures Meaning(rooms, c, home, cmd)[s].admins == {} <==> AdminGoes(rooms[s], c, cmd)
  {
    var after := Meaning(rooms, c, home, cmd);
    if Goes(cmd) && c.verified && In(rooms, home, c.name) && home == s {
      LeftWithout(rooms[s], c.name);
    } else if cmd.DoPromote? && after != rooms && home == s {
      assert cmd.target in after[s].admins;
    }
  }

  /** A session without an admin gets one only when someone goes and one member is left,
      who then is the admin. */
  lemma AdminBack(w: World, fd: int, cmd: Command, s: string)
    requires Reachable(w) && fd in w.peers && CommandOk(cmd)
    requires s in RoomsOf(w.server.users) && RoomsOf(w.server.users)[s].admins == {}
    requires s in RoomsOf(Step(w, fd, cmd).server.users)
    requires RoomsOf(Step(w, fd, cmd).server.users)[s].admins != {}
    ensures Goes(cmd) && |RoomsOf(Step(w, fd, cmd).server.users)[s].members| == 1
    ensures RoomsOf(Step(w, fd, cmd).server.users)[s].admins == RoomsOf(Step(w, fd, cmd).server.users)[s].members
  {
    hide Agree, Reachable, RoomsOf, Step, Home, CommandOk;
    StepRefines(w, fd, cmd);
    BackByMeaning(RoomsOf(w.server.users), w.peers[fd].client, Home(w, fd), cmd, s);
  }

  lemma BackByMeaning(rooms: Rooms, c: Client, home: string, cmd: Command, s: string)
    requires s in rooms && rooms[s].admins == {} && s in Meaning(rooms, c, home, cmd)
    requires Meaning(rooms, c, home, cmd)[s].admins != {}
    ensures var r := Meaning(rooms, c, home, cmd)[s]; Goes(cmd) && |r.members| == 1 && r.admins == r.members
  {
  }

  /** Session s has two members or more in every state of the run after its start. */
  ghost predicate NeverAlone(w: World, acts: seq<Act>, s: string)
    decreases |acts|
  {
    acts == [] ||
    (acts[0].fd in w.peers &&
     var v := Step(w, acts[0].fd, acts[0].cmd);
     s in RoomsOf(v.server.users) && |RoomsOf(v.server.users)[s].members| > 1 && NeverAlone(v, acts[1..], s))
  }

  /** Hence over runs: once without an admin, a session stays without one until a single
      member is left. */
  lemma {:induction false} StaysWithout(w: World, acts: seq<Act>, v: World, s: string)
    requires Reachable(w) && Run(w, acts, v) && NeverAlone(w, acts, s)
    requires s in RoomsOf(w.server.users) && RoomsOf(w.server.users)[s].admins == {}
    ensures s in RoomsOf(v.server.users) && RoomsOf(v.server.users)[s].admins == {}
    decreases |acts|
  {
    hide Reachable, RoomsOf, Step, CommandOk;
    if acts != [] {
      var w1 := Step(w, acts[0].fd, acts[0].cmd);
      if RoomsOf(w1.server.users)[s].admins != {} {
        AdminBack(w, acts[0].fd, acts[0].cmd, s);
      }
      ReachableNext(w, acts[0]);
      StaysWithout(w1, acts[1..], v, s);
    }
  }
}
