// server/user.c and the handlers of server/server.c as they are written: loops over an
// array of records that are rewritten in place, with the two mutexes around them.
module ConferenceServer {
  import opened Users
  import opened Sessions

  class UserList {
    const slots: array<User>
    var count: nat
    var listLocked: bool
    var rwLocked: bool
    var file: string

    constructor (blank: User, database: string)
      ensures Valid() && fresh(slots)
      ensures View() == Server([], database, false, false, false)
    {
      slots := new User[MAX_USER_COUNT](_ => blank);
      count, listLocked, rwLocked, file := 0, false, false, database;
    }

    ghost predicate Valid()
      reads this
    {
      slots.Length == MAX_USER_COUNT && count <= slots.Length
    }

    /** The records in use. */
    ghost function Records(): Table
      requires Valid()
      reads this, slots
    {
      slots[..count]
    }

    ghost function View(): Server
      requires Valid()
      reads this, slots
    {
      Server(Records(), file, listLocked, rwLocked, false)
    }

    /** Both mutexes are free: a handler that starts now does not block. */
    ghost predicate Free()
      reads this
    {
      !listLocked && !rwLocked
    }

    // ----- user.c -----

    /** database_search_user: the slot, or count for NULL. */
    method DatabaseSearchUser(name: string) returns (i: nat)
      requires Valid()
      ensures i == Search(Records(), name)
    {
      i := 0;
      while i < count
        invariant i <= count && forall j :: 0 <= j < i ==> slots[j].name != name
      {
        if slots[i].name == name { return; }
        i := i + 1;
      }
    }

    /** get_user_count_in_a_session. */
    method GetUserCountInASession(session: string) returns (n: nat)
      requires Valid() && !rwLocked
      modifies this`rwLocked
      ensures n == Count(Records(), session) && !rwLocked
    {
      rwLocked := true;
      n := 0;
      var i := 0;
      while i < count
        invariant i <= count && n == Count(slots[..i], session)
      {
        assert slots[..i + 1][..i] == slots[..i];
        if slots[i].session == session { n := n + 1; }
        i := i + 1;
      }
      rwLocked := false;
    }

    /** set_the_only_user_admin. */
    method SetTheOnlyUserAdmin(session: string)
      requires Valid() && !rwLocked
      modifies slots, this`rwLocked
      ensures Records() == AllAdmins(old(Records()), session) && !rwLocked
    {
      rwLocked := true;
      ghost var t := Records();
      var i := 0;
      while i < count
        invariant i <= count
        invariant slots[..i] == AllAdmins(t, session)[..i] && slots[i..count] == t[i..]
      {
        assert slots[i] == t[i];
        if slots[i].session == session {
          if slots[i].role == Ordinary {
            slots[i] := slots[i].(role := Admin);
          }
        }
        i := i + 1;
      }
      rwLocked := false;
    }

    /** user_exit_current_session; its early return keeps the mutex. */
    method UserExitCurrentSession(name: string)
      requires Valid() && !rwLocked && Search(Records(), name) < count
      modifies slots, this`rwLocked
      ensures var t, k := old(Records()), old(Search(Records(), name));
              if t[k].session == NOT_IN_SESSION then rwLocked && Records() == t
              else !rwLocked && Records() == ExitSession(t, k)
    {
      rwLocked := true;
      var k := DatabaseSearchUser(name);
      var session := slots[k].session;
      if slots[k].session == NOT_IN_SESSION { return; }
      slots[k] := slots[k].(inSession := false, role := Ordinary, session := NOT_IN_SESSION);
      rwLocked := false;
      assert Records() == old(Records())[k := Outside(old(Records())[k])];
      var left := GetUserCountInASession(session);
      if left == 1 {
        SetTheOnlyUserAdmin(session);
      }
    }

    /** get_active_user_list_in_a_session: one line a member, if the session exists. */
    method GetActiveUserList(session: string) returns (found: bool, list: string)
      requires Valid() && !rwLocked
      modifies this`rwLocked
      ensures found == (Count(Records(), session) != 0) && !rwLocked
      ensures found ==> list == SessionList(Records(), session)
    {
      hide Count, ListLine, ListLines;
      var n := GetUserCountInASession(session);
      if n == 0 { return false, ""; }
      found := true;
      rwLocked := true;
      list := LIST_TITLE + ListLine("Username", "Session ID", "Role");
      var lines := MemberLines(session);
      list := list + lines;
      rwLocked := false;
    }

    /** Its loop: one line for each user whose session this is. */
    method MemberLines(session: string) returns (list: string)
      requires Valid()
      ensures list == ListLines(Records(), session)
    {
      hide ListLine;
      list := "";
      var i := 0;
      while i < count
        invariant i <= count && list == ListLines(slots[..i], session)
      {
        assert slots[..i + 1][..i] == slots[..i];
        if slots[i].session == session {
          var role := if slots[i].role == Admin then "ADMIN" else "USER";
          list := list + ListLine(slots[i].name, slots[i].session, role);
        }
        i := i + 1;
      }
    }

    /** get_active_user_list_in_database: one line for each user online. */
    method GetOnlineList() returns (list: string)
      requires Valid() && !rwLocked
      modifies this`rwLocked
      ensures list == OnlineList(Records()) && !rwLocked
    {
      hide PairLine;
      rwLocked := true;
      list := LIST_TITLE + PairLine("Username", "Session ID");
      ghost var head := list;
      var i := 0;
      while i < count
        invariant i <= count && list == head + OnlineLines(slots[..i])
      {
        assert slots[..i + 1][..i] == slots[..i];
        if slots[i].online {
          list := list + PairLine(slots[i].name, slots[i].session);
        }
        i := i + 1;
      }
      rwLocked := false;
    }

    /** user_database_add_user. */
    method AddUser(user: User) returns (code: RegistrationCode)
      requires Valid() && !rwLocked
      modifies this`count, this`rwLocked, slots
      ensures Valid() && !rwLocked && code == AddCode(old(Records()), user.name)
      ensures Records() == if code == AddUserSuccess then old(Records()) + [user] else old(Records())
    {
      rwLocked := true;
      if count >= MAX_USER_COUNT {
        rwLocked := false;
        return UserListFull;
      }
      var k := DatabaseSearchUser(user.name);
      if k < count {
        rwLocked := false;
        return UserAlreadyExist;
      }
      slots[count] := user;
      count := count + 1;
      rwLocked := false;
      code := AddUserSuccess;
    }

    // ----- server.c -----

    /** server_side_session_create. */
    method SessionCreate(name: string, session: string) returns (out: seq<Reply>)
      requires Valid() && Free() && Known(View(), name)
      modifies this`listLocked, this`rwLocked, slots
      ensures (View(), out) == Create(old(View()), name, session)
    {
      listLocked := true;
      var k := DatabaseSearchUser(name);
      var n := GetUserCountInASession(session);
      if n == 0 {
        slots[k] := slots[k].(session := session, inSession := true, role := Admin);
        out := [Reply(slots[k].fd, NS_ACK, name, session)];
      } else {
        out := [Reply(slots[k].fd, NEW_SESS, name, SESSION_EXISTS)];
      }
      listLocked := false;
    }

    /** server_side_session_join. */
    method SessionJoin(name: string, session: string) returns (out: seq<Reply>)
      requires Valid() && Free() && Known(View(), name)
      modifies this`listLocked, this`rwLocked, slots
      ensures (View(), out) == Join(old(View()), name, session)
    {
      listLocked := true;
      var k := DatabaseSearchUser(name);
      var n := GetUserCountInASession(session);
      if slots[k].inSession {
        out := [Reply(slots[k].fd, JN_NAK, name, USER_NAME_IN_SESSION)];
      } else if n == 0 {
        out := [Reply(slots[k].fd, JN_NAK, name, SESSION_NAME_INVALID)];
      } else if n == MAX_SESSION_USER {
        out := [Reply(slots[k].fd, JN_NAK, name, SESSION_AT_FULL_CAPACITY)];
      } else {
        slots[k] := slots[k].(session := session, inSession := true);
        out := [Reply(slots[k].fd, JN_ACK, name, session)];
      }
      listLocked := false;
    }

    /** server_side_session_leave; its early return keeps the mutex. */
    method SessionLeave(name: string) returns (out: seq<Reply>)
      requires Valid() && Free() && Known(View(), name)
      modifies this`listLocked, this`rwLocked, slots
      ensures (View(), out) == Leave(old(View()), name)
    {
      out := [];
      listLocked := true;
      var k := DatabaseSearchUser(name);
      if !slots[k].inSession { return; }
      UserExitCurrentSession(name);
      var i := 0;
      while i < count
        invariant i <= count && out == AdminNotices(slots[..i])
      {
        assert slots[..i + 1][..i] == slots[..i];
        if slots[i].role == Admin {
          out := out + [Reply(slots[i].fd, PM_MESSAGE, "server", "")];
        }
        i := i + 1;
      }
      listLocked := false;
    }

    /** server_side_user_exit. */
    method ExitUser(name: string) returns (out: seq<Reply>)
      requires Valid() && Free() && Known(View(), name)
      modifies this`listLocked, this`rwLocked, slots
      ensures (View(), out) == UserExit(old(View()), name)
    {
      out := [];
      var k := DatabaseSearchUser(name);
      if slots[k].inSession {
        out := SessionLeave(name);
      }
      listLocked := true;
      slots[k] := slots[k].(online := false, fd := 0);
      listLocked := false;
    }

    /** server_side_kick_user. */
    method KickUser(sender: string, target: string) returns (out: seq<Reply>)
      requires Valid() && Free() && Known(View(), sender)
      modifies this`listLocked, slots
      ensures (View(), out) == Kick(old(View()), sender, target)
    {
      listLocked := true;
      var j := DatabaseSearchUser(target);
      var k := DatabaseSearchUser(sender);
      var why := CheckTarget(k, j);
      if why != "" {
        out := [Reply(slots[k].fd, KI_NAK, sender, why)];
      } else {
        slots[j] := slots[j].(inSession := false, session := NOT_IN_SESSION);
        out := [Reply(slots[j].fd, KI_MESSAGE, "server", slots[k].session),
                Reply(slots[k].fd, KI_ACK, sender, slots[j].name)];
      }
      listLocked := false;
    }

    /** The early returns that kick and promote have in common. */
    method CheckTarget(k: nat, j: nat) returns (why: string)
      requires Valid() && k < count && j <= count
      ensures why == if j == count then USER_DOES_NOT_EXIST
                     else if !slots[j].online then USER_NOT_ONLINE
                     else if !slots[j].inSession then USER_NOT_IN_SESSION
                     else if slots[j].session != slots[k].session then USER_IN_DIFFERENT_SESSION
                     else if slots[j].role == Admin then TARGET_IS_ADMIN
                     else ""
    {
      if j == count { return USER_DOES_NOT_EXIST; }
      if !slots[j].online { return USER_NOT_ONLINE; }
      if !slots[j].inSession { return USER_NOT_IN_SESSION; }
      if slots[j].session != slots[k].session { return USER_IN_DIFFERENT_SESSION; }
      if slots[j].role == Admin { return TARGET_IS_ADMIN; }
      why := "";
    }

    /** server_side_promote_user. */
    method PromoteUser(sender: string, target: string) returns (out: seq<Reply>)
      requires Valid() && Free() && Known(View(), sender)
      modifies this`listLocked, slots
      ensures (View(), out) == Promote(old(View()), sender, target)
    {
      listLocked := true;
      var j := DatabaseSearchUser(target);
      var k := DatabaseSearchUser(sender);
      var why := CheckTarget(k, j);
      if why != "" {
        out := [Reply(slots[k].fd, PM_NAK, sender, why)];
      } else {
        slots[j] := slots[j].(role := Admin);
        slots[k] := slots[k].(role := Ordinary);
        out := [Reply(slots[j].fd, PM_MESSAGE, "server", ""), Reply(slots[k].fd, PM_ACK, sender, slots[j].name)];
      }
      listLocked := false;
    }

    /** verify_login. */
    method Verify(name: string, password: string) returns (code: LoginCode)
      requires Valid()
      ensures code == VerifyLogin(Records(), name, password)
    {
      var k := DatabaseSearchUser(name);
      if k == count { return UsernameError; }
      if slots[k].password == password {
        return if slots[k].online then AlreadyLogin else SuccessLogin;
      }
      code := PasswordError;
    }

    /** The LOGIN branch of connection_handler, with user_login. */
    method LogIn(name: string, password: string, fd: int) returns (out: seq<Reply>)
      requires Valid() && Free()
      modifies this`listLocked, slots
      ensures (View(), out) == Login(old(View()), name, password, fd)
    {
      var code := Verify(name, password);
      if code == SuccessLogin {
        listLocked := true;
        var k := DatabaseSearchUser(name);
        slots[k] := slots[k].(online := true, fd := fd);
        listLocked := false;
        out := [Reply(fd, LO_ACK, name, "")];
      } else {
        out := [Reply(fd, LO_NAK, name, LoginMessage(code))];
      }
    }

    /** The CREATE branch of connection_handler, with user_registration and
        write_to_database. */
    method RegisterUser(name: string, password: string, fd: int)
      returns (code: RegistrationCode, out: seq<Reply>)
      requires Valid() && Free()
      modifies this, slots
      ensures Valid() && (View(), out) == Register(old(View()), name, password, fd)
      ensures code == AddCode(old(Records()), name)
    {
      listLocked := true;
      code := AddUser(User(name, password, NOT_IN_SESSION, false, true, fd, Ordinary));
      if code == UserAlreadyExist || code == UserListFull {
        out := [Reply(fd, RG_NAK, name, RegistrationMessage(code))];
      } else {
        var last := slots[count - 1];
        assert last == Records()[|Records()| - 1] == NewUser(name, password, true, fd);
        file := file + "\n\"" + last.name + "\":\"" + last.password + "\"";
        assert file == old(file) + FileLine(name, password);
        out := [Reply(fd, RG_ACK, name, "")];
      }
      listLocked := false;
    }

    /** send_message_in_a_session: the sockets written to. */
    method SendMessageInASession(session: string) returns (to: seq<int>)
      requires Valid() && Free()
      modifies this`listLocked
      ensures to == Recipients(Records(), session) && Free()
    {
      listLocked := true;
      to := [];
      var i := 0;
      while i < count
        invariant i <= count && to == Recipients(slots[..i], session)
      {
        assert slots[..i + 1][..i] == slots[..i];
        var u := slots[i];
        i := i + 1;
        if !u.online { continue; }
        if !u.inSession { continue; }
        if u.session == session { to := to + [u.fd]; }
      }
      listLocked := false;
    }
  }
}
