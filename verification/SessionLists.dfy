// What the two lists of users show, byte for byte.
module SessionLists {
  import opened Users
  import opened Sessions
  import opened Conference
  import opened ConferenceProof
  import opened ConferenceSteps
  import opened ConferenceTheorems

  /** A sequence holds exactly the elements of a set, each once. */
  ghost predicate Enumerates<T(!new)>(s: seq<T>, all: set<T>) {
    (forall i, j :: 0 <= i < j < |s| ==> s[i] != s[j]) && forall x :: x in s <==> x in all
  }

  function Spaces(n: int): string { if n <= 0 then "" else " " + Spaces(n - 1) }

  // ----- the list of a session -----

  const SESSION_HEADING := "Active User List:\n" + "Username          Session ID Role  \n"

  /** One row a member: the name filled to 17 columns, the session to 10, and the role. */
  function MemberRows(names: seq<string>, session: string, admins: set<string>): string {
    if names == [] then ""
    else
      var name := names[|names| - 1];
      MemberRows(names[..|names| - 1], session, admins) + MemberRow(name, session, name in admins)
  }

  function MemberRow(name: string, session: string, admin: bool): string {
    name + Spaces(17 - |name|) + " " + session + Spaces(10 - |session|) + " "
    + (if admin then "ADMIN " else "USER  ") + "\n"
  }

  lemma {:induction false} FillIs(s: string, n: nat)
    ensures s + seq(n, _ => ' ') == s + Spaces(n)
  {
    if n > 0 {
      FillIs(s, n - 1);
      assert seq(n, _ => ' ') == " " + seq(n - 1, _ => ' ');
      assert (s + seq(n - 1, _ => ' '))[|s|..] == seq(n - 1, _ => ' ');
      assert (s + Spaces(n - 1))[|s|..] == Spaces(n - 1);
    }
  }

  lemma PaddedIs(s: string, width: nat)
    ensures Padded(s, width) == s + Spaces(width - |s|)
  {
    if |s| < width { FillIs(s, width - |s|); }
  }

  lemma RoleColumn(r: Role)
    ensures Padded(RoleText(r), 6) == if r == Admin then "ADMIN " else "USER  "
  {
  }

  lemma Regrouped(x: string, y: string, z: string)
    ensures x + (y + z) == x + y + z
  {
  }

  lemma RowIs(name: string, session: string, r: Role)
    ensures ListLine(name, session, RoleText(r)) == MemberRow(name, session, r == Admin)
  {
    hide Padded, Spaces, RoleText;
    PaddedIs(name, MAX_NAME);
    PaddedIs(session, MAX_SESSION_COUNT);
    RoleColumn(r);
    Regrouped(name + Spaces(17 - |name|) + " ", session, Spaces(10 - |session|));
  }

  lemma HeadingIs()
    ensures LIST_TITLE + ListLine("Username", "Session ID", "Role") == SESSION_HEADING
    ensures |SESSION_HEADING| == 54
  {
    assert Padded("Username", 17) == "Username         ";
    assert Padded("Session ID", 10) == "Session ID";
    assert Padded("Role", 6) == "Role  ";
  }

  /** The members of a session, in table order. */
  function InOrder(t: Table, session: string): seq<string> {
    if t == [] then []
    else InOrder(t[..|t| - 1], session) + (if t[|t| - 1].session == session then [t[|t| - 1].name] else [])
  }

  lemma RowsOneMore(names: seq<string>, name: string, session: string, admins: set<string>)
    ensures MemberRows(names + [name], session, admins)
         == MemberRows(names, session, admins) + MemberRow(name, session, name in admins)
  {
    hide MemberRow;
    assert (names + [name])[..|names|] == names;
  }

  lemma {:induction false} LinesAreRows(t: Table, session: string, admins: set<string>)
    requires forall i :: 0 <= i < |t| && t[i].session == session ==> (t[i].role == Admin <==> t[i].name in admins)
    ensures ListLines(t, session) == MemberRows(InOrder(t, session), session, admins)
  {
    hide ListLine, MemberRow;
    if t != [] {
      var n := |t| - 1;
      assert forall i :: 0 <= i < n ==> t[..n][i] == t[i];
      LinesAreRows(t[..n], session, admins);
      if t[n].session == session {
        RowIs(t[n].name, session, t[n].role);
        RowsOneMore(InOrder(t[..n], session), t[n].name, session, admins);
      } else {
        assert InOrder(t, session) == InOrder(t[..n], session);
      }
    }
  }

  lemma {:induction false} InOrderEnumerates(t: Table, session: string)
    requires UniqueNames(t)
    ensures Enumerates(InOrder(t, session), Members(t, session))
  {
    hide Members;
    if t == [] {
      NoMembers(session);
    } else {
      var n := |t| - 1;
      InOrderEnumerates(t[..n], session);
      assert t == t[..n] + [t[n]];
      MembersOfLonger(t[..n], t[n], session);
      NewName(t, session);
    }
  }

  lemma NoMembers(session: string)
    ensures Members([], session) == {}
  {
  }

  lemma NewName(t: Table, session: string)
    requires UniqueNames(t) && t != []
    ensures t[|t| - 1].name !in Members(t[..|t| - 1], session)
  {
  }

  /** The bytes of one line of a session's list: the columns have fixed widths, except for
      a session name of more than ten bytes. */
  function LineWidth(session: string): nat {
    26 + if |session| < MAX_SESSION_COUNT then MAX_SESSION_COUNT else |session|
  }

  lemma LineHasWidth(name: string, session: string, role: Role)
    requires |name| < MAX_NAME
    ensures |ListLine(name, session, RoleText(role))| == LineWidth(session)
  {
  }

  lemma {:induction false} LinesWidth(t: Table, session: string)
    requires forall j :: 0 <= j < |t| ==> |t[j].name| < MAX_NAME
    ensures |ListLines(t, session)| == Count(t, session) * LineWidth(session)
  {
    hide ListLine, LineWidth;
    if t != [] {
      var n := |t| - 1;
      assert forall j :: 0 <= j < n ==> t[..n][j] == t[j];
      LinesWidth(t[..n], session);
      LineHasWidth(t[n].name, session, t[n].role);
      assert (Count(t[..n], session) + 1) * LineWidth(session)
          == Count(t[..n], session) * LineWidth(session) + LineWidth(session);
    }
  }

  /** Six lines of at most 45 bytes. */
  lemma SixLines(t: Table, session: string)
    requires session in RoomsOf(t) && RoomOk(RoomsOf(t)[session])
    requires forall i :: 0 <= i < |t| ==> Sane(t[i])
    ensures |RoomsOf(t)[session].members| * LineWidth(session) <= 270
  {
    hide Members, Admins;
    var i :| 0 <= i < |t| && t[i].session == session;
    assert Sane(t[i]);
    Product(|RoomsOf(t)[session].members|, LineWidth(session));
  }

  lemma Product(n: nat, width: nat)
    requires n <= MAX_SESSION_USER && width <= 45
    ensures n * width <= 270
  {
    assert n * width <= MAX_SESSION_USER * width;
  }

  /** Some order of the members, row by row. */
  ghost predicate ShowsRoom(list: string, session: string, room: Room) {
    exists names :: Enumerates(names, room.members)
                    && list == SESSION_HEADING + MemberRows(names, session, room.admins)
  }

  /** In every reachable state the list of a session that exists is a heading of 54 bytes
      and one row for each member, with name, session and role in their columns, and nothing
      else: at most 324 bytes, so it fits the 1000 bytes of message data. */
  lemma ListExact(w: World, session: string)
    requires Reachable(w) && session in RoomsOf(w.server.users)
    ensures ShowsRoom(SessionList(w.server.users, session), session, RoomsOf(w.server.users)[session])
    ensures |SessionList(w.server.users, session)|
         == 54 + |RoomsOf(w.server.users)[session].members| * LineWidth(session) <= 324
  {
    hide Agree, Reachable, RoomsOf, ListLines, ListLine, Members, Admins, MemberRows, Enumerates, LineWidth, Count;
    AlwaysAgree(w);
    var t := w.server.users;
    TableOf(w);
    RoomsAt(t);
    HeadingIs();
    RolesAre(t, session);
    LinesAreRows(t, session, Admins(t, session));
    InOrderEnumerates(t, session);
    CountIsMembers(t, session);
    SixLines(t, session);
    LinesWidth(t, session);
  }

  lemma RolesAre(t: Table, session: string)
    requires UniqueNames(t)
    ensures forall i :: 0 <= i < |t| && t[i].session == session ==>
              (t[i].role == Admin <==> t[i].name in Admins(t, session))
  {
    hide Admins, Members;
    forall i | 0 <= i < |t| && t[i].session == session ensures t[i].role == Admin <==> t[i].name in Admins(t, session) {
      Own(t, i, session);
    }
  }

  /** A query is answered with that list if and only if the session exists. */
  lemma QueryExact(w: World, source: string, session: string, fd: int)
    requires Reachable(w) && session != NOT_IN_SESSION
    ensures SessionQuery(w.server, source, session, fd)
         == [if session in RoomsOf(w.server.users)
             then Reply(fd, SQ_ACK, source, SessionList(w.server.users, session))
             else Reply(fd, SQ_NAK, source, SESSION_NAME_INVALID)]
  {
    hide Agree, Reachable, RoomsOf, SessionList, Members;
    AlwaysAgree(w);
    TableOf(w);
    RoomsAt(w.server.users);
    CountIsMembers(w.server.users, session);
  }

  // ----- the list of all users online -----

  const ONLINE_HEADING := "Active User List:\n" + "Username          Session ID\n"

  /** Users with their sessions, one row each. */
  function UserRows(entries: seq<(string, string)>): string {
    if entries == [] then ""
    else
      var (name, session) := entries[|entries| - 1];
      UserRows(entries[..|entries| - 1]) + UserRow(name, session)
  }

  function UserRow(name: string, session: string): string {
    name + Spaces(17 - |name|) + " " + session + Spaces(10 - |session|) + "\n"
  }

  lemma PairRowIs(name: string, session: string)
    ensures PairLine(name, session) == UserRow(name, session)
  {
    hide Padded, Spaces;
    PaddedIs(name, MAX_NAME);
    PaddedIs(session, MAX_SESSION_COUNT);
    Regrouped(name + Spaces(17 - |name|) + " ", session, Spaces(10 - |session|));
  }

  lemma OnlineHeadingIs()
    ensures LIST_TITLE + PairLine("Username", "Session ID") == ONLINE_HEADING
  {
    assert Padded("Username", 17) == "Username         ";
    assert Padded("Session ID", 10) == "Session ID";
  }

  /** The users online, in table order. */
  function OnlineInOrder(t: Table): seq<(string, string)> {
    if t == [] then []
    else
      var u := t[|t| - 1];
      OnlineInOrder(t[..|t| - 1]) + (if u.online then [(u.name, u.session)] else [])
  }

  lemma UsersOneMore(entries: seq<(string, string)>, e: (string, string))
    ensures UserRows(entries + [e]) == UserRows(entries) + UserRow(e.0, e.1)
  {
    hide UserRow;
    assert (entries + [e])[..|entries|] == entries;
  }

  lemma {:induction false} OnlineAreRows(t: Table)
    ensures OnlineLines(t) == UserRows(OnlineInOrder(t))
  {
    hide PairLine, UserRow;
    if t != [] {
      var n := |t| - 1;
      OnlineAreRows(t[..n]);
      if t[n].online {
        PairRowIs(t[n].name, t[n].session);
        UsersOneMore(OnlineInOrder(t[..n]), (t[n].name, t[n].session));
      } else {
        assert OnlineInOrder(t) == OnlineInOrder(t[..n]);
      }
    }
  }

  predicate OnlineAt(t: Table, i: nat, e: (string, string)) {
    i < |t| && t[i].online && e == (t[i].name, t[i].session)
  }

  ghost predicate IsOnline(t: Table, e: (string, string)) { exists i: nat :: OnlineAt(t, i, e) }

  lemma OneMoreOnline(t: Table, e: (string, string))
    requires t != []
    ensures var u := t[|t| - 1];
            IsOnline(t, e) <==> IsOnline(t[..|t| - 1], e) || (u.online && e == (u.name, u.session))
  {
    var n := |t| - 1;
    if i: nat :| OnlineAt(t, i, e) { assert i < n ==> OnlineAt(t[..n], i, e); }
    if i: nat :| OnlineAt(t[..n], i, e) { assert OnlineAt(t, i, e); }
    if t[n].online && e == (t[n].name, t[n].session) { assert OnlineAt(t, n, e); }
  }

  lemma {:induction false} OnlineOnce(t: Table)
    requires UniqueNames(t)
    ensures forall e :: e in OnlineInOrder(t) <==> IsOnline(t, e)
    ensures forall i, j :: 0 <= i < j < |OnlineInOrder(t)| ==> OnlineInOrder(t)[i] != OnlineInOrder(t)[j]
  {
    if t != [] {
      var n := |t| - 1;
      OnlineOnce(t[..n]);
      forall e ensures e in OnlineInOrder(t) <==> IsOnline(t, e) { OneMoreOnline(t, e); }
      var last := (t[n].name, t[n].session);
      assert !IsOnline(t[..n], last);
      assert last !in OnlineInOrder(t[..n]);
    }
  }

  /** Who is logged in, and where. */
  function Present(w: World): set<(string, string)> {
    set x | x in w.peers && w.peers[x].client.verified :: (w.peers[x].client.name, Home(w, x))
  }

  ghost predicate ShowsUsers(list: string, users: set<(string, string)>) {
    exists entries :: Enumerates(entries, users) && list == ONLINE_HEADING + UserRows(entries)
  }

  /** In every reachable state the list of users online is a heading and one row for each
      user that some client is logged in as, with the session this user is in. */
  lemma OnlineListExact(w: World)
    requires Reachable(w)
    ensures ShowsUsers(OnlineList(w.server.users), Present(w))
  {
    hide Agree, Reachable, PairLine, OnlineLines, UserRows, OnlineInOrder, IsOnline, Present;
    AlwaysAgree(w);
    TableOf(w);
    var t := w.server.users;
    OnlineHeadingIs();
    OnlineAreRows(t);
    OnlineOnce(t);
    forall e ensures e in OnlineInOrder(t) <==> e in Present(w) {
      PresentIsOnline(w, e);
    }
    assert Enumerates(OnlineInOrder(t), Present(w));
  }

  lemma PresentIsOnline(w: World, e: (string, string))
    requires Agree(w)
    ensures e in Present(w) <==> IsOnline(w.server.users, e)
  {
    hide Agree, Search;
    var t := w.server.users;
    if i: nat :| OnlineAt(t, i, e) {
      OwnerOf(w, i);
      OwnRecord(w, t[i].fd, i);
      assert e == (w.peers[t[i].fd].client.name, Home(w, t[i].fd));
    }
    if e in Present(w) {
      var x :| x in w.peers && w.peers[x].client.verified && e == (w.peers[x].client.name, Home(w, x));
      var k := Search(t, w.peers[x].client.name);
      OwnRecord(w, x, k);
      assert OnlineAt(t, k, e);
    }
  }
}
