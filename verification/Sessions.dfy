// The handlers of server/server.c as functions on the server's state: what each one does
// to the table of users, and which messages it sends to whom.
module Sessions {
  import opened Users

  // ----- message types, message.h -----

  const LOGIN := 0
  const LO_ACK := 1
  const LO_NAK := 2
  const EXIT := 3
  const JOIN := 4
  const JN_ACK := 5
  const JN_NAK := 6
  const LEAVE_SESS := 7
  const NEW_SESS := 8
  const NS_ACK := 9
  const MESSAGE := 10
  const QUERY := 11
  const QU_ACK := 12
  const CREATE := 13
  const RG_ACK := 14
  const RG_NAK := 15
  const KICK := 16
  const KI_ACK := 17
  const KI_NAK := 18
  const KI_MESSAGE := 19
  const PROMOTE := 20
  const PM_ACK := 21
  const PM_NAK := 22
  const PM_MESSAGE := 23
  const SESS_QUERY := 24
  const SQ_ACK := 25
  const SQ_NAK := 26

  /** A message sent to the client behind a socket. */
  datatype Reply = Reply(fd: int, kind: nat, source: string, data: string)

  // ----- reply texts -----

  const SESSION_NAME_INVALID := "Session name is not found!."
  const SESSION_AT_FULL_CAPACITY := "Session you tried to join was full!."
  const SESSION_EXISTS := "Session already exists!."
  const USER_NAME_IN_SESSION := "Please leave the session " + "before joining/creating another one!."
  const USER_DOES_NOT_EXIST := "User does not exist!."
  const USER_NOT_IN_SESSION := "User is not in a session!."
  const USER_NOT_ONLINE := "User is not online!."
  const USER_IN_DIFFERENT_SESSION := "User is in a different session!."
  const TARGET_IS_ADMIN := "Target User is an admin."

  // ----- the server -----

  /** The table, the database file, the two mutexes (held or free), and whether a handler
      has used a user that the table does not have. */
  datatype Server = Server(users: Table, file: string, listLocked: bool, rwLocked: bool, faulted: bool)

  predicate Known(s: Server, name: string) { Search(s.users, name) < |s.users| }

  function Find(s: Server, name: string): User
    requires Known(s, name)
  {
    s.users[Search(s.users, name)]
  }

  function Put(s: Server, name: string, u: User): Server
    requires Known(s, name)
  {
    s.(users := s.users[Search(s.users, name) := u])
  }

  /** server_side_session_create; it does not look at the user's own session. */
  function Create(s: Server, name: string, session: string): (Server, seq<Reply>) {
    if !Known(s, name) then (s.(faulted := true), [])
    else
      var u := Find(s, name);
      if Count(s.users, session) == 0 then
        (Put(s, name, u.(session := session, inSession := true, role := Admin)),
         [Reply(u.fd, NS_ACK, name, session)])
      else (s, [Reply(u.fd, NEW_SESS, name, SESSION_EXISTS)])
  }

  /** server_side_session_join. */
  function Join(s: Server, name: string, session: string): (Server, seq<Reply>) {
    if !Known(s, name) then (s.(faulted := true), [])
    else
      var u := Find(s, name);
      var count := Count(s.users, session);
      if u.inSession then (s, [Reply(u.fd, JN_NAK, name, USER_NAME_IN_SESSION)])
      else if count == 0 then (s, [Reply(u.fd, JN_NAK, name, SESSION_NAME_INVALID)])
      else if count == MAX_SESSION_USER then (s, [Reply(u.fd, JN_NAK, name, SESSION_AT_FULL_CAPACITY)])
      else (Put(s, name, u.(session := session, inSession := true)),
            [Reply(u.fd, JN_ACK, name, session)])
  }

  /** The loop that tells every admin of every session that they are one. */
  function AdminNotices(t: Table): seq<Reply> {
    if t == [] then []
    else AdminNotices(t[..|t| - 1])
         + (if t[|t| - 1].role == Admin then [Reply(t[|t| - 1].fd, PM_MESSAGE, "server", "")] else [])
  }

  /** server_side_session_leave. Its first return, and the one in
      user_exit_current_session, leave a mutex locked. */
  function Leave(s: Server, name: string): (Server, seq<Reply>) {
    if !Known(s, name) then (s.(faulted := true), [])
    else
      var u := Find(s, name);
      if !u.inSession then (s.(listLocked := true), [])
      else if u.session == NOT_IN_SESSION then (s.(rwLocked := true), AdminNotices(s.users))
      else
        var t := ExitSession(s.users, Search(s.users, name));
        (s.(users := t), AdminNotices(t))
  }

  /** server_side_user_exit. */
  function UserExit(s: Server, name: string): (Server, seq<Reply>) {
    if !Known(s, name) then (s.(faulted := true), [])
    else
      var k := Search(s.users, name);
      var (s1, out) := if s.users[k].inSession then Leave(s, name) else (s, []);
      (s1.(users := SignedOff(s1.users, k)), out)
  }

  function SignedOff(t: Table, k: nat): Table {
    if k < |t| then t[k := t[k].(online := false, fd := 0)] else t
  }

  /** The checks that kick and promote share, in their order. */
  function Refusal(s: Server, sender: string, target: string): string
    requires Known(s, sender)
  {
    if !Known(s, target) then USER_DOES_NOT_EXIST
    else if !Find(s, target).online then USER_NOT_ONLINE
    else if !Find(s, target).inSession then USER_NOT_IN_SESSION
    else if Find(s, target).session != Find(s, sender).session then USER_IN_DIFFERENT_SESSION
    else if Find(s, target).role == Admin then TARGET_IS_ADMIN
    else ""
  }

  /** server_side_kick_user; that the sender is an admin is left to the client. */
  function Kick(s: Server, sender: string, target: string): (Server, seq<Reply>) {
    if !Known(s, sender) then (s.(faulted := true), [])
    else
      var me := Find(s, sender);
      var why := Refusal(s, sender, target);
      if why != "" then (s, [Reply(me.fd, KI_NAK, sender, why)])
      else
        var u := Find(s, target);
        (Put(s, target, u.(inSession := false, session := NOT_IN_SESSION)),
         [Reply(u.fd, KI_MESSAGE, "server", if target == sender then NOT_IN_SESSION else me.session),
          Reply(me.fd, KI_ACK, sender, u.name)])
  }

  /** First the target's role, then the sender's: they may be the same record. */
  function RolesChanged(t: Table, sender: nat, target: nat): Table
    requires sender < |t| && target < |t|
  {
    var t1 := t[target := t[target].(role := Admin)];
    t1[sender := t1[sender].(role := Ordinary)]
  }

  /** server_side_promote_user. */
  function Promote(s: Server, sender: string, target: string): (Server, seq<Reply>) {
    if !Known(s, sender) then (s.(faulted := true), [])
    else
      var me := Find(s, sender);
      var why := Refusal(s, sender, target);
      if why != "" then (s, [Reply(me.fd, PM_NAK, sender, why)])
      else
        var u := Find(s, target);
        (s.(users := RolesChanged(s.users, Search(s.users, sender), Search(s.users, target))),
         [Reply(u.fd, PM_MESSAGE, "server", ""), Reply(me.fd, PM_ACK, sender, u.name)])
  }

  // ----- login and registration -----

  datatype LoginCode = UsernameError | PasswordError | AlreadyLogin | SuccessLogin

  /** verify_login. */
  function VerifyLogin(t: Table, name: string, password: string): LoginCode {
    var k := Search(t, name);
    if k == |t| then UsernameError
    else if t[k].password != password then PasswordError
    else if t[k].online then AlreadyLogin
    else SuccessLogin
  }

  const LOGGED_IN_ELSEWHERE := "You have logged in elsewhere.\n "
  const LOG_OUT_FIRST := "Please log out of the other session " + "before proceeding."

  /** select_login_message. */
  function LoginMessage(c: LoginCode): string {
    match c
    case UsernameError => "Your username does not " + "appear to be valid."
    case PasswordError => "Your password is incorrect."
    case AlreadyLogin => LOGGED_IN_ELSEWHERE + LOG_OUT_FIRST
    case SuccessLogin => ""
  }

  /** The branch of connection_handler for LOGIN, with user_login. */
  function Login(s: Server, name: string, password: string, fd: int): (Server, seq<Reply>) {
    var code := VerifyLogin(s.users, name, password);
    if code == SuccessLogin then
      (Put(s, name, Find(s, name).(online := true, fd := fd)), [Reply(fd, LO_ACK, name, "")])
    else (s, [Reply(fd, LO_NAK, name, LoginMessage(code))])
  }

  datatype RegistrationCode = UserAlreadyExist | AddUserSuccess | UserListFull

  /** user_database_add_user: which answer it gives. */
  function AddCode(t: Table, name: string): RegistrationCode {
    if |t| >= MAX_USER_COUNT then UserListFull
    else if Search(t, name) < |t| then UserAlreadyExist
    else AddUserSuccess
  }

  /** user_registration_message. */
  function RegistrationMessage(c: RegistrationCode): string {
    match c
    case UserAlreadyExist => "Username already exists!."
    case UserListFull => "User list is full!."
    case AddUserSuccess => ""
  }

  /** What write_to_database appends. */
  function FileLine(name: string, password: string): string {
    "\n\"" + name + "\":\"" + password + "\""
  }

  function NewUser(name: string, password: string, online: bool, fd: int): User {
    User(name, password, NOT_IN_SESSION, false, online, fd, Ordinary)
  }

  /** A table as set_up_database leaves it: no name twice, everybody offline and in no
      session. */
  predicate JustLoaded(t: Table) {
    |t| <= MAX_USER_COUNT && UniqueNames(t)
    && forall i :: 0 <= i < |t| ==>
         t[i] == NewUser(t[i].name, t[i].password, false, 0) && |t[i].name| < MAX_NAME && '\0' !in t[i].name
  }

  /** The branch of connection_handler for CREATE, with user_registration. */
  function Register(s: Server, name: string, password: string, fd: int): (Server, seq<Reply>) {
    var code := AddCode(s.users, name);
    if code == AddUserSuccess then
      (s.(users := s.users + [NewUser(name, password, true, fd)], file := s.file + FileLine(name, password)),
       [Reply(fd, RG_ACK, name, "")])
    else (s, [Reply(fd, RG_NAK, name, RegistrationMessage(code))])
  }

  // ----- messages and queries -----

  /** send_message_in_a_session: the sockets written to, in table order. */
  function Recipients(t: Table, session: string): seq<int> {
    if t == [] then []
    else
      var u := t[|t| - 1];
      Recipients(t[..|t| - 1], session) + (if u.online && u.inSession && u.session == session then [u.fd] else [])
  }

  /** "%*s" with a negative width: at least `width` bytes, padded on the right. */
  function Padded(s: string, width: nat): (r: string)
    ensures |r| == if |s| < width then width else |s|
    ensures s <= r
  {
    s + seq(if |s| < width then width - |s| else 0, _ => ' ')
  }

  const MAX_SESSION_COUNT := 10

  function ListLine(name: string, session: string, role: string): string {
    Padded(name, MAX_NAME) + " " + Padded(session, MAX_SESSION_COUNT) + " " + Padded(role, 6) + "\n"
  }

  function RoleText(r: Role): string { if r == Admin then "ADMIN" else "USER" }

  function ListLines(t: Table, session: string): string {
    if t == [] then ""
    else
      var u := t[|t| - 1];
      ListLines(t[..|t| - 1], session)
      + (if u.session == session then ListLine(u.name, u.session, RoleText(u.role)) else "")
  }

  const LIST_TITLE := "Active User List:\n"

  /** get_active_user_list_in_a_session of a session that exists. */
  function SessionList(t: Table, session: string): string {
    LIST_TITLE + ListLine("Username", "Session ID", "Role") + ListLines(t, session)
  }

  /** The branch of connection_handler for SESS_QUERY. */
  function SessionQuery(s: Server, source: string, session: string, fd: int): seq<Reply> {
    if Count(s.users, session) == 0 then [Reply(fd, SQ_NAK, source, SESSION_NAME_INVALID)]
    else [Reply(fd, SQ_ACK, source, SessionList(s.users, session))]
  }

  function PairLine(name: string, session: string): string {
    Padded(name, MAX_NAME) + " " + Padded(session, MAX_SESSION_COUNT) + "\n"
  }

  function OnlineLines(t: Table): string {
    if t == [] then ""
    else
      var u := t[|t| - 1];
      OnlineLines(t[..|t| - 1]) + (if u.online then PairLine(u.name, u.session) else "")
  }

  /** get_active_user_list_in_database. */
  function OnlineList(t: Table): string {
    LIST_TITLE + PairLine("Username", "Session ID") + OnlineLines(t)
  }
}
