// The server together with its clients. Each command is processed to completion: the
// client's requests are handled, and every reply is delivered, before the next one.
module Conference {
  import opened Users
  import opened Sessions

  // ----- client/client.c -----

  /** The global flags of a client process. */
  datatype Client = Client(name: string, connected: bool, verified: bool, session: bool, role: Role)

  function FreshClient(): Client { Client("", false, false, false, Ordinary) }

  datatype Command =
    | DoLogin(name: string, password: string)
    | DoRegister(name: string, password: string)
    | DoLogout
    | DoJoin(session: string)
    | DoCreate(session: string)
    | DoLeave
    | DoKick(target: string)
    | DoPromote(target: string)
    | DoSay(text: string)
    | DoList
    | DoUserList(session: string)
    | Crash                       // the process dies

  predicate Word(s: string) { ' ' !in s && '\n' !in s && '\0' !in s }

  /** A word that strtok cuts from a command line. */
  predicate Token(s: string) { s != "" && Word(s) }

  /** Commands as the server reads them: it takes no ':' into a user's name. */
  predicate CommandOk(c: Command) {
    match c
    case DoLogin(name, password) => Word(name) && Word(password) && ':' !in name
    case DoRegister(name, password) => Word(name) && Word(password) && ':' !in name
    case DoJoin(session) => Token(session)
    case DoCreate(session) => Token(session)
    case DoKick(target) => Token(target)
    case DoPromote(target) => Token(target)
    case DoUserList(session) => Token(session)
    case _ => true
  }

  datatype Request = Request(kind: nat, source: string, data: string)

  /** length_validate. */
  predicate Fits(s: string, size: nat) { |s| < size }

  /** leave_session of a client that is in one. */
  function LeaveSession(c: Client): Client { c.(session := false, role := Ordinary) }

  /** The command loop of main: the flags afterwards and the requests sent. */
  function Obey(c: Client, cmd: Command): (Client, seq<Request>) {
    match cmd
    case DoLogin(name, password) =>
      if c.verified || !Fits(name, MAX_NAME) || !Fits(password, MAX_PASSWORD_LENGTH) then (c, [])
      else (c.(connected := true), [Request(LOGIN, name, password)])
    case DoRegister(name, password) =>
      if c.verified || !Fits(name, MAX_NAME) || !Fits(password, MAX_PASSWORD_LENGTH) then (c, [])
      else (c.(connected := true), [Request(CREATE, name, password)])
    case DoLogout =>
      if !c.connected then (c, [])
      else
        var c1 := if c.session then LeaveSession(c) else c;
        (c1.(verified := false, connected := false),
         (if c.session then [Request(LEAVE_SESS, c.name, "")] else []) + [Request(EXIT, c.name, "")])
    case DoJoin(session) =>
      if !c.connected || !Fits(session, MAX_SESSION_LENGTH) || c.session then (c, [])
      else (c, [Request(JOIN, c.name, session)])
    case DoCreate(session) =>
      if !c.connected || !Fits(session, MAX_SESSION_LENGTH) || c.session then (c, [])
      else (c, [Request(NEW_SESS, c.name, session)])
    case DoLeave =>
      if !c.connected || !c.session then (c, [])
      else (LeaveSession(c), [Request(LEAVE_SESS, c.name, "")])
    case DoKick(target) =>
      if !c.connected || !c.session || c.role == Ordinary || !Fits(target, MAX_NAME) || target == c.name
      then (c, []) else (c, [Request(KICK, c.name, target)])
    case DoPromote(target) =>
      if !c.connected || !c.session || c.role == Ordinary || !Fits(target, MAX_NAME) || target == c.name
      then (c, []) else (c, [Request(PROMOTE, c.name, target)])
    case DoSay(text) =>
      if !c.connected || !c.session then (c, []) else (c, [Request(MESSAGE, c.name, text)])
    case DoList => if !c.connected then (c, []) else (c, [Request(QUERY, c.name, "")])
    case DoUserList(session) =>
      if !c.connected || session == NOT_IN_SESSION then (c, []) else (c, [Request(SESS_QUERY, c.name, session)])
    case Crash => (FreshClient(), [])
  }

  /** server_message_handler: what one message does to the flags. */
  function OnMessage(c: Client, r: Reply): Client {
    if r.kind == LO_ACK || r.kind == RG_ACK then c.(name := r.source, verified := true)
    else if r.kind == LO_NAK || r.kind == RG_NAK then c.(verified := false, connected := false)
    else if r.kind == JN_ACK then c.(role := Ordinary, session := true)
    else if r.kind == JN_NAK then c.(role := Ordinary, session := false)
    else if r.kind == NS_ACK then c.(role := Admin, session := true)
    else if r.kind == PM_MESSAGE then c.(role := Admin)
    else if r.kind == PM_ACK then c.(role := Ordinary)
    else if r.kind == KI_MESSAGE then c.(session := false)
    else c
  }

  /** The messages addressed to socket `fd`, in order, while the client is connected. */
  function Inbox(c: Client, fd: int, replies: seq<Reply>): Client {
    if replies == [] then c
    else
      var c1 := Inbox(c, fd, replies[..|replies| - 1]);
      var r := replies[|replies| - 1];
      if r.fd == fd && c1.connected then OnMessage(c1, r) else c1
  }

  // ----- connection_handler -----

  /** The locals of the thread that serves a connection. */
  datatype Conn = Conn(online: bool, source: string)

  /** The handlers a request is dispatched to. Nothing more happens once a mutex is never
      released or a handler has faulted. */
  function Handle(s: Server, conn: Conn, fd: int, q: Request): (Server, Conn, seq<Reply>) {
    if s.listLocked || s.rwLocked || s.faulted then (s, conn, [])
    else if q.kind == LOGIN then
      var (s1, out) := Login(s, q.source, q.data, fd);
      (s1, if VerifyLogin(s.users, q.source, q.data) == SuccessLogin then Conn(true, q.source) else conn, out)
    else if q.kind == CREATE then
      var (s1, out) := Register(s, q.source, q.data, fd);
      (s1, if AddCode(s.users, q.source) == AddUserSuccess then Conn(true, q.source) else conn, out)
    else if q.kind == EXIT then var (s1, out) := UserExit(s, conn.source); (s1, Conn(false, ""), out)
    else if q.kind == JOIN then var (s1, out) := Join(s, conn.source, q.data); (s1, conn, out)
    else if q.kind == NEW_SESS then var (s1, out) := Create(s, conn.source, q.data); (s1, conn, out)
    else if q.kind == LEAVE_SESS then var (s1, out) := Leave(s, conn.source); (s1, conn, out)
    else if q.kind == QUERY then (s, conn, [Reply(fd, QU_ACK, q.source, OnlineList(s.users))])
    else if q.kind == SESS_QUERY then (s, conn, SessionQuery(s, q.source, q.data, fd))
    else if q.kind == MESSAGE then
      if Known(s, q.source) then (s, conn, Broadcast(s.users, q, Find(s, q.source).session))
      else (s.(faulted := true), conn, [])
    else if q.kind == KICK then var (s1, out) := Kick(s, conn.source, q.data); (s1, conn, out)
    else if q.kind == PROMOTE then var (s1, out) := Promote(s, conn.source, q.data); (s1, conn, out)
    else (s, conn, [Reply(fd, q.kind, q.source, q.data)])    // sent back as it came
  }

  function Broadcast(t: Table, q: Request, session: string): seq<Reply> {
    var to := Recipients(t, session);
    seq(|to|, i requires 0 <= i < |to| => Reply(to[i], MESSAGE, q.source, q.data))
  }

  function HandleAll(s: Server, conn: Conn, fd: int, qs: seq<Request>): (Server, Conn, seq<Reply>)
    decreases |qs|
  {
    if qs == [] then (s, conn, [])
    else
      var (s1, conn1, out1) := Handle(s, conn, fd, qs[0]);
      var (s2, conn2, out2) := HandleAll(s1, conn1, fd, qs[1..]);
      (s2, conn2, out1 + out2)
  }

  /** recv returned 0: the handler signs the user off if one was signed on. */
  function Disconnect(s: Server, conn: Conn): (Server, seq<Reply>) {
    if s.listLocked || s.rwLocked || s.faulted then (s, [])
    else if conn.online then UserExit(s, conn.source)
    else (s, [])
  }

  // ----- the product -----

  /** A client process with the thread that serves it, at both ends of one socket. */
  datatype Peer = Peer(client: Client, conn: Conn)

  datatype World = World(server: Server, peers: map<int, Peer>)

  function Delivered(peers: map<int, Peer>, fd: int, c: Client, conn: Conn, replies: seq<Reply>): map<int, Peer> {
    map x | x in peers :: if x == fd then Peer(Inbox(c, x, replies), conn)
                          else Peer(Inbox(peers[x].client, x, replies), peers[x].conn)
  }

  /** One command of the client at `fd`, processed to completion. */
  function Step(w: World, fd: int, cmd: Command): World
    requires fd in w.peers
  {
    var p := w.peers[fd];
    if cmd.Crash? then
      var (s, out) := Disconnect(w.server, p.conn);
      World(s, Delivered(w.peers, fd, FreshClient(), Conn(false, ""), out))
    else
      var (c, qs) := Obey(p.client, cmd);
      var (s, conn, out) := HandleAll(w.server, p.conn, fd, qs);
      World(s, Delivered(w.peers, fd, c, conn, out))
  }

  /** Any user may type anything next. */
  datatype Act = Act(fd: int, cmd: Command)

  ghost predicate Run(w: World, acts: seq<Act>, v: World)
    decreases |acts|
  {
    if acts == [] then w == v
    else acts[0].fd in w.peers && CommandOk(acts[0].cmd)
         && Run(Step(w, acts[0].fd, acts[0].cmd), acts[1..], v)
  }

  /** The server has loaded its table: everybody is offline; clients have just started. */
  ghost predicate Start(w: World) {
    && !w.server.listLocked && !w.server.rwLocked && !w.server.faulted
    && JustLoaded(w.server.users)
    && 0 !in w.peers
    && (forall x :: x in w.peers ==> w.peers[x] == Peer(FreshClient(), Conn(false, "")))
  }
}
