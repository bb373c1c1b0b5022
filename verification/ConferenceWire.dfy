// The product machine over the wire: every request and every reply travels as bytes, and
// users may type any name. Each run of it is a run of the product machine.
module ConferenceWire {
  import opened Users
  import opened Sessions
  import opened Conference
  import opened ConferenceProof
  import opened ConferenceSteps
  import opened ConferenceTheorems
  import opened SessionLists
  import opened ClientLines
  import opened Messages
  import opened WireFormat
  import opened ServerReplies

  // ----- the machine -----

  predicate AllSendable(qs: seq<Request>) { forall i :: 0 <= i < |qs| ==> Sendable(qs[i]) }

  /** The requests as the server reads them from the bytes. */
  function RequestsRead(qs: seq<Request>, garbage: string): (r: seq<Request>)
    requires AllSendable(qs) && |garbage| == MAX_DATA
    ensures |r| == |qs|
  {
    seq(|qs|, i requires 0 <= i < |qs| => RequestArrives(qs[i], garbage); Read(Bytes(qs[i], garbage)))
  }

  /** The replies as the clients read them from the bytes. */
  function RepliesRead(out: seq<Reply>): (r: seq<Reply>)
    requires AllClear(out)
    ensures |r| == |out|
  {
    seq(|out|, i requires 0 <= i < |out| =>
      ReplyArrives(out[i]);
      var q := Read(ReplyBytes(out[i]));
      Reply(out[i].fd, q.kind, q.source, q.data))
  }

  /** Everything that a command puts on the wire fits it. */
  predicate Travels(w: World, fd: int, cmd: Conference.Command, garbage: string)
    requires fd in w.peers
  {
    |garbage| == MAX_DATA &&
    var p := w.peers[fd];
    if cmd.Crash? then AllClear(Disconnect(w.server, p.conn).1)
    else
      var qs := Obey(p.client, cmd).1;
      AllSendable(qs) && AllClear(HandleAll(w.server, p.conn, fd, RequestsRead(qs, garbage)).2)
  }

  /** One command, with its bytes. */
  function WireStep(w: World, fd: int, cmd: Conference.Command, garbage: string): World
    requires fd in w.peers && Travels(w, fd, cmd, garbage)
  {
    var p := w.peers[fd];
    if cmd.Crash? then
      var (s, out) := Disconnect(w.server, p.conn);
      World(s, Delivered(w.peers, fd, FreshClient(), Conn(false, ""), RepliesRead(out)))
    else
      var (c, qs) := Obey(p.client, cmd);
      var (s, conn, out) := HandleAll(w.server, p.conn, fd, RequestsRead(qs, garbage));
      World(s, Delivered(w.peers, fd, c, conn, RepliesRead(out)))
  }

  // ----- it does what the product machine does -----

  /** A login or a registration under a name with a ':' is one under the part before it,
      with another password of the same length. */
  function Untangled(cmd: Conference.Command): Conference.Command {
    match cmd
    case DoLogin(name, password) => DoLogin(NameRead(name), TextRead(name, password))
    case DoRegister(name, password) => DoRegister(NameRead(name), TextRead(name, password))
    case _ => cmd
  }

  /** The name that arrives; one that is too long does not leave the client, whatever it
      holds. */
  function NameRead(name: string): (n: string)
    ensures |n| < MAX_NAME <==> |name| < MAX_NAME
  {
    if |name| < MAX_NAME then
      WholeSource(name);
      SourceRead(name)
    else seq(MAX_NAME, _ => 'x')
  }

  lemma UntangledIsOk(cmd: Conference.Command)
    requires cmd.Crash? || WellTyped(cmd)
    ensures CommandOk(Untangled(cmd))
  {
    match cmd
    case DoLogin(name, password) => NameReadOk(name);
    case DoRegister(name, password) => NameReadOk(name);
    case _ =>
  }

  lemma NameReadOk(name: string)
    requires Token(name)
    ensures Word(NameRead(name)) && ':' !in NameRead(name)
  {
    WholeSource(name);
  }

  lemma SameReplies(out: seq<Reply>)
    requires AllClear(out)
    ensures RepliesRead(out) == out
  {
    hide Read, ReplyBytes, Legible, Clear;
    forall i | 0 <= i < |out| ensures RepliesRead(out)[i] == out[i] {
      ReplyArrives(out[i]);
    }
  }

  /** What the server reads are the requests of the untangled command. */
  lemma SameRequests(c: Client, cmd: Conference.Command, garbage: string)
    requires WellTyped(cmd) && GoodName(c) && (c.connected ==> c.verified) && |garbage| == MAX_DATA
    ensures AllSendable(Obey(c, cmd).1)
    ensures Obey(c, Untangled(cmd)) == (Obey(c, cmd).0, RequestsRead(Obey(c, cmd).1, garbage))
    ensures forall i :: 0 <= i < |Obey(c, Untangled(cmd)).1| ==> PlainText(Obey(c, Untangled(cmd)).1[i].data)
  {
    hide Read, Bytes, Legible, Chat, SourceRead, TextRead, Token, Sendable;
    var qs, qs' := Obey(c, cmd).1, Obey(c, Untangled(cmd)).1;
    RequestsSendable(c, cmd);
    forall i | 0 <= i < |qs| ensures RequestsRead(qs, garbage)[i] == AsRead(qs[i]) {
      RequestArrives(qs[i], garbage);
    }
    forall i | 0 <= i < |qs| ensures |qs'| == |qs| && qs'[i] == AsRead(qs[i]) {
      TextWhole(c.name, qs[i].data);
    }
    assert qs' == RequestsRead(qs, garbage);
    forall i | 0 <= i < |qs'| ensures PlainText(qs'[i].data) {
      SendableIsPlain(qs[i]);
    }
  }

  lemma SendableIsPlain(q: Request)
    requires Sendable(q)
    ensures PlainText(AsRead(q).data)
  {
  }

  lemma TextWhole(source: string, text: string)
    ensures ':' !in source ==> SourceRead(source) == source && TextRead(source, text) == text
  {
    WholeSource(source);
  }

  lemma RequestsSendable(c: Client, cmd: Conference.Command)
    requires WellTyped(cmd) && GoodName(c) && (c.connected ==> c.verified)
    ensures AllSendable(Obey(c, cmd).1)
  {
    forall i | 0 <= i < |Obey(c, cmd).1| ensures Sendable(Obey(c, cmd).1[i]) {
    }
  }

  /** Every command that can be typed travels whole in every reachable state, and does over
      the wire what it does in the product machine. (The list of all users online travels
      while it fits the message data.) */
  lemma WireStepIsStep(w: World, fd: int, cmd: Conference.Command, garbage: string)
    requires Reachable(w) && fd in w.peers && |garbage| == MAX_DATA && (cmd.Crash? || WellTyped(cmd))
    requires cmd.DoList? ==> |OnlineList(w.server.users)| < MAX_DATA
    ensures CommandOk(Untangled(cmd)) && Travels(w, fd, cmd, garbage)
    ensures WireStep(w, fd, cmd, garbage) == Step(w, fd, Untangled(cmd))
  {
    hide Agree, Reachable, CleanTable, AllClear, RepliesRead, RequestsRead, HandleAll, Delivered, Obey, Clear,
      GoodSource, CommandOk, GoodName, Disconnect;
    AlwaysAgree(w);
    AlwaysClean(w);
    UntangledIsOk(cmd);
    PeerAt(w, fd);
    var p := w.peers[fd];
    if cmd.Crash? {
      CrashSpeaks(w.server, p.conn);
      SameReplies(Disconnect(w.server, p.conn).1);
    } else {
      SameRequests(p.client, cmd, garbage);
      RepliesTravel(w, fd, Untangled(cmd));
      SameReplies(HandleAll(w.server, p.conn, fd, Obey(p.client, Untangled(cmd)).1).2);
    }
  }

  /** The list of a session, or of what is none, fits the message data. */
  lemma SessionListFits(w: World, session: string)
    requires Reachable(w) && session != NOT_IN_SESSION
    ensures |SessionList(w.server.users, session)| < MAX_DATA
  {
    hide Agree, Reachable, RoomsOf, Members, ListLines, LineWidth, SessionList;
    if session in RoomsOf(w.server.users) {
      ListExact(w, session);
    } else {
      AlwaysAgree(w);
      TableOf(w);
      RoomsAt(w.server.users);
      CountIsMembers(w.server.users, session);
      EmptyList(w.server.users, session);
    }
  }

  lemma EmptyList(t: Table, session: string)
    requires Count(t, session) == 0 && forall i :: 0 <= i < |t| ==> Sane(t[i])
    ensures |SessionList(t, session)| < MAX_DATA
  {
    hide LineWidth;
    LinesWidth(t, session);
  }

  lemma AnswersFit(w: World, c: Client, cmd: Conference.Command, i: nat)
    requires Reachable(w) && CommandOk(cmd) && i < |Obey(c, cmd).1| && PlainText(Obey(c, cmd).1[i].data)
    requires cmd.DoList? ==> |OnlineList(w.server.users)| < MAX_DATA
    ensures Answerable(w.server.users, Obey(c, cmd).1[i]) && (i > 0 ==> Obey(c, cmd).1[i].kind == EXIT)
  {
    hide Reachable, OnlineList, SessionList;
    if cmd.DoUserList? && cmd.session != NOT_IN_SESSION { SessionListFits(w, cmd.session); }
  }

  function OnlineCount(t: Table): nat {
    if t == [] then 0 else OnlineCount(t[..|t| - 1]) + (if t[|t| - 1].online then 1 else 0)
  }

  lemma PairLineLength(name: string, session: string)
    requires |name| < MAX_NAME && |session| < MAX_SESSION_LENGTH
    ensures |PairLine(name, session)| <= 38
  {
  }

  lemma {:induction false} OnlineLinesLength(t: Table)
    requires forall i :: 0 <= i < |t| ==> Sane(t[i])
    ensures |OnlineLines(t)| <= 38 * OnlineCount(t)
  {
    hide PairLine;
    if t != [] {
      var n := |t| - 1;
      assert forall i :: 0 <= i < n ==> t[..n][i] == t[i];
      OnlineLinesLength(t[..n]);
      assert Sane(t[n]);
      PairLineLength(t[n].name, t[n].session);
    }
  }

  /** The list of all users online has no bound of its own like that of a session; it fits
      the message data while at most 25 users are online. */
  lemma OnlineListFits(w: World)
    requires Reachable(w) && OnlineCount(w.server.users) <= 25
    ensures |OnlineList(w.server.users)| < MAX_DATA
  {
    hide Agree, Reachable, OnlineLines;
    AlwaysAgree(w);
    TableOf(w);
    OnlineLinesLength(w.server.users);
  }

  /** What the server answers fits the message format. */
  lemma RepliesTravel(w: World, fd: int, cmd: Conference.Command)
    requires Reachable(w) && fd in w.peers && CommandOk(cmd)
    requires var qs := Obey(w.peers[fd].client, cmd).1; forall i :: 0 <= i < |qs| ==> PlainText(qs[i].data)
    requires cmd.DoList? ==> |OnlineList(w.server.users)| < MAX_DATA
    ensures AllClear(HandleAll(w.server, w.peers[fd].conn, fd, Obey(w.peers[fd].client, cmd).1).2)
  {
    hide Agree, Reachable, CleanTable, AllClear, HandleAll, Clear, GoodSource, OnlineList, SessionList, PlainText;
    AlwaysAgree(w);
    AlwaysClean(w);
    PeerAt(w, fd);
    var p := w.peers[fd];
    ObeyAsksWell(p.client, cmd);
    var qs := Obey(p.client, cmd).1;
    forall i | 0 <= i < |qs| ensures Answerable(w.server.users, qs[i]) && (i > 0 ==> qs[i].kind == EXIT) {
      AnswersFit(w, p.client, cmd, i);
    }
    HandleAllSpeaks(w.server, p.conn, fd, qs);
  }

  // ----- runs -----

  /** Commands that can be typed, and crashes. */
  predicate CanHappen(w: World, a: Act) {
    a.fd in w.peers && (a.cmd.Crash? || WellTyped(a.cmd))
    && (a.cmd.DoList? ==> |OnlineList(w.server.users)| < MAX_DATA)
  }

  ghost predicate WireRun(w: World, acts: seq<Act>, garbage: string, v: World)
    decreases |acts|
  {
    if acts == [] then w == v
    else CanHappen(w, acts[0]) && Travels(w, acts[0].fd, acts[0].cmd, garbage)
         && WireRun(WireStep(w, acts[0].fd, acts[0].cmd, garbage), acts[1..], garbage, v)
  }

  function UntangledAll(acts: seq<Act>): seq<Act> {
    seq(|acts|, i requires 0 <= i < |acts| => Act(acts[i].fd, Untangled(acts[i].cmd)))
  }

  /** A run over the wire, whatever names and texts are typed, is a run of the product
      machine: everything proved of its reachable states holds over the wire. */
  lemma {:induction false} WireRunIsRun(w: World, acts: seq<Act>, garbage: string, v: World)
    requires Reachable(w) && |garbage| == MAX_DATA && WireRun(w, acts, garbage, v)
    ensures Run(w, UntangledAll(acts), v) && Reachable(v)
    decreases |acts|
  {
    hide Reachable, Travels, WireStep, Step, CommandOk, Untangled, WellTyped, OnlineList;
    if acts != [] {
      var a, a' := acts[0], Act(acts[0].fd, Untangled(acts[0].cmd));
      WireStepIsStep(w, a.fd, a.cmd, garbage);
      ReachableNext(w, a');
      WireRunIsRun(Step(w, a'.fd, a'.cmd), acts[1..], garbage, v);
      assert UntangledAll(acts)[0] == a' && UntangledAll(acts)[1..] == UntangledAll(acts[1..]);
    }
  }

  /** So client flags and server records agree in every run over the wire. */
  lemma WireRunAgrees(w: World, acts: seq<Act>, garbage: string, v: World)
    requires Start(w) && |garbage| == MAX_DATA && WireRun(w, acts, garbage, v)
    ensures Agree(v)
  {
    hide Agree, WireRun, Start;
    assert Run(w, [], w);
    WireRunIsRun(w, acts, garbage, v);
    AlwaysAgree(v);
  }

  // ----- a line of chat -----

  /** Socket x belongs to a client that is logged in as a member of the session. */
  predicate IsMember(w: World, session: string, x: int) {
    x in w.peers && w.peers[x].client.verified && In(RoomsOf(w.server.users), session, w.peers[x].client.name)
  }

  /** In every reachable state, a line typed by a user in a session reaches the server as
      bytes, and what the server then sends reaches each member of the session, once, and
      nobody else; each of them reads the line without its newline, from its author. */
  lemma LineReachesMembers(w: World, fd: int, text: string, garbage: string)
    requires Reachable(w) && fd in w.peers && w.peers[fd].client.verified && w.peers[fd].client.session
    requires Chat(text + "\n") && |garbage| == MAX_DATA
    ensures var q := Request(MESSAGE, w.peers[fd].client.name, text);
            Sendable(q) && Legible(Bytes(q, garbage)) && Read(Bytes(q, garbage)) == q
            && var out := Handle(w.server, w.peers[fd].conn, fd, q).2;
               |out| == |Recipients(w.server.users, Home(w, fd))|
               && (forall i :: 0 <= i < |out| ==>
                     Clear(out[i]) && Legible(ReplyBytes(out[i])) && Read(ReplyBytes(out[i])) == q)
               && (forall i, j :: 0 <= i < j < |out| ==> out[i].fd != out[j].fd)
               && (forall x :: IsMember(w, Home(w, fd), x) <==> exists i :: 0 <= i < |out| && out[i].fd == x)
  {
    hide Agree, Reachable, Recipients, Bytes, Read, ReplyBytes, Legible, Chat, RoomsOf, Search, Wire;
    AlwaysAgree(w);
    AlwaysClean(w);
    var q, k := Request(MESSAGE, w.peers[fd].client.name, text), Search(w.server.users, w.peers[fd].client.name);
    OwnRecord(w, fd, k);
    AgreeTable(w);
    LineSendable(w.peers[fd].client.name, text);
    RequestArrives(q, garbage);
    TextWhole(q.source, text);
    var to, out := Recipients(w.server.users, Home(w, fd)), Handle(w.server, w.peers[fd].conn, fd, q).2;
    assert out == Broadcast(w.server.users, q, Home(w, fd));
    BroadcastExact(w, fd);
    forall i | 0 <= i < |out| ensures Clear(out[i]) && Legible(ReplyBytes(out[i])) && Read(ReplyBytes(out[i])) == q {
      ReplyArrives(out[i]);
    }
    forall x ensures IsMember(w, Home(w, fd), x) <==> exists i :: 0 <= i < |out| && out[i].fd == x {
      if x in to {
        var i :| 0 <= i < |to| && to[i] == x;
        assert out[i].fd == x;
      }
    }
  }

  lemma LineSendable(name: string, text: string)
    requires GoodSource(name) && Chat(text + "\n")
    ensures Sendable(Request(MESSAGE, name, text)) && PlainText(text)
  {
    assert forall i :: 0 <= i < |text| ==> text[i] == (text + "\n")[i];
  }
}
