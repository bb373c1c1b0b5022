// The two programs of the file transfer do what the state machine says: in every run, the
// server's loops fed with the datagrams of the run answer as in the run, and the sender's
// loops fed with the replies and timeouts of a file send as in the run.
module TransferRefinement {
  import opened Options
  import opened FileTransfer
  import opened TransferProof
  import opened TransferTheorems
  import opened TransferPrograms

  // ----- what a run shows of the network -----

  /** What a step shows the server. */
  function SeenBy(c: System, l: Step): seq<Seen> {
    if l.Arrive? && c.data != [] then [Seen(Look(c.data[0].bytes), l.roll)] else []
  }

  /** The datagrams that a step takes off the network: towards the server and towards the
      sender. */
  function TakenData(c: System, l: Step): seq<string> {
    if l.Arrive? && c.data != [] then [c.data[0].bytes] else []
  }

  function TakenReply(c: System, l: Step): seq<string> {
    if l.Receive? && c.replies != [] then [c.replies[0].bytes] else []
  }

  /** How a step ends a wait of the sender. */
  function EventOf(l: Step): seq<Event> {
    match l
    case Receive(sample) => [Replied(sample)]
    case TimeOut => [TimedOut]
    case _ => []
  }

  /** All of it, over a run. */
  datatype History = History(seen: seq<Seen>, data: seq<string>, replies: seq<string>, events: seq<Event>)

  function HistoryOf(g: Plan, c: System, steps: seq<Step>): History
    decreases |steps|
  {
    if steps == [] || !Possible(g, c, steps[0]) then History([], [], [], [])
    else
      var l, h := steps[0], HistoryOf(g, Apply(g, c, steps[0]), steps[1..]);
      History(SeenBy(c, l) + h.seen, TakenData(c, l) + h.data, TakenReply(c, l) + h.replies, EventOf(l) + h.events)
  }

  function DataBytes(data: seq<Transmission>): seq<string> {
    seq(|data|, i requires 0 <= i < |data| => data[i].bytes)
  }

  function ReplyBytes(replies: seq<Reply>): seq<string> {
    seq(|replies|, i requires 0 <= i < |replies| => replies[i].bytes)
  }

  // ----- the server -----

  /** The state in which the loops come to their next recvfrom, and what they say first. */
  function AtRecv(r: Receiver): Receiver { if r.phase == EndOfFile then AfterFarewell(r) else r }

  function Pending(r: Receiver): seq<string> { if r.phase == EndOfFile then [GoodbyeBytes(r.name)] else [] }

  /** One datagram first, and then the others. */
  lemma {:induction false} ServeFromNext(r: Receiver, x: Seen, rest: seq<Seen>)
    requires Readable(r, x.x)
    ensures var (r1, out) := OneDatagram(r, x);
            ServeAll(r, [x] + rest)
            == match ServeAll(r1, rest) case None => None case Some((r2, more)) => Some((r2, out + more))
    decreases |rest|
  {
    hide OneDatagram, Readable;
    var (r1, out) := OneDatagram(r, x);
    if rest == [] {
      ServeOnly(r, x);
      assert [x] + rest == [x];
      assert out + [] == out;
    } else {
      var n := |rest| - 1;
      ServeFromNext(r, x, rest[..n]);
      assert ([x] + rest)[..|rest|] == [x] + rest[..n];
      match ServeAll(r1, rest[..n])
      case None =>
      case Some((r2, more)) =>
        if r2.phase != Quit && Readable(r2, rest[n].x) {
          var last := OneDatagram(r2, rest[n]).1;
          assert (out + more) + last == out + (more + last);
        }
    }
  }

  lemma ServeOnly(r: Receiver, x: Seen)
    requires Readable(r, x.x)
    ensures var (r1, out) := OneDatagram(r, x); ServeAll(r, [x]) == Some((r1, out))
  {
    hide OneDatagram;
    NotQuit(r, x);
    assert [x][..0] == [];
    assert ServeAll(r, [x][..0]) == Some((r, []));
    assert [] + OneDatagram(r, x).1 == OneDatagram(r, x).1;
  }

  lemma NotQuit(r: Receiver, x: Seen)
    requires Readable(r, x.x)
    ensures r.phase != Quit && r.phase != EndOfFile
  {
  }

  /** One step, as the server sees it. */
  lemma ServerStep(g: Plan, c: System, l: Step)
    requires Possible(g, c, l)
    ensures var d := Apply(g, c, l);
            if l.Arrive? then
              Readable(c.receiver, SeenBy(c, l)[0].x) && AtRecv(c.receiver) == c.receiver
              && OneDatagram(c.receiver, SeenBy(c, l)[0]).0 == AtRecv(d.receiver)
              && ReplyBytes(d.replies) + Pending(d.receiver)
                 == ReplyBytes(c.replies) + OneDatagram(c.receiver, SeenBy(c, l)[0]).1
            else
              AtRecv(d.receiver) == AtRecv(c.receiver)
              && TakenReply(c, l) + (ReplyBytes(d.replies) + Pending(d.receiver))
                 == ReplyBytes(c.replies) + Pending(c.receiver)
  {
    hide OnDatagram, Look, Readable, StartFile, AfterReply, AfterTimeout, AfterSend, Leave, DueDatagram, SenderOk;
    var d := Apply(g, c, l);
    match l
    case Arrive(roll) =>
      var x := SeenBy(c, l)[0];
      NotQuit(c.receiver, x);
      var (r, acks) := OnDatagram(c.receiver, x.x, roll);
      assert ReplyBytes(d.replies) == ReplyBytes(c.replies) + acks;
      assert (ReplyBytes(c.replies) + acks) + Pending(r) == ReplyBytes(c.replies) + (acks + Pending(r));
    case Receive(sample) =>
      assert ReplyBytes(c.replies) == [c.replies[0].bytes] + ReplyBytes(c.replies[1..]);
    case Farewell =>
      assert ReplyBytes(d.replies) == ReplyBytes(c.replies) + Pending(c.receiver);
    case _ =>
  }

  lemma {:induction false} ServerAlong(g: Plan, c: System, steps: seq<Step>, d: System) returns (out: seq<string>)
    requires Run(g, c, steps, d)
    ensures ServeAll(AtRecv(c.receiver), HistoryOf(g, c, steps).seen) == Some((AtRecv(d.receiver), out))
    ensures (ReplyBytes(c.replies) + Pending(c.receiver)) + out
         == HistoryOf(g, c, steps).replies + (ReplyBytes(d.replies) + Pending(d.receiver))
    decreases |steps|
  {
    hide Apply, Possible, ServeAll, OneDatagram, AtRecv, Pending, ReplyBytes, Look;
    if steps == [] {
      out := [];
      ServeNone(AtRecv(c.receiver));
    } else {
      var l, d1 := steps[0], Apply(g, c, steps[0]);
      var rest := ServerAlong(g, d1, steps[1..], d);
      ServerStep(g, c, l);
      var h := HistoryOf(g, d1, steps[1..]);
      if l.Arrive? {
        HasData(g, c, l);
        var x := SeenBy(c, l)[0];
        ServeFromNext(c.receiver, x, h.seen);
        out := OneDatagram(c.receiver, x).1 + rest;
        Quiet(c.receiver);
        ThreeParts(ReplyBytes(c.replies), OneDatagram(c.receiver, x).1, rest);
        assert [] + h.replies == h.replies;
      } else {
        out := rest;
        assert [] + h.seen == h.seen;
        ThreeParts(TakenReply(c, l), ReplyBytes(d1.replies) + Pending(d1.receiver), rest);
        ThreeParts(TakenReply(c, l), h.replies, ReplyBytes(d.replies) + Pending(d.receiver));
      }
    }
  }

  lemma ThreeParts(a: seq<string>, b: seq<string>, c: seq<string>)
    ensures (a + b) + c == a + (b + c)
  {
  }

  lemma Quiet(r: Receiver)
    ensures AtRecv(r) == r && r.phase != EndOfFile ==> Pending(r) == []
    ensures AtRecv(r) == r ==> r.phase != EndOfFile
  {
  }

  lemma HasData(g: Plan, c: System, l: Step)
    requires Possible(g, c, l) && l.Arrive?
    ensures c.data != []
  {
  }

  lemma ServeNone(r: Receiver)
    ensures ServeAll(r, []) == Some((r, []))
  {
  }

  /** In every run, the server's program, given the datagrams that arrive in the run, is
      where the run has the server, and has sent what the sender has taken and what is
      still on its way to it. */
  lemma ServerRefines(g: Plan, steps: seq<Step>, d: System)
    requires Run(g, Init(g), steps, d)
    ensures var h := HistoryOf(g, Init(g), steps);
            ServeAll(Init(g).receiver, h.seen)
            == Some((AtRecv(d.receiver), h.replies + (ReplyBytes(d.replies) + Pending(d.receiver))))
  {
    hide Run, ServeAll, HistoryOf;
    var out := ServerAlong(g, Init(g), steps, d);
    assert ReplyBytes(Init(g).replies) + Pending(Init(g).receiver) == [];
    assert [] + out == out;
  }

  // ----- the sender -----

  /** The sender of one file alone. */
  function Alone(s: Sender, j: Job): Sender { s.(jobs := if s.phase.Idle? then [] else [j]) }

  /** The sender is somewhere within file j, or past it. */
  predicate Within(s: Sender, j: Job) {
    SenderOk(s) && SenderOk(Alone(s, j)) && !s.phase.Finished? && (s.phase.Idle? || (s.jobs != [] && s.jobs[0] == j))
  }

  lemma {:induction false} DriveFromNext(s: Sender, e: Event, rest: seq<Event>)
    requires SenderOk(s) && Waits(s)
    ensures Drive(s, [e] + rest) == Drive(OnEvent(s, e), rest)
    decreases |rest|
  {
    hide OnEvent, GoOn, SenderOk;
    if rest == [] {
      DriveOnly(s, e);
      assert [e] + rest == [e];
    } else {
      var n := |rest| - 1;
      DriveFromNext(s, e, rest[..n]);
      assert ([e] + rest)[..|rest|] == [e] + rest[..n];
    }
  }

  lemma DriveOnly(s: Sender, e: Event)
    requires SenderOk(s) && Waits(s)
    ensures Drive(s, [e]) == GoOn(OnEvent(s, e))
  {
    hide OnEvent, DueDatagram;
    assert [e][..0] == [];
    assert Drive(s, []) == (s, []);
    assert [] + GoOn(OnEvent(s, e)).1 == GoOn(OnEvent(s, e)).1;
  }

  /** Going on to the next recvfrom first. */
  lemma {:induction false} DriveGoesOn(s: Sender, events: seq<Event>)
    requires SenderOk(s) && s.phase.Sending?
    ensures Drive(s, events) == (Drive(AfterSend(s), events).0, [DueDatagram(s)] + Drive(AfterSend(s), events).1)
  {
    hide OnEvent, DueDatagram, SenderOk;
    if events == [] {
      assert [DueDatagram(s)] + [] == [DueDatagram(s)];
    } else {
      var n := |events| - 1;
      DriveGoesOn(s, events[..n]);
      var (s1, out) := Drive(AfterSend(s), events[..n]);
      if Waits(s1) {
        var more := GoOn(OnEvent(s1, events[n])).1;
        assert ([DueDatagram(s)] + out) + more == [DueDatagram(s)] + (out + more);
      }
    }
  }

  /** Steps within a file. */
  predicate NoStart(steps: seq<Step>) { forall i :: 0 <= i < |steps| ==> !steps[i].Start? && !steps[i].Shutdown? }

  /** One step, as the sender sees it. */
  lemma SenderStep(g: Plan, c: System, l: Step, j: Job)
    requires Possible(g, c, l) && Within(c.sender, j) && !l.Start? && !l.Shutdown?
    ensures var d := Apply(g, c, l);
            Within(d.sender, j)
            && (if l.Transmit? then
                  c.sender.phase.Sending? && Alone(d.sender, j) == AfterSend(Alone(c.sender, j))
                  && DataBytes(d.data) == DataBytes(c.data) + [DueDatagram(Alone(c.sender, j))]
                else if l.Arrive? then
                  d.sender == c.sender && TakenData(c, l) + DataBytes(d.data) == DataBytes(c.data)
                else if l.Farewell? then d.sender == c.sender && d.data == c.data
                else
                  |EventOf(l)| == 1 && Waits(Alone(c.sender, j)) && d.data == c.data
                  && Alone(d.sender, j) == OnEvent(Alone(c.sender, j), EventOf(l)[0]))
  {
    hide OnDatagram, Look, Readable;
  }

  lemma {:induction false} SenderAlong(g: Plan, c: System, steps: seq<Step>, d: System, j: Job)
    returns (out: seq<string>)
    requires Run(g, c, steps, d) && NoStart(steps) && Within(c.sender, j)
    ensures Within(d.sender, j)
    ensures Drive(Alone(c.sender, j), HistoryOf(g, c, steps).events) == (GoOn(Alone(d.sender, j)).0, out)
    ensures DataBytes(c.data) + out
         == HistoryOf(g, c, steps).data + (DataBytes(d.data) + GoOn(Alone(d.sender, j)).1)
    decreases |steps|
  {
    hide Apply, Possible, Drive, GoOn, Alone, Within, OnEvent, DataBytes, DueDatagram, AfterSend, Waits;
    AloneIsOk(c.sender, j);
    if steps == [] {
      out := GoOn(Alone(c.sender, j)).1;
      DriveNone(Alone(c.sender, j));
      assert DataBytes(c.data) + out == [] + (DataBytes(c.data) + out);
    } else {
      var l, d1 := steps[0], Apply(g, c, steps[0]);
      SenderStep(g, c, l, j);
      AloneIsOk(d1.sender, j);
      var rest := SenderAlong(g, d1, steps[1..], d, j);
      AloneIsOk(d.sender, j);
      var h, left := HistoryOf(g, d1, steps[1..]), DataBytes(d.data) + GoOn(Alone(d.sender, j)).1;
      assert [] + h.data == h.data && [] + h.events == h.events;
      if l.Transmit? {
        SendingAlone(c.sender, j);
        DriveGoesOn(Alone(c.sender, j), h.events);
        out := [DueDatagram(Alone(c.sender, j))] + rest;
        ThreeParts(DataBytes(c.data), [DueDatagram(Alone(c.sender, j))], rest);
      } else if l.Arrive? {
        out := rest;
        ThreeParts(TakenData(c, l), DataBytes(d1.data), rest);
        ThreeParts(TakenData(c, l), h.data, left);
      } else if l.Farewell? {
        out := rest;
      } else {
        out := rest;
        assert EventOf(l) == [EventOf(l)[0]];
        DriveFromNext(Alone(c.sender, j), EventOf(l)[0], h.events);
      }
    }
  }

  lemma AloneIsOk(s: Sender, j: Job)
    requires Within(s, j)
    ensures SenderOk(s) && SenderOk(Alone(s, j))
  {
  }

  lemma SendingAlone(s: Sender, j: Job)
    requires Within(s, j) && s.phase.Sending?
    ensures Alone(s, j).phase.Sending?
  {
  }

  lemma DriveNone(s: Sender)
    requires SenderOk(s)
    ensures Drive(s, []) == GoOn(s)
  {
  }

  /** In every run, from the prompt on and within one file, the sender's program, given the
      replies and timeouts of the run, is where the run has the sender, once it goes on to
      its next wait, and has sent what the server has taken, what is still on its way to it
      and the fragment that is due. */
  lemma SenderRefines(g: Plan, c: System, steps: seq<Step>, d: System)
    requires PlanOk(g) && Reachable(g, c) && c.sender.phase.Idle? && c.sender.jobs != []
    requires Enabled(g, c, Start) && NoStart(steps) && Run(g, Apply(g, c, Start), steps, d)
    ensures var j, h := c.sender.jobs[0], HistoryOf(g, Apply(g, c, Start), steps);
            SenderOk(Sender([j], Idle, c.sender.timer)) && SenderOk(Alone(d.sender, j))
            && Drive(StartFile(Sender([j], Idle, c.sender.timer)), h.events)
               == (GoOn(Alone(d.sender, j)).0, h.data + (DataBytes(d.data) + GoOn(Alone(d.sender, j)).1))
  {
    hide Run, Drive, HistoryOf, GoOn, DueDatagram, NoStart, Reachable, DataBytes;
    BetweenFiles(g, c);
    var j, c1 := c.sender.jobs[0], Apply(g, c, Start);
    assert Within(c1.sender, j) && Alone(c1.sender, j) == StartFile(Sender([j], Idle, c.sender.timer));
    var out := SenderAlong(g, c1, steps, d, j);
    NoBytes(c1);
    assert [] + out == out;
    AloneIsOk(d.sender, j);
  }

  lemma NoBytes(c: System)
    ensures c.data == [] ==> DataBytes(c.data) == []
  {
  }
}
