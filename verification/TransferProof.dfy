// Safety, progress and conservation of the file transfer, over every run.
module TransferProof {
  import opened CText
  import opened Packets
  import opened Fragments
  import opened RoundTripTime
  import opened FileTransfer
  import opened Options

  // ----- the invariant -----

  function SumOfFragments(jobs: seq<Job>): nat {
    if jobs == [] then 0 else SumOfFragments(jobs[..|jobs| - 1]) + Total(jobs[|jobs| - 1])
  }

  /** The server has accepted the first k fragments of j over the directory `base` and
      is blocked in the recvfrom for the next one. */
  predicate Ready(r: Receiver, base: map<string, string>, j: Job, k: nat) {
    r.disk == CopyPart(base, j, k) &&
    if k == 0 then r.phase == Outer
    else r.phase == Inner(k) && r.totalFrag == Total(j) && r.fd == r.name == j.name
         && r.offset == FILE_FRAG_SIZE * k
  }

  /** The server has accepted all of j; `goodbye` is what it has said since. */
  predicate Complete(r: Receiver, base: map<string, string>, j: Job, goodbye: seq<Reply>) {
    r.disk == CopyPart(base, j, Total(j)) &&
    if r.phase == EndOfFile then goodbye == [] && r.name == j.name
    else r.phase == Outer && goodbye == [Goodbye(GoodbyeBytes(j.name))]
  }

  ghost predicate Acknowledges(bytes: string, no: uint32) {
    exists t: uint32 :: bytes == AckBytes(t, no)
  }

  /** Reply `x` answers transmission `id` of fragment `i`. */
  ghost predicate Answers(x: Reply, id: nat, i: nat) {
    x.Ack? && x.id == id && Acknowledges(x.bytes, AsUnsigned(i + 1))
  }

  predicate TimerOk(g: Plan, s: Sender) {
    s.timer.interval >= 0.0 && s.timer.estimate >= 0.0 && s.timer.deviation >= 0.0 &&
    (((s.phase.Sending? || s.phase.Waiting?) && s.phase.i > 0) ==>
       s.timer.estimate >= g.resolution && s.timer.interval == s.timer.estimate + 4.0 * s.timer.deviation
       && s.timer.deviation >= 0.5 * (g.resolution * PowerOf(0.75, s.phase.i - 1)))
  }

  /** Fragment i is with the network, or dropped, or accepted and acknowledged. */
  ghost predicate InTransit(c: System, base: map<string, string>, j: Job, i: nat, before: nat)
    requires Packable(j.name, j.content) && i < Total(j)
  {
    || (&& Ready(c.receiver, base, j, i) && c.replies == [] && c.acks == before + i
        && (c.data == [] || c.data == [Transmission(c.sends, Encode(FragmentPacket(j.name, j.content, i)))]))
    || (&& c.data == [] && c.acks == before + i + 1
        && c.replies != [] && Answers(c.replies[0], c.sends, i)
        && if i + 1 < Total(j) then Ready(c.receiver, base, j, i + 1) && c.replies[1..] == []
           else Complete(c.receiver, base, j, c.replies[1..]))
  }

  /** The invariant within a file or between two: `base` is the directory after the
      finished files and `before` the number of their fragments. */
  ghost predicate PhaseInv(c: System, base: map<string, string>, before: nat)
    requires SenderOk(c.sender)
  {
    match c.sender.phase
    case Idle =>
      c.data == [] && c.replies == [] && c.acks == before
      && c.receiver.phase == Outer && c.receiver.disk == base
    case Sending(i) =>
      c.data == [] && c.replies == [] && c.acks == before + i
      && Ready(c.receiver, base, c.sender.jobs[0], i)
    case Waiting(i) => InTransit(c, base, c.sender.jobs[0], i, before)
    case AwaitingGoodbye =>
      c.data == [] && c.acks == before + Total(c.sender.jobs[0])
      && (if Total(c.sender.jobs[0]) == 0
          then c.replies == [] && c.receiver.phase == Outer && c.receiver.disk == base
          else Complete(c.receiver, base, c.sender.jobs[0], c.replies))
    case Finished =>
      && c.receiver.disk == base && |c.data| <= 1
      && (c.data != [] ==> c.data[0].bytes == DONE)
      && ((c.receiver.phase == Outer && c.replies == [] && c.acks == before)
          || (c.receiver.phase == Quit && c.data == [] && c.acks == before + 1))
  }

  /** How many files are finished. */
  function Done(g: Plan, c: System): nat
    requires |c.sender.jobs| <= |g.jobs|
  {
    |g.jobs| - |c.sender.jobs|
  }

  predicate NoneEmpty(jobs: seq<Job>) { forall j :: j in jobs ==> j.content != "" }

  ghost predicate Inv(g: Plan, c: System) {
    SenderOk(c.sender) && TimerOk(g, c.sender) &&
    |c.sender.jobs| <= |g.jobs| && c.sender.jobs == g.jobs[Done(g, c)..] &&
    c.sends == c.acks + c.drops + |c.data| && NoneEmpty(g.jobs[..Done(g, c)]) &&
    PhaseInv(c, CopyAll(g.disk, g.jobs[..Done(g, c)]), SumOfFragments(g.jobs[..Done(g, c)]))
  }

  lemma InitInv(g: Plan)
    requires PlanOk(g)
    ensures Inv(g, Init(g))
  {
    assert g.jobs[0..] == g.jobs;
  }

  // ----- each step keeps it -----

  /** A fragment's datagram, as the server's buffer shows it. */
  lemma FragmentArrives(j: Job, i: nat)
    requires Deliverable(j) && i < Total(j)
    ensures var p := FragmentPacket(j.name, j.content, i);
            Look(Encode(p)) == Incoming(false, Some(p)) && CStr(p.name) == j.name
  {
    var p := FragmentPacket(j.name, j.content, i);
    EncodedLength(p);
    ReceivedIsPadded(Encode(p));
    PacketRoundTrip(p, Zeros(SENDING_BUFFER_SIZE - |Encode(p)|));
    PacketIsNotDone(p, Zeros(SENDING_BUFFER_SIZE - |Encode(p)|));
  }

  lemma DoneArrives()
    ensures Look(DONE).done
  {
    ReceivedIsPadded(DONE);
    CStrTerminated(DONE, Zeros(SENDING_BUFFER_SIZE - 6));
    assert Zeros(SENDING_BUFFER_SIZE - 5) == ['\0'] + Zeros(SENDING_BUFFER_SIZE - 6);
    assert DONE + Zeros(SENDING_BUFFER_SIZE - 5) == DONE + ['\0'] + Zeros(SENDING_BUFFER_SIZE - 6);
  }

  /** Writing where the bytes written so far end. */
  lemma WrittenNext(was: string, a: string, f: string)
    ensures |a| <= |Over(was, a)|
    ensures Written(Over(was, a), |a|, f) == Over(was, a + f)
  {
    var x := Over(was, a);
    assert x[..|a|] == a;
    var m := Min(|a| + |f|, |x|);
    if |a| + |f| <= |was| {
      assert x[m..] == was[|a| + |f|..];
    } else {
      assert x[m..] == [];
    }
  }

  /** The directory after one more fragment. */
  lemma ExtendedCopy(base: map<string, string>, j: Job, i: nat)
    requires i < Total(j)
    ensures FILE_FRAG_SIZE * i <= |FileOn(CopyPart(base, j, i), j.name)| || i == 0
    ensures var disk := CopyPart(base, j, i);
            var offset := FILE_FRAG_SIZE * i;
            offset <= |FileOn(disk, j.name)|
            && disk[j.name := Written(FileOn(disk, j.name), offset, Fragment(j.content, i))]
            == CopyPart(base, j, i + 1)
  {
    hide Written, Over, Prefix, Fragment;
    var was := FileOn(base, j.name);
    FragmentSize(j.content, i);
    WrittenNext(was, Prefix(j.content, i), Fragment(j.content, i));
    NothingOver(was, j.content);
  }

  lemma NothingOver(was: string, content: string)
    ensures Over(was, Prefix(content, 0)) == was
  {
  }

  lemma AcceptedPacket(r: Receiver, base: map<string, string>, j: Job, i: nat, p: Packet)
    requires i < Total(j) < TWO_31 && Ready(r, base, j, i)
    requires p.total == Total(j) && CStr(p.name) == j.name && p.data == Fragment(j.content, i)
    ensures r.phase.Inner? ==> r.offset <= |FileOn(r.disk, r.fd)|
    ensures var r' := if i == 0 then FirstPacket(r, p) else NextPacket(r, p);
            if i + 1 < Total(j) then Ready(r', base, j, i + 1) else Complete(r', base, j, [])
  {
    ExtendedCopy(base, j, i);
    FragmentSize(j.content, i);
  }

  lemma AcceptedDatagram(r: Receiver, base: map<string, string>, j: Job, i: nat, x: Incoming, roll: nat)
    requires i < Total(j) < TWO_31 && Ready(r, base, j, i)
    requires !x.done && x.packet.Some?
    requires var p := x.packet.value;
             p.total == Total(j) && CStr(p.name) == j.name && p.data == Fragment(j.content, i)
    ensures Readable(r, x)
    ensures var (r', out) := OnDatagram(r, x, roll);
            if !Kept(roll) then r' == r && out == []
            else out == [AckBytes(r.totalFrag, AsUnsigned(i + 1))]
                 && if i + 1 < Total(j) then Ready(r', base, j, i + 1) else Complete(r', base, j, [])
  {
    AcceptedPacket(r, base, j, i, x.packet.value);
  }

  lemma ArrivedDropped(c: System, base: map<string, string>, j: Job, i: nat, before: nat)
    requires Deliverable(j) && i < Total(j)
    requires InTransit(c, base, j, i, before) && c.data != []
    ensures InTransit(Arrived(c, c.receiver, []), base, j, i, before)
  {
  }

  lemma ArrivedAccepted(c: System, base: map<string, string>, j: Job, i: nat, before: nat,
                        r: Receiver, total: uint32)
    requires Deliverable(j) && i < Total(j)
    requires InTransit(c, base, j, i, before) && c.data != []
    requires if i + 1 < Total(j) then Ready(r, base, j, i + 1) else Complete(r, base, j, [])
    ensures InTransit(Arrived(c, r, [AckBytes(total, AsUnsigned(i + 1))]), base, j, i, before)
  {
    var d := Arrived(c, r, [AckBytes(total, AsUnsigned(i + 1))]);
    assert Acknowledges(d.replies[0].bytes, AsUnsigned(i + 1));
    assert d.replies[1..] == [];
  }

  /** What the server does with the fragment in flight. */
  lemma FragmentOutcome(c: System, base: map<string, string>, j: Job, i: nat, before: nat, roll: nat)
    requires Deliverable(j) && i < Total(j)
    requires InTransit(c, base, j, i, before) && c.data != []
    ensures Readable(c.receiver, Look(c.data[0].bytes))
    ensures var (r, out) := OnDatagram(c.receiver, Look(c.data[0].bytes), roll);
            InTransit(Arrived(c, r, out), base, j, i, before) && |out| == if Kept(roll) then 1 else 0
  {
    var x := Look(c.data[0].bytes);
    FragmentArrives(j, i);
    AcceptedDatagram(c.receiver, base, j, i, x, roll);
    var (r, out) := OnDatagram(c.receiver, x, roll);
    if Kept(roll) {
      ArrivedAccepted(c, base, j, i, before, r, c.receiver.totalFrag);
    } else {
      ArrivedDropped(c, base, j, i, before);
    }
  }

  lemma CurrentJob(g: Plan, c: System)
    requires PlanOk(g) && Inv(g, c) && c.sender.jobs != []
    ensures c.sender.jobs[0] in g.jobs && Deliverable(c.sender.jobs[0])
  {
    hide PhaseInv, TimerOk, NoneEmpty;
    assert c.sender.jobs[0] == g.jobs[Done(g, c)];
  }

  lemma ArriveOfFragment(g: Plan, c: System, roll: nat)
    requires PlanOk(g) && Inv(g, c) && c.data != [] && c.sender.phase.Waiting?
    ensures Readable(c.receiver, Look(c.data[0].bytes))
    ensures 1 <= roll <= 100 ==> Possible(g, c, Arrive(roll)) && Inv(g, Apply(g, c, Arrive(roll)))
  {
    hide OnDatagram, Readable, Look, InTransit, TimerOk, NoneEmpty;
    CurrentJob(g, c);
    FragmentOutcome(c, CopyAll(g.disk, g.jobs[..Done(g, c)]), c.sender.jobs[0], c.sender.phase.i,
                    SumOfFragments(g.jobs[..Done(g, c)]), roll);
  }

  lemma DoneOutcome(r: Receiver, roll: nat)
    requires r.phase == Outer
    ensures Readable(r, Look(DONE))
    ensures OnDatagram(r, Look(DONE), roll)
         == if Kept(roll) then (r.(phase := Quit), [AckBytes(r.totalFrag, 1)]) else (r, [])
  {
    DoneArrives();
  }

  lemma ArriveOfDone(g: Plan, c: System, roll: nat)
    requires PlanOk(g) && Inv(g, c) && c.data != [] && c.sender.phase.Finished?
    ensures Readable(c.receiver, Look(c.data[0].bytes))
    ensures 1 <= roll <= 100 ==> Possible(g, c, Arrive(roll)) && Inv(g, Apply(g, c, Arrive(roll)))
  {
    hide OnDatagram, Readable, Look, InTransit, TimerOk, CopyAll, SumOfFragments, AckBytes, Kept, NoneEmpty;
    DoneOutcome(c.receiver, roll);
  }

  lemma ReceiveKeeps(g: Plan, c: System, sample: real)
    requires PlanOk(g) && Inv(g, c) && Enabled(g, c, Receive(sample))
    ensures Inv(g, Apply(g, c, Receive(sample)))
  {
    hide CopyPart, Readable, Look, OnDatagram, FileOn, TimerOk, NoneEmpty;
    if c.sender.phase.AwaitingGoodbye? {
      NextFile(g, c);
    }
    TimerAfter(g, c.sender, sample);
  }

  /** When the goodbye is taken, the file counts as finished. */
  lemma NextFile(g: Plan, c: System)
    requires PlanOk(g) && Inv(g, c) && c.sender.phase.AwaitingGoodbye?
    ensures var k := Done(g, c);
            k < |g.jobs| && c.sender.jobs[1..] == g.jobs[k + 1..]
            && CopyAll(g.disk, g.jobs[..k + 1]) == CopyPart(CopyAll(g.disk, g.jobs[..k]), g.jobs[k], Total(g.jobs[k]))
            && SumOfFragments(g.jobs[..k + 1]) == SumOfFragments(g.jobs[..k]) + Total(g.jobs[k])
            && g.jobs[k] == c.sender.jobs[0]
            && (g.jobs[k].content != "" ==> NoneEmpty(g.jobs[..k + 1]))
  {
    hide PhaseInv, TimerOk, NoneEmpty, CopyAll, CopyPart, SumOfFragments, TotalFrag;
    OneMoreJob(g.disk, g.jobs, Done(g, c));
  }

  /** One more file of the list. */
  lemma OneMoreJob(disk: map<string, string>, jobs: seq<Job>, k: nat)
    requires k < |jobs|
    ensures CopyAll(disk, jobs[..k + 1]) == CopyPart(CopyAll(disk, jobs[..k]), jobs[k], Total(jobs[k]))
    ensures SumOfFragments(jobs[..k + 1]) == SumOfFragments(jobs[..k]) + Total(jobs[k])
    ensures NoneEmpty(jobs[..k]) && jobs[k].content != "" ==> NoneEmpty(jobs[..k + 1])
  {
    hide CopyPart, TotalFrag;
    assert jobs[..k + 1] == jobs[..k] + [jobs[k]];
    assert jobs[..k + 1][..k] == jobs[..k];
  }

  lemma TimerAfter(g: Plan, s: Sender, sample: real)
    requires SenderOk(s) && TimerOk(g, s) && (s.phase.Waiting? || s.phase.AwaitingGoodbye?)
    requires g.resolution >= 0.0 && sample >= g.resolution
    ensures TimerOk(g, AfterReply(s, sample))
  {
    if s.phase.Waiting? && s.phase.i > 0 {
      var p := PowerOf(0.75, s.phase.i - 1);
      assert PowerOf(0.75, s.phase.i) == 0.75 * p;
      assert g.resolution * (0.75 * p) == 0.75 * (g.resolution * p);
    }
  }

  lemma SendKeeps(g: Plan, c: System)
    requires PlanOk(g) && Inv(g, c) && Enabled(g, c, Transmit)
    ensures Inv(g, Apply(g, c, Transmit))
  {
    hide TimerOk, CopyAll, SumOfFragments, NoneEmpty, Ready, Readable, Look;
    TimerSent(g, c.sender);
  }

  lemma TimerSent(g: Plan, s: Sender)
    requires SenderOk(s) && TimerOk(g, s) && s.phase.Sending?
    ensures TimerOk(g, AfterSend(s))
  {
    hide PowerOf;
  }

  lemma FarewellKeeps(g: Plan, c: System)
    requires PlanOk(g) && Inv(g, c) && Enabled(g, c, Farewell)
    ensures Inv(g, Apply(g, c, Farewell))
  {
    hide TimerOk, CopyAll, CopyPart, SumOfFragments, NoneEmpty, Readable, Look, Acknowledges;
    var d := Apply(g, c, Farewell);
    if c.sender.phase.Waiting? {
      assert d.replies[1..] == c.replies[1..] + [Goodbye(GoodbyeBytes(c.receiver.name))];
    }
  }

  lemma PhaseOfData(g: Plan, c: System)
    requires Inv(g, c) && c.data != []
    ensures c.sender.phase.Waiting? || c.sender.phase.Finished?
  {
  }

  /** Steps of the sender without a datagram in flight. */
  lemma QuietKeeps(g: Plan, c: System, l: Step)
    requires PlanOk(g) && Inv(g, c) && Enabled(g, c, l) && (l.Start? || l.TimeOut? || l.Shutdown?)
    ensures Inv(g, Apply(g, c, l))
  {
    hide Readable, Look, OnDatagram, CopyAll, SumOfFragments;
  }

  /** Every step of the sender, the receiver or the network keeps the invariant. */
  lemma StepKeeps(g: Plan, c: System, l: Step)
    requires PlanOk(g) && Inv(g, c) && Enabled(g, c, l)
    ensures Inv(g, Apply(g, c, l))
  {
    hide Apply, PhaseInv, TimerOk, SenderOk, Readable;
    match l
    case Arrive(roll) =>
      PhaseOfData(g, c);
      if c.sender.phase.Finished? { ArriveOfDone(g, c, roll); } else { ArriveOfFragment(g, c, roll); }
    case Receive(sample) => ReceiveKeeps(g, c, sample);
    case Transmit => SendKeeps(g, c);
    case Farewell => FarewellKeeps(g, c);
    case _ => QuietKeeps(g, c, l);
  }

  lemma {:induction false} RunKeeps(g: Plan, c: System, steps: seq<Step>, d: System)
    requires PlanOk(g) && Inv(g, c) && Run(g, c, steps, d)
    ensures Inv(g, d)
    decreases |steps|
  {
    if steps != [] {
      StepKeeps(g, c, steps[0]);
      RunKeeps(g, Apply(g, c, steps[0]), steps[1..], d);
    }
  }

  ghost predicate Reachable(g: Plan, d: System) {
    exists steps :: Run(g, Init(g), steps, d)
  }

  lemma ReachableInv(g: Plan, d: System)
    requires PlanOk(g) && Reachable(g, d)
    ensures Inv(g, d)
  {
    var steps :| Run(g, Init(g), steps, d);
    InitInv(g);
    RunKeeps(g, Init(g), steps, d);
  }
}
