// What the invariant of the file transfer says to a reader, and what it does not hold
// without.
module TransferTheorems {
  import opened CText
  import opened Acks
  import opened RoundTripTime
  import opened FileTransfer
  import opened TransferProof

  // ----- safety -----

  /** The packets of the current file that the server has accepted. */
  function AcceptedNow(g: Plan, c: System): int
    requires |c.sender.jobs| <= |g.jobs|
  {
    c.acks - SumOfFragments(g.jobs[..Done(g, c)])
  }

  /** In every reachable state: while fragment i is waited for, at most one of the packet
      and its acknowledgement is in flight, the server has accepted i or i + 1 packets
      of the file, and has written exactly that many source fragments. */
  lemma StopAndWait(g: Plan, c: System, i: nat)
    requires PlanOk(g) && Reachable(g, c) && c.sender.phase == Waiting(i)
    ensures c.sender.jobs != [] && |c.sender.jobs| <= |g.jobs|
    ensures |c.data| + |c.replies| <= 2 && (c.data == [] || c.replies == [])
    ensures forall k :: 0 < k < |c.replies| ==> c.replies[k].Goodbye?
    ensures i <= AcceptedNow(g, c) <= i + 1
    ensures c.receiver.disk
         == CopyPart(CopyAll(g.disk, g.jobs[..Done(g, c)]), c.sender.jobs[0], AcceptedNow(g, c))
  {
    hide Reachable, TimerOk, CopyAll, CopyPart, NoneEmpty, Acknowledges;
    ReachableInv(g, c);
    if c.replies != [] {
      assert forall k :: 0 < k < |c.replies| ==> c.replies[k] == c.replies[1..][k - 1];
    }
  }

  lemma AckNumber(bytes: string, no: uint32)
    requires Acknowledges(bytes, no)
    ensures DecodableAck(bytes) && DecodeAck(bytes).no == no
  {
    var t: uint32 :| bytes == AckBytes(t, no);
    AckRoundTrip(AckPacket(t, no, RECEIVED), ['\0']);
  }

  lemma HeadAnswers(g: Plan, c: System)
    requires PlanOk(g) && Reachable(g, c) && c.sender.phase.Waiting? && c.replies != []
    ensures c.replies[0].Ack? && c.replies[0].id == c.sends && c.sender.phase.i + 1 < TWO_32
    ensures Acknowledges(c.replies[0].bytes, c.sender.phase.i + 1)
  {
    hide Reachable, TimerOk, CopyAll, CopyPart, SumOfFragments, NoneEmpty, Ready, Complete, Acknowledges;
    ReachableInv(g, c);
    assert AsUnsigned(c.sender.phase.i + 1) == c.sender.phase.i + 1;
  }

  /** Whatever datagram ends the wait for fragment i is its acknowledgement, although
      deliver never looks: it answers the latest transmission and is numbered i + 1, so
      the sample measured pairs a transmission with its own reply even after resends. */
  lemma ReplyIsTheAck(g: Plan, c: System)
    requires PlanOk(g) && Reachable(g, c) && c.sender.phase.Waiting? && c.replies != []
    ensures c.replies[0].Ack? && c.replies[0].id == c.sends
    ensures DecodableAck(c.replies[0].bytes)
    ensures DecodeAck(c.replies[0].bytes).no == c.sender.phase.i + 1
  {
    HeadAnswers(g, c);
    AckNumber(c.replies[0].bytes, c.sender.phase.i + 1);
  }

  /** And what ends the last wait of a file is the farewell for that file. */
  lemma ReplyIsTheFarewell(g: Plan, c: System)
    requires PlanOk(g) && Reachable(g, c) && c.sender.phase.AwaitingGoodbye? && c.replies != []
    ensures c.sender.jobs != []
    ensures c.replies == [Goodbye("End of File Transfer for " + c.sender.jobs[0].name + ".\n\0")]
  {
    ReachableInv(g, c);
    assert ".\n" + ['\0'] == ".\n\0";
    var said := "End of File Transfer for " + c.sender.jobs[0].name;
    assert (said + ".\n") + ['\0'] == said + ".\n\0";
  }

  /** The server's own counter. */
  function Counter(r: Receiver): nat { if r.phase.Inner? then r.phase.i else 0 }

  /** The server never reads frag_no, yet its counter always agrees with it, and no
      packet reads as the shutdown command. */
  lemma CounterMatchesNumber(g: Plan, c: System)
    requires PlanOk(g) && Reachable(g, c) && c.data != [] && !c.sender.phase.Finished?
    ensures var x := Look(c.data[0].bytes);
            !x.done && x.packet.Some? && x.packet.value.no == Counter(c.receiver) + 1
  {
    ReachableInv(g, c);
    FragmentArrives(c.sender.jobs[0], c.sender.phase.i);
  }

  /** When deliver has left, every file of the plan is in the server's directory, written
      over what was there; the datagrams sent were the fragments, the drops and "done",
      each acknowledged once unless dropped. */
  lemma AllCopied(g: Plan, c: System)
    requires PlanOk(g) && Reachable(g, c) && c.sender.phase.Finished?
    ensures c.receiver.disk == CopyAll(g.disk, g.jobs)
    ensures c.sends == c.acks + c.drops + |c.data|
    ensures forall x :: x in c.data ==> x.bytes == "done\n"
    ensures c.acks == SumOfFragments(g.jobs) + (if c.receiver.phase == Quit then 1 else 0)
  {
    ReachableInv(g, c);
    assert g.jobs[..|g.jobs|] == g.jobs;
  }

  /** Between two files both sides are back in their start states, with nothing in
      flight; so transfers compose. */
  lemma BetweenFiles(g: Plan, c: System)
    requires PlanOk(g) && Reachable(g, c) && c.sender.phase.Idle?
    ensures c.data == [] && c.replies == [] && c.receiver.phase == Outer
    ensures |c.sender.jobs| <= |g.jobs|
    ensures c.receiver.disk == CopyAll(g.disk, g.jobs[..Done(g, c)])
    ensures c.acks == SumOfFragments(g.jobs[..Done(g, c)]) && c.sends == c.acks + c.drops
  {
    ReachableInv(g, c);
  }

  // ----- progress -----

  predicate WaitsForever(c: System) {
    c.sender.jobs != [] &&
    if c.sender.phase.AwaitingGoodbye? then c.sender.jobs[0].content == ""
    else c.sender.phase.Waiting? && c.sender.phase.i > 0 && Timely(c)
         && 0.0 <= c.sender.timer.interval < 0.000001
  }

  /** A reachable state before the end is stuck in exactly two cases: the file is empty,
      or a packet was lost while an interval under one microsecond had switched the
      receive timeout off. */
  lemma StuckExactly(g: Plan, c: System)
    requires PlanOk(g) && Reachable(g, c) && !c.sender.phase.Finished?
    ensures (forall l :: !Enabled(g, c, l)) <==> WaitsForever(c)
  {
    ReachableInv(g, c);
    ArmedExactly(c.sender.timer.interval);
    if !WaitsForever(c) {
      var l := NextStep(g, c);
      assert Enabled(g, c, l);
    } else if c.sender.phase.Waiting? {
      assert !CanTimeOut(c.sender);
    }
  }

  /** A step that can be taken. */
  lemma NextStep(g: Plan, c: System) returns (l: Step)
    requires PlanOk(g) && Inv(g, c) && !c.sender.phase.Finished? && !WaitsForever(c)
    ensures Enabled(g, c, l)
  {
    hide OnDatagram, CopyAll, SumOfFragments;
    match c.sender.phase
    case Idle => l := if c.sender.jobs == [] then Shutdown else Start;
    case Sending(i) => l := Transmit;
    case AwaitingGoodbye => l := if c.replies == [] then Farewell else Receive(g.resolution);
    case Waiting(i) => l := NextInWait(g, c);
  }

  lemma NextInWait(g: Plan, c: System) returns (l: Step)
    requires PlanOk(g) && Inv(g, c) && c.sender.phase.Waiting? && !WaitsForever(c)
    ensures Enabled(g, c, l)
  {
    hide OnDatagram, Look, Readable, PhaseInv, Armed;
    ArmedExactly(c.sender.timer.interval);
    if c.replies != [] {
      l := Receive(g.resolution);
    } else if c.data != [] {
      ArriveOfFragment(g, c, 6);
      l := Arrive(6);
    } else {
      l := TimeOut;
    }
  }

  /** So with files that are not empty and a clock that never reports less than one
      microsecond, no run stops before the end. */
  lemma NeverStuck(g: Plan, c: System)
    requires PlanOk(g) && Reachable(g, c) && !c.sender.phase.Finished?
    requires g.resolution >= 0.000001 && forall j :: j in g.jobs ==> j.content != ""
    ensures exists l :: Enabled(g, c, l)
  {
    ReachableInv(g, c);
    StuckExactly(g, c);
  }

  // ----- every run is finite -----

  function WorkOf(jobs: seq<Job>): nat {
    if jobs == [] then 2 else 4 * Total(jobs[0]) + 3 + WorkOf(jobs[1..])
  }

  /** Steps left if nothing more is dropped. */
  function Work(c: System): nat
    requires SenderOk(c.sender)
  {
    var pending := if c.replies != [] && c.replies[|c.replies| - 1].Goodbye? then 1 else 2;
    match c.sender.phase
    case Idle => WorkOf(c.sender.jobs)
    case Sending(i) => WorkOf(c.sender.jobs[1..]) + pending + 4 * (Total(c.sender.jobs[0]) - i) - 1
    case Waiting(i) => WorkOf(c.sender.jobs[1..]) + pending + 4 * (Total(c.sender.jobs[0]) - i)
                       - (if c.data != [] then 2 else if c.replies != [] then 3 else 0)
    case AwaitingGoodbye => WorkOf(c.sender.jobs[1..]) + pending
    case Finished => |c.data|
  }

  lemma ArriveWorks(g: Plan, c: System, roll: nat)
    requires PlanOk(g) && Inv(g, c) && Enabled(g, c, Arrive(roll))
    ensures var d := Apply(g, c, Arrive(roll)); Work(d) + 1 <= Work(c) + 3 * (d.drops - c.drops)
    ensures Apply(g, c, Arrive(roll)).drops == c.drops + if roll <= 5 then 1 else 0
  {
    var (r, out) := OnDatagram(c.receiver, Look(c.data[0].bytes), roll);
    ArrivedWorks(c, r, out);
  }

  lemma ArrivedWorks(c: System, r: Receiver, out: seq<string>)
    requires SenderOk(c.sender) && c.replies == [] && |c.data| == 1 && |out| <= 1
    requires c.sender.phase.Waiting? || c.sender.phase.Finished?
    ensures var d := Arrived(c, r, out); Work(d) + 1 <= Work(c) + 3 * (d.drops - c.drops)
  {
    var d := Arrived(c, r, out);
    assert d.data == [];
    assert |d.replies| == |out|;
  }

  lemma ReceiveWorks(g: Plan, c: System, sample: real)
    requires PlanOk(g) && Inv(g, c) && Enabled(g, c, Receive(sample))
    ensures var d := Apply(g, c, Receive(sample)); Work(d) + 1 <= Work(c) && d.drops == c.drops
  {
    hide TimerOk, CopyAll, CopyPart, NoneEmpty, Acknowledges, SumOfFragments, Readable, Look;
    var d := Apply(g, c, Receive(sample));
    if |c.replies| > 1 {
      assert d.replies[|d.replies| - 1] == c.replies[1..][|c.replies| - 2];
    }
  }

  lemma FarewellWorks(g: Plan, c: System)
    requires PlanOk(g) && Inv(g, c) && Enabled(g, c, Farewell)
    ensures var d := Apply(g, c, Farewell); Work(d) + 1 <= Work(c) && d.drops == c.drops
  {
    hide TimerOk, CopyAll, CopyPart, NoneEmpty, Acknowledges, SumOfFragments, Readable, Look;
    if c.replies != [] {
      assert c.replies[1..] == [];
    }
  }

  /** Every step but a drop leaves less work; a drop, which five rolls of a hundred make,
      costs one more round of three. */
  lemma StepWorks(g: Plan, c: System, l: Step)
    requires PlanOk(g) && Inv(g, c) && Enabled(g, c, l)
    ensures var d := Apply(g, c, l); Work(d) + 1 <= Work(c) + 3 * (d.drops - c.drops)
    ensures Apply(g, c, l).drops == c.drops + if l.Arrive? && l.roll <= 5 then 1 else 0
  {
    hide Apply, Work, Inv;
    match l
    case Arrive(roll) => ArriveWorks(g, c, roll);
    case Receive(sample) => ReceiveWorks(g, c, sample);
    case Farewell => FarewellWorks(g, c);
    case _ => SenderWorks(g, c, l);
  }

  lemma SenderWorks(g: Plan, c: System, l: Step)
    requires PlanOk(g) && Inv(g, c) && Enabled(g, c, l) && (l.Start? || l.Transmit? || l.TimeOut? || l.Shutdown?)
    ensures var d := Apply(g, c, l); Work(d) + 1 <= Work(c) && d.drops == c.drops
  {
    hide TimerOk, CopyAll, CopyPart, NoneEmpty, InTransit, SumOfFragments, Readable, Look, DueDatagram;
    if l.TimeOut? { assert c.data == [] && c.replies == []; }
    if l.Start? { assert c.replies == []; }
  }

  /** A run from the start is never longer than the work of its plan plus three steps a
      drop: a drop pattern that ends lets the run end. */
  lemma {:induction false} RunIsBounded(g: Plan, c: System, steps: seq<Step>, d: System)
    requires PlanOk(g) && Inv(g, c) && Run(g, c, steps, d)
    ensures Inv(g, d) && |steps| + Work(d) <= Work(c) + 3 * (d.drops - c.drops)
    decreases |steps|
  {
    if steps != [] {
      StepKeeps(g, c, steps[0]);
      StepWorks(g, c, steps[0]);
      RunIsBounded(g, Apply(g, c, steps[0]), steps[1..], d);
    }
  }

  lemma RunLength(g: Plan, steps: seq<Step>, d: System)
    requires PlanOk(g) && Run(g, Init(g), steps, d)
    ensures |steps| <= WorkOf(g.jobs) + 3 * d.drops
  {
    InitInv(g);
    RunIsBounded(g, Init(g), steps, d);
  }
}
