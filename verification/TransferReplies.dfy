// The datagrams and acknowledgements of the file transfer, byte for byte.
module TransferReplies {
  import opened CText
  import opened Acks
  import opened Fragments
  import opened FileTransfer
  import opened TransferProof

  /** The fragments of the file before the current one; 0 for the first file. */
  function TotalBefore(g: Plan, c: System): nat
    requires |c.sender.jobs| <= |g.jobs|
  {
    if Done(g, c) == 0 then 0 else Total(g.jobs[Done(g, c) - 1])
  }

  /** The server's total_frag, and the total that the acknowledgement in flight carries. */
  predicate Totals(g: Plan, c: System) {
    SenderOk(c.sender) && |c.sender.jobs| <= |g.jobs| &&
    match c.sender.phase
    case Idle => c.receiver.totalFrag == TotalBefore(g, c)
    case Finished => true
    case AwaitingGoodbye =>
      c.receiver.totalFrag == if Total(c.sender.jobs[0]) == 0 then TotalBefore(g, c) else Total(c.sender.jobs[0])
    case Sending(i) => c.receiver.totalFrag == if i == 0 then TotalBefore(g, c) else Total(c.sender.jobs[0])
    case Waiting(i) =>
      var total := if i == 0 then TotalBefore(g, c) else Total(c.sender.jobs[0]);
      if c.replies == [] then c.receiver.totalFrag == total
      else
        i + 1 < TWO_32 && total < TWO_32 && c.replies[0].bytes == AckBytes(total, i + 1)
        && c.receiver.totalFrag == Total(c.sender.jobs[0])
  }

  /** What the server makes of the fragment in flight, as far as totals go. */
  lemma TotalOfAck(c: System, j: Job, i: nat, x: Incoming, roll: nat)
    requires Deliverable(j) && i < Total(j) && Readable(c.receiver, x) && !x.done
    requires x.packet.Some? && x.packet.value.total == Total(j)
    requires c.receiver.phase == if i == 0 then Outer else Inner(i)
    ensures var (r, out) := OnDatagram(c.receiver, x, roll);
            if Kept(roll) then i + 1 < TWO_32 && out == [AckBytes(c.receiver.totalFrag, i + 1)]
                               && (if i == 0 then r.totalFrag == Total(j) else r.totalFrag == c.receiver.totalFrag)
            else r == c.receiver && out == []
  {
    hide Written, CStr, TotalFrag, AckBytes;
    assert AsUnsigned(i + 1) == i + 1;
  }

  lemma ArrivedTotals(g: Plan, c: System, r: Receiver, out: seq<string>)
    requires SenderOk(c.sender) && c.sender.phase.Waiting? && c.replies == [] && c.data != [] && Totals(g, c)
    requires var j, i := c.sender.jobs[0], c.sender.phase.i;
             if out == [] then r == c.receiver
             else i + 1 < TWO_32 && out == [AckBytes(c.receiver.totalFrag, i + 1)] && r.totalFrag == Total(j)
    ensures Totals(g, Arrived(c, r, out))
  {
    hide TotalFrag, AckBytes, Packable;
    var d := Arrived(c, r, out);
    if out != [] { assert d.replies[0].bytes == out[0]; }
  }

  lemma AckOfFragment(g: Plan, c: System, roll: nat)
    requires PlanOk(g) && Inv(g, c) && c.data != [] && c.sender.phase.Waiting? && 1 <= roll <= 100
    requires Totals(g, c) && Enabled(g, c, Arrive(roll))
    ensures Totals(g, Apply(g, c, Arrive(roll)))
  {
    hide OnDatagram, Look, Readable, Totals, TimerOk, NoneEmpty, CopyAll, CopyPart, SumOfFragments, AckBytes,
      Deliverable;
    CurrentJob(g, c);
    var j, i := c.sender.jobs[0], c.sender.phase.i;
    FragmentArrives(j, i);
    TotalOfAck(c, j, i, Look(c.data[0].bytes), roll);
    var (r, out) := OnDatagram(c.receiver, Look(c.data[0].bytes), roll);
    WaitingTotal(g, c);
    ArrivedTotals(g, c, r, out);
  }

  lemma WaitingTotal(g: Plan, c: System)
    requires Totals(g, c) && c.sender.phase.Waiting? && c.replies == []
    ensures c.sender.phase.i > 0 ==> c.receiver.totalFrag == Total(c.sender.jobs[0])
  {
  }

  lemma ReceiveTotals(g: Plan, c: System, sample: real)
    requires PlanOk(g) && Inv(g, c) && Enabled(g, c, Receive(sample)) && Totals(g, c)
    ensures Totals(g, Apply(g, c, Receive(sample)))
  {
    hide TimerOk, NoneEmpty, CopyAll, CopyPart, SumOfFragments, AckBytes, Acknowledges, TotalFrag;
    if c.sender.phase.AwaitingGoodbye? { NextFile(g, c); }
  }

  lemma QuietTotals(g: Plan, c: System, l: Step)
    requires PlanOk(g) && Inv(g, c) && Enabled(g, c, l) && Totals(g, c) && !l.Arrive? && !l.Receive?
    ensures Totals(g, Apply(g, c, l))
  {
    hide TimerOk, NoneEmpty, CopyAll, CopyPart, SumOfFragments, AckBytes, Acknowledges, Look, DueDatagram;
  }

  lemma TotalsKept(g: Plan, c: System, l: Step)
    requires PlanOk(g) && Inv(g, c) && Enabled(g, c, l) && Totals(g, c)
    ensures Totals(g, Apply(g, c, l))
  {
    hide Inv, Apply, AckBytes, Look, OnDatagram, Readable, TotalFrag, TotalBefore;
    match l
    case Arrive(roll) =>
      PhaseOfData(g, c);
      if c.sender.phase.Waiting? { AckOfFragment(g, c, roll); } else { FinishedTotals(g, c, roll); }
    case Receive(sample) => ReceiveTotals(g, c, sample);
    case _ => QuietTotals(g, c, l);
  }

  lemma FinishedTotals(g: Plan, c: System, roll: nat)
    requires Enabled(g, c, Arrive(roll)) && Totals(g, c) && c.sender.phase.Finished?
    ensures Totals(g, Apply(g, c, Arrive(roll)))
  {
    hide OnDatagram, Look, Readable;
  }

  lemma {:induction false} RunTotals(g: Plan, c: System, steps: seq<Step>, d: System)
    requires PlanOk(g) && Inv(g, c) && Totals(g, c) && Run(g, c, steps, d)
    ensures Totals(g, d)
    decreases |steps|
  {
    hide Inv, Totals, Apply, Possible;
    if steps != [] {
      StepKeeps(g, c, steps[0]);
      TotalsKept(g, c, steps[0]);
      RunTotals(g, Apply(g, c, steps[0]), steps[1..], d);
    }
  }

  /** What is in flight towards the server while fragment i is waited for is the text of the
      number of fragments, of i + 1 and of the fragment's size, the file's name, and the at
      most 1000 bytes of the file from 1000 * i on. */
  lemma DatagramExactly(g: Plan, c: System)
    requires PlanOk(g) && Reachable(g, c) && c.sender.phase.Waiting? && c.data != []
    ensures c.sender.jobs != [] && Total(c.sender.jobs[0]) < TWO_32 && |c.data| == 1
    ensures var j, i := c.sender.jobs[0], c.sender.phase.i;
            1000 * i < |j.content| && i + 1 < TWO_32
            && var end := if 1000 * (i + 1) < |j.content| then 1000 * (i + 1) else |j.content|;
               end - 1000 * i <= 1000
               && c.data[0].bytes
                  == PrintField(Total(j)) + ":" + PrintField(i + 1) + ":" + PrintField(end - 1000 * i) + ":"
                     + j.name + ":" + j.content[1000 * i..end]
  {
    hide Reachable, TimerOk, CopyAll, CopyPart, SumOfFragments, NoneEmpty, PrintField;
    ReachableInv(g, c);
    CurrentJob(g, c);
    FragmentSize(c.sender.jobs[0].content, c.sender.phase.i);
  }

  /** What ends the wait for fragment i is the text of three numbers: a total, i + 1 and the
      flag 1. The server answers before it looks at the packet, so for the first fragment
      of a file the total is that of the file before. */
  lemma AckExactly(g: Plan, c: System)
    requires PlanOk(g) && Reachable(g, c) && c.sender.phase.Waiting? && c.replies != []
    ensures |c.sender.jobs| <= |g.jobs| && c.sender.jobs != [] && c.sender.phase.i + 1 < TWO_32
    ensures var total := if c.sender.phase.i == 0 then TotalBefore(g, c) else Total(c.sender.jobs[0]);
            total < TWO_32
            && c.replies[0].bytes == PrintField(total) + ":" + PrintField(c.sender.phase.i + 1) + ":1:\0"
            && DecodableAck(c.replies[0].bytes)
            && DecodeAck(c.replies[0].bytes) == AckPacket(total, c.sender.phase.i + 1, 1)
  {
    hide Inv, Totals, Run, TotalBefore, TotalFrag;
    var steps :| Run(g, Init(g), steps, c);
    InitInv(g);
    TotalsAtStart(g);
    RunTotals(g, Init(g), steps, c);
    AckIsText(g, c);
  }

  lemma TotalsAtStart(g: Plan)
    ensures PlanOk(g) ==> Totals(g, Init(g))
  {
  }

  lemma AckIsText(g: Plan, c: System)
    requires Totals(g, c) && c.sender.phase.Waiting? && c.replies != []
    ensures |c.sender.jobs| <= |g.jobs| && c.sender.jobs != [] && c.sender.phase.i + 1 < TWO_32
    ensures var total := if c.sender.phase.i == 0 then TotalBefore(g, c) else Total(c.sender.jobs[0]);
            total < TWO_32
            && c.replies[0].bytes == PrintField(total) + ":" + PrintField(c.sender.phase.i + 1) + ":1:\0"
            && DecodableAck(c.replies[0].bytes)
            && DecodeAck(c.replies[0].bytes) == AckPacket(total, c.sender.phase.i + 1, 1)
  {
    hide TotalBefore, TotalFrag, DecodableAck, DecodeAck;
    var total := if c.sender.phase.i == 0 then TotalBefore(g, c) else Total(c.sender.jobs[0]);
    AckText(total, c.sender.phase.i + 1);
  }

  lemma AckText(total: uint32, no: uint32)
    ensures AckBytes(total, no) == PrintField(total) + ":" + PrintField(no) + ":1:\0"
    ensures DecodableAck(AckBytes(total, no)) && DecodeAck(AckBytes(total, no)) == AckPacket(total, no, 1)
  {
    hide DecodableAck, DecodeAck, PrintField;
    AckRoundTrip(AckPacket(total, no, 1), ['\0']);
    var a, b := PrintField(total), PrintField(no);
    assert PrintInt(1) == "1";
    assert ":1:" + ['\0'] == ":1:\0";
    assert EncodeAck(AckPacket(total, no, 1)) + ['\0'] == a + ":" + b + ":1:\0";
  }
}
