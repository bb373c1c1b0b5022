// The two main loops of the file transfer as programs. What recvfrom returns is given
// by a sequence; a loop that is blocked in recvfrom when the sequence ends returns
// there. Each program is proved to do what the functions of FileTransfer say, one
// blocking call after the other.
module TransferPrograms {
  import opened CText
  import opened Buffers
  import opened Packets
  import opened Acks
  import opened Fragments
  import opened RoundTripTime
  import opened FileTransfer
  import opened Options

  // ----- the server between two calls of recvfrom -----

  /** What one datagram shows the server, and the random number drawn for it. */
  datatype Seen = Seen(x: Incoming, roll: nat)

  function OneDatagram(r: Receiver, d: Seen): (Receiver, seq<string>)
    requires Readable(r, d.x)
  {
    var (r', acks) := OnDatagram(r, d.x, d.roll);
    if r'.phase == EndOfFile then (AfterFarewell(r'), acks + [GoodbyeBytes(r'.name)]) else (r', acks)
  }

  /** The state and the replies after a sequence of datagrams; None when one of them
      would take the parser or the file position out of bounds. A server that has quit
      reads no more. */
  function ServeAll(r: Receiver, inbox: seq<Seen>): Option<(Receiver, seq<string>)> {
    if inbox == [] then Some((r, []))
    else
      match ServeAll(r, inbox[..|inbox| - 1])
      case None => None
      case Some((r1, out)) =>
        var d := inbox[|inbox| - 1];
        if r1.phase == Quit then Some((r1, out))
        else if !Readable(r1, d.x) then None
        else var (r2, more) := OneDatagram(r1, d); Some((r2, out + more))
  }

  lemma {:induction false} ServeMore(r: Receiver, inbox: seq<Seen>, k: nat)
    requires k <= |inbox| && ServeAll(r, inbox).Some?
    ensures ServeAll(r, inbox[..k]).Some?
    ensures ServeAll(r, inbox[..k]).value.0.phase == Quit ==>
              ServeAll(r, inbox) == ServeAll(r, inbox[..k])
    decreases |inbox|
  {
    if k == |inbox| {
      assert inbox[..k] == inbox;
    } else {
      var rest := inbox[..|inbox| - 1];
      ServeMore(r, rest, k);
      assert rest[..k] == inbox[..k];
    }
  }

  /** After the first k datagrams the server is in state r and has sent `out`; at the end
      of a file the farewell is still to be sent. */
  ghost predicate Served(r0: Receiver, inbox: seq<Seen>, k: nat, r: Receiver, out: seq<string>) {
    k <= |inbox| && ServeAll(r0, inbox).Some? &&
    ServeAll(r0, inbox[..k])
      == if r.phase == EndOfFile then Some((AfterFarewell(r), out + [GoodbyeBytes(r.name)])) else Some((r, out))
  }

  /** One more datagram. */
  lemma ServeOne(r0: Receiver, inbox: seq<Seen>, k: nat, r: Receiver, out: seq<string>)
    requires Served(r0, inbox, k, r, out) && k < |inbox| && (r.phase.Outer? || r.phase.Inner?)
    ensures Readable(r, inbox[k].x)
    ensures var (r', acks) := OnDatagram(r, inbox[k].x, inbox[k].roll);
            Served(r0, inbox, k + 1, r', out + acks)
  {
    ServeMore(r0, inbox, k + 1);
    assert inbox[..k + 1][..k] == inbox[..k];
    var (r', acks) := OnDatagram(r, inbox[k].x, inbox[k].roll);
    if r'.phase == EndOfFile {
      assert out + (acks + [GoodbyeBytes(r'.name)]) == out + acks + [GoodbyeBytes(r'.name)];
    }
  }

  lemma ServeDropped(r0: Receiver, inbox: seq<Seen>, k: nat, r: Receiver, out: seq<string>)
    requires Served(r0, inbox, k, r, out) && k < |inbox| && (r.phase.Outer? || r.phase.Inner?)
    requires !Kept(inbox[k].roll)
    ensures Served(r0, inbox, k + 1, r, out)
  {
    ServeOne(r0, inbox, k, r, out);
    assert out + [] == out;
  }

  lemma CStrTwice(s: string)
    ensures CStr(CStr(s)) == CStr(s)
  {
  }

  lemma ServeNext(r0: Receiver, inbox: seq<Seen>, k: nat, r: Receiver, out: seq<string>)
    requires Served(r0, inbox, k, r, out) && k < |inbox| && r.phase.Inner?
    requires Kept(inbox[k].roll)
    ensures inbox[k].x.packet.Some? && r.offset <= |FileOn(r.disk, r.fd)|
    ensures Served(r0, inbox, k + 1, NextPacket(r, Parsed(inbox[k].x.packet.value)),
                   out + [AckBytes(r.totalFrag, AsUnsigned(r.phase.i + 1))])
  {
    hide Served, AckBytes, Written, CStr;
    ServeOne(r0, inbox, k, r, out);
    CStrTwice(inbox[k].x.packet.value.name);
    assert NextPacket(r, Parsed(inbox[k].x.packet.value)) == NextPacket(r, inbox[k].x.packet.value);
  }

  lemma ServeFirst(r0: Receiver, inbox: seq<Seen>, k: nat, r: Receiver, out: seq<string>)
    requires Served(r0, inbox, k, r, out) && k < |inbox| && r.phase.Outer?
    requires Kept(inbox[k].roll) && !inbox[k].x.done
    ensures inbox[k].x.packet.Some?
    ensures Served(r0, inbox, k + 1, FirstPacket(r, Parsed(inbox[k].x.packet.value)),
                   out + [AckBytes(r.totalFrag, 1)])
  {
    hide Served, AckBytes, Written, CStr;
    ServeOne(r0, inbox, k, r, out);
    CStrTwice(inbox[k].x.packet.value.name);
    assert FirstPacket(r, Parsed(inbox[k].x.packet.value)) == FirstPacket(r, inbox[k].x.packet.value);
  }

  lemma ServeDone(r0: Receiver, inbox: seq<Seen>, k: nat, r: Receiver, out: seq<string>)
    requires Served(r0, inbox, k, r, out) && k < |inbox| && r.phase.Outer?
    requires Kept(inbox[k].roll) && inbox[k].x.done
    ensures ServeAll(r0, inbox) == Some((r.(phase := Quit), out + [AckBytes(r.totalFrag, 1)]))
  {
    ServeOne(r0, inbox, k, r, out);
    ServeMore(r0, inbox, k + 1);
  }

  lemma ServeFarewell(r0: Receiver, inbox: seq<Seen>, k: nat, r: Receiver, out: seq<string>)
    requires Served(r0, inbox, k, r, out) && r.phase.EndOfFile?
    ensures Served(r0, inbox, k, AfterFarewell(r), out + [GoodbyeBytes(r.name)])
  {
  }

  lemma ServeNothing(r0: Receiver, inbox: seq<Seen>)
    requires ServeAll(r0, inbox).Some? && r0.phase.Outer?
    ensures Served(r0, inbox, 0, r0, [])
  {
  }

  lemma ServedAll(r0: Receiver, inbox: seq<Seen>, r: Receiver, out: seq<string>)
    requires Served(r0, inbox, |inbox|, r, out) && !r.phase.EndOfFile?
    ensures ServeAll(r0, inbox) == Some((r, out))
  {
    assert inbox[..|inbox|] == inbox;
  }

  /** A datagram from recvfrom and the random number drawn for it. */
  datatype Delivery = Delivery(bytes: string, roll: nat)

  /** `seen` is what the datagrams show, one by one. */
  ghost predicate Shown(inbox: seq<Delivery>, seen: seq<Seen>) {
    |seen| == |inbox| &&
    forall k :: 0 <= k < |inbox| ==> seen[k] == Seen(Look(inbox[k].bytes), inbox[k].roll)
  }

  lemma ShownAt(inbox: seq<Delivery>, seen: seq<Seen>, k: nat)
    requires Shown(inbox, seen)
    ensures |seen| == |inbox|
    ensures k < |inbox| ==> seen[k] == Seen(Look(inbox[k].bytes), inbox[k].roll)
    ensures k < |inbox| ==> (seen[k].x.done <==> CStr(Received(inbox[k].bytes)) == DONE)
  {
  }

  lemma ServedLength(r0: Receiver, inbox: seq<Seen>, k: nat, r: Receiver, out: seq<string>)
    requires Served(r0, inbox, k, r, out)
    ensures k <= |inbox|
  {
  }

  /** recvfrom into a buffer cleared with memset. */
  method Recv(bytes: string) returns (buffer: array<char>)
    ensures fresh(buffer) && buffer[..] == Received(bytes)
  {
    buffer := new char[SENDING_BUFFER_SIZE];
    var i := 0;
    while i < buffer.Length
      invariant i <= buffer.Length
      invariant buffer[..i] == Received(bytes)[..i]
    {
      buffer[i] := if i < |bytes| then bytes[i] else '\0';
      i := i + 1;
    }
    assert buffer[..] == buffer[..i];
  }

  method MakeAck(total: uint32, no: uint32) returns (reply: string)
    ensures reply == AckBytes(total, no)
  {
    var messages := new char[256];
    AckToBuffer(AckPacket(total, no, RECEIVED), messages);
    reply := CStr(messages[..]) + ['\0'];
  }

  /** buffer_to_packet into the server's struct and name buffer. */
  method TakePacket(buffer: array<char>) returns (p: Packet)
    requires Examine(buffer[..]).packet.Some?
    ensures p == Parsed(Examine(buffer[..]).packet.value)
  {
    var name := new char[NAME_SIZE];
    var receiver := new PacketStruct(name);
    receiver.BufferToPacket(buffer, name);
    p := Packet(receiver.totalFrag, receiver.fragNo, receiver.size,
                CStr(receiver.filename[..]), receiver.filedata[..receiver.size]);
  }

  class FileServer {
    var disk: map<string, string>
    var totalFrag: uint32

    /** The state of FileTransfer that the fields and the locals of main stand for. */
    ghost function At(phase: ReceiverPhase, fd: string, offset: nat, name: string): Receiver
      reads this
    {
      Receiver(phase, totalFrag, fd, offset, name, disk)
    }

    /** write(fd, ...) at the file position. */
    method Write(fd: string, offset: nat, bytes: string) returns (next: nat)
      requires offset <= |FileOn(disk, fd)|
      modifies this`disk
      ensures disk == old(disk[fd := Written(FileOn(disk, fd), offset, bytes)])
      ensures next == offset + |bytes|
    {
      disk := disk[fd := Written(FileOn(disk, fd), offset, bytes)];
      next := offset + |bytes|;
    }

    /** The first packet of a file: acknowledge, parse, open, write. */
    method AcceptFirst(buffer: array<char>, ghost r: Receiver)
      returns (ack: string, fd: string, offset: nat)
      requires r.totalFrag == totalFrag && r.disk == disk && Examine(buffer[..]).packet.Some?
      modifies this
      ensures At(if 1 < totalFrag then Inner(1) else EndOfFile, fd, offset, fd)
           == FirstPacket(r, Parsed(Examine(buffer[..]).packet.value))
      ensures ack == AckBytes(r.totalFrag, 1)
    {
      hide Examine, AckBytes, Written;
      ack := MakeAck(totalFrag, 1);
      var p := TakePacket(buffer);
      fd := p.name;
      totalFrag := p.total;
      offset := Write(fd, 0, p.data);
    }

    /** A later packet: acknowledge with the loop counter, parse, write. */
    method AcceptNext(buffer: array<char>, i: nat, fd: string, position: nat, ghost name: string)
      returns (ack: string, end: string, offset: nat)
      requires Examine(buffer[..]).packet.Some? && position <= |FileOn(disk, fd)|
      modifies this`disk
      ensures At(if i + 1 < totalFrag then Inner(i + 1) else EndOfFile, fd, offset, end)
           == NextPacket(old(At(Inner(i), fd, position, name)), Parsed(Examine(buffer[..]).packet.value))
      ensures ack == AckBytes(totalFrag, AsUnsigned(i + 1))
    {
      hide Examine, AckBytes, Written;
      ack := MakeAck(totalFrag, AsUnsigned(i + 1));
      var p := TakePacket(buffer);
      end := p.name;
      offset := Write(fd, position, p.data);
    }

    /** The inner loop over fragments 2, 3, ... of the open file: its counter i steps back
        when a packet is dropped. The loop is left when the file is complete, or blocked
        when there is nothing more to receive. */
    method ServeRest(inbox: seq<Delivery>, ghost seen: seq<Seen>, from: nat, sent: seq<string>,
                     fd: string, position: nat, ghost r0: Receiver)
      returns (pos: nat, outbox: seq<string>, end: string, blocked: bool, ghost r: Receiver)
      requires Shown(inbox, seen)
      requires Served(r0, seen, from, At(if 1 < totalFrag then Inner(1) else EndOfFile, fd, position, fd), sent)
      modifies this`disk
      ensures from <= pos <= |inbox| && Served(r0, seen, pos, r, outbox)
      ensures r == At(r.phase, r.fd, r.offset, end)
      ensures if blocked then r.phase.Inner? && pos == |inbox| else r.phase.EndOfFile?
    {
      hide Served, Shown, Examine, Received, NextPacket, AckBytes;
      var offset, i := position, 1;
      pos, outbox, end, blocked := from, sent, fd, false;
      ShownAt(inbox, seen, pos);
      ServedLength(r0, seen, pos, At(if 1 < totalFrag then Inner(1) else EndOfFile, fd, position, fd), outbox);
      while i < totalFrag
        invariant 1 <= i && from <= pos <= |seen|
        invariant Served(r0, seen, pos, At(if i < totalFrag then Inner(i) else EndOfFile, fd, offset, end), outbox)
        decreases |seen| - pos
      {
        r := At(Inner(i), fd, offset, end);
        ShownAt(inbox, seen, pos);
        if pos == |inbox| {
          blocked := true;
          return;
        }
        var buffer := Recv(inbox[pos].bytes);
        if Kept(inbox[pos].roll) {
          ServeNext(r0, seen, pos, r, outbox);
          var ack;
          ack, end, offset := AcceptNext(buffer, i, fd, offset, end);
          outbox := outbox + [ack];
        } else {
          ServeDropped(r0, seen, pos, r, outbox);
          i := i - 1;
        }
        pos := pos + 1;
        i := i + 1;
      }
      r := At(EndOfFile, fd, offset, end);
    }

    /** main: the outer loop over files, until "done" or until there is nothing more to
        receive. */
    method Serve(inbox: seq<Delivery>, ghost seen: seq<Seen>) returns (outbox: seq<string>, ghost r: Receiver)
      requires totalFrag == 0 && Shown(inbox, seen)
      requires ServeAll(At(Outer, "", 0, ""), seen).Some?
      modifies this
      ensures ServeAll(old(At(Outer, "", 0, "")), seen) == Some((r, outbox))
      ensures disk == r.disk
    {
      hide Served, Shown, ServeAll, Examine, Received, FirstPacket, AckBytes, CStr;
      ghost var r0 := At(Outer, "", 0, "");
      var pos := 0;
      outbox, r := [], r0;
      ServeNothing(r0, seen);
      ShownAt(inbox, seen, pos);
      while pos < |inbox|
        invariant pos <= |inbox| && Served(r0, seen, pos, r, outbox)
        invariant r == At(Outer, r.fd, r.offset, r.name)
      {
        ShownAt(inbox, seen, pos);
        var buffer := Recv(inbox[pos].bytes);
        if !Kept(inbox[pos].roll) {
          ServeDropped(r0, seen, pos, r, outbox);
          pos := pos + 1;
          continue;
        }
        if CStr(buffer[..]) == DONE {
          ServeDone(r0, seen, pos, r, outbox);
          var last := MakeAck(totalFrag, 1);
          outbox, r := outbox + [last], r.(phase := Quit);
          return;
        }
        ServeFirst(r0, seen, pos, r, outbox);
        var ack, fd, offset := AcceptFirst(buffer, r);
        var end, blocked;
        pos, outbox, end, blocked, r := ServeRest(inbox, seen, pos + 1, outbox + [ack], fd, offset, r0);
        if blocked { break; }
        ServeFarewell(r0, seen, pos, r, outbox);
        outbox, r := outbox + [GoodbyeBytes(end)], AfterFarewell(r);
      }
      ServedAll(r0, seen, r, outbox);
    }
  }

  // ----- deliver between two calls of recvfrom -----

  /** How a recvfrom of deliver ends. */
  datatype Event = Replied(sample: real) | TimedOut

  predicate Waits(s: Sender) { s.phase.Waiting? || s.phase.AwaitingGoodbye? }

  function OnEvent(s: Sender, e: Event): (s': Sender)
    requires SenderOk(s) && Waits(s)
    ensures SenderOk(s')
  {
    if e.Replied? then AfterReply(s, e.sample)
    else if s.phase.Waiting? then AfterTimeout(s)
    else s
  }

  /** Go on until the next recvfrom: send if a fragment is due. */
  function GoOn(s: Sender): (r: (Sender, seq<string>))
    requires SenderOk(s)
    ensures SenderOk(r.0)
  {
    if s.phase.Sending? then (AfterSend(s), [DueDatagram(s)]) else (s, [])
  }

  /** The state and the datagrams sent after a sequence of events. */
  function Drive(s: Sender, events: seq<Event>): (r: (Sender, seq<string>))
    requires SenderOk(s)
    ensures SenderOk(r.0)
  {
    if events == [] then GoOn(s)
    else
      var (s1, out) := Drive(s, events[..|events| - 1]);
      if !Waits(s1) then (s1, out)
      else var (s2, more) := GoOn(OnEvent(s1, events[|events| - 1])); (s2, out + more)
  }

  // ----- what the replies make of the timer -----

  /** The samples that came with the replies. */
  function Samples(events: seq<Event>): (r: seq<real>)
    ensures |r| <= |events|
  {
    if events == [] then []
    else
      var e := events[|events| - 1];
      Samples(events[..|events| - 1]) + (if e.Replied? then [e.sample] else [])
  }

  /** Those that measure fragments: the reply after the last of them is the farewell. */
  function FragmentSamples(j: Job, events: seq<Event>): seq<real> {
    Samples(events)[..Min(|Samples(events)|, Total(j))]
  }

  /** Where n replies leave the sender of file j. */
  predicate Past(s: Sender, j: Job, n: nat) {
    if n < Total(j) then s.jobs == [j] && s.phase == Waiting(n)
    else if n == Total(j) then s.jobs == [j] && s.phase == AwaitingGoodbye
    else s.jobs == [] && s.phase == Idle
  }

  lemma PastOneMore(s: Sender, j: Job, samples: seq<real>, e: Event)
    requires SenderOk(s) && Past(s, j, |samples|) && Waits(s)
    requires Took(s.timer, samples[..Min(|samples|, Total(j))])
    ensures var s' := GoOn(OnEvent(s, e)).0;
            var all := samples + (if e.Replied? then [e.sample] else []);
            Past(s', j, |all|) && Took(s'.timer, all[..Min(|all|, Total(j))])
  {
    hide Took, FirstSample, NextSample, TotalFrag;
    var n := |samples|;
    if e.Replied? && n < Total(j) {
      assert samples[..n] == samples;
      TookOneMore(s.timer, samples, e.sample);
      assert (samples + [e.sample])[..n + 1] == samples + [e.sample];
    } else if e.Replied? {
      assert (samples + [e.sample])[..Total(j)] == samples[..Total(j)];
    } else {
      assert samples + [] == samples;
    }
  }

  /** For every file and all replies and timeouts: how many replies there were says where
      the sender is, and those of fragments are what its timer has measured. */
  lemma {:induction false} DriveMeasures(s: Sender, j: Job, events: seq<Event>)
    requires Packable(j.name, j.content) && s.jobs == [j] && s.phase.Idle?
    ensures var s' := Drive(StartFile(s), events).0;
            Past(s', j, |Samples(events)|) && Took(s'.timer, FragmentSamples(j, events))
    ensures FragmentSamples(j, events) == [] ==> Drive(StartFile(s), events).0.timer.interval == s.timer.interval
  {
    hide Took, Packable, TotalFrag, DueDatagram;
    if events == [] {
      assert Took(Timer(0.0, 0.0, s.timer.interval), []) by { TookNothing(s.timer.interval); }
    } else {
      var n := |events| - 1;
      var before := Samples(events[..n]);
      DriveMeasures(s, j, events[..n]);
      if |before| <= Total(j) {
        PastOneMore(Drive(StartFile(s), events[..n]).0, j, before, events[n]);
      } else {
        assert Samples(events)[..Total(j)] == before[..Total(j)];
      }
    }
  }

  /** So in terms of section 2 of RFC 6298. */
  lemma FileMeasures(s: Sender, j: Job, events: seq<Event>)
    requires Packable(j.name, j.content) && s.jobs == [j] && s.phase.Idle?
    ensures var s' := Drive(StartFile(s), events).0;
            Past(s', j, |Samples(events)|)
            && if FragmentSamples(j, events) == [] then s'.timer.interval == s.timer.interval
               else MeasuredBy(s'.timer, FragmentSamples(j, events))
  {
    hide Took, MeasuredBy, Drive, Past;
    DriveMeasures(s, j, events);
    if FragmentSamples(j, events) != [] {
      TookIsMeasured(Drive(StartFile(s), events).0.timer, FragmentSamples(j, events));
    }
  }

  /** After the first k events deliver is in state s, about to go on, and has sent `out`. */
  ghost predicate Driven(s0: Sender, events: seq<Event>, k: nat, s: Sender, out: seq<string>) {
    SenderOk(s0) && SenderOk(s) && k <= |events| &&
    Drive(s0, events[..k]) == (GoOn(s).0, out + GoOn(s).1)
  }

  lemma DriveOne(s0: Sender, events: seq<Event>, k: nat, s: Sender, out: seq<string>)
    requires Driven(s0, events, k, s, out) && k < |events| && Waits(GoOn(s).0)
    ensures Driven(s0, events, k + 1, OnEvent(GoOn(s).0, events[k]), out + GoOn(s).1)
  {
    assert events[..k + 1][..k] == events[..k];
  }

  lemma DrivenNothing(s0: Sender, events: seq<Event>)
    requires SenderOk(s0)
    ensures Driven(s0, events, 0, s0, [])
  {
    assert [] + GoOn(s0).1 == GoOn(s0).1;
  }

  lemma DrivenAll(s0: Sender, events: seq<Event>, s: Sender, out: seq<string>)
    requires Driven(s0, events, |events|, s, out)
    ensures Drive(s0, events) == (GoOn(s).0, out + GoOn(s).1)
  {
    assert events[..|events|] == events;
  }

  lemma {:induction false} DriveMore(s0: Sender, events: seq<Event>, k: nat)
    requires SenderOk(s0) && k <= |events| && !Waits(Drive(s0, events[..k]).0)
    ensures Drive(s0, events) == Drive(s0, events[..k])
    decreases |events|
  {
    if k == |events| {
      assert events[..k] == events;
    } else {
      assert events[..|events| - 1][..k] == events[..k];
      DriveMore(s0, events[..|events| - 1], k);
    }
  }

  lemma DrivenEnd(s0: Sender, events: seq<Event>, k: nat, s: Sender, out: seq<string>)
    requires Driven(s0, events, k, s, out) && s.phase.Idle?
    ensures Drive(s0, events) == (s, out)
  {
    DriveMore(s0, events, k);
    assert out + [] == out;
  }

  /** read() of one fragment, write_packets and convert_to_string. */
  method MakeDatagram(name: string, content: string, total: uint32, i: nat) returns (data: string)
    requires Packable(name, content) && i < Total(Job(name, content)) == total
    ensures data == Encode(FragmentPacket(name, content, i))
  {
    hide Encode, Fragment, CStr;
    var fileName := new char[NAME_SIZE];
    PutString(fileName, name);
    StrlenOf(fileName[..], name);
    ghost var nameBytes := fileName[..];
    var chunk := Fragment(content, i);
    FragmentSize(content, i);
    var buffer := new char[FILE_FRAG_SIZE];
    var k := 0;
    while k < |chunk|
      modifies buffer
      invariant k <= |chunk| && buffer[..k] == chunk[..k]
    {
      buffer[k] := chunk[k];
      k := k + 1;
    }
    var sender := new PacketStruct(fileName);
    sender.WritePackets(total, i + 1, |chunk|, fileName, buffer);
    assert buffer[..|chunk|] == chunk && fileName[..] == nameBytes;
    assert sender.View() == FragmentPacket(name, content, i);
    var bytes := new char[SENDING_BUFFER_SIZE];
    var size := sender.ConvertToString(bytes, fileName);
    data := bytes[..size];
  }

  class Deliver {
    var timeInterval: real

    ghost function At(job: Job, phase: SenderPhase, estimate: real, deviation: real): Sender
      reads this
    {
      Sender([job], phase, Timer(estimate, deviation, timeInterval))
    }

    /** new_estimate_RTT, new_dev_RTT and the timeout after fragment i. */
    method Measure(i: nat, sample: real, oldEstimate: real, oldDeviation: real)
      returns (estimate: real, deviation: real)
      modifies this
      ensures Timer(estimate, deviation, timeInterval)
           == if i == 0 then FirstSample(sample)
              else NextSample(Timer(oldEstimate, oldDeviation, old(timeInterval)), sample)
    {
      if i == 0 {
        estimate := sample;
        deviation := sample / 2.0;
      } else {
        estimate := NewEstimate(sample, oldEstimate);
        deviation := NewDeviation(oldDeviation, sample, estimate);
      }
      timeInterval := estimate + 4.0 * deviation;
    }

    /** One file: the loop over fragments with its send-and-wait loop inside, then the
        wait for the farewell. Returns early when no further event is given. */
    method SendFile(job: Job, events: seq<Event>) returns (outbox: seq<string>, finished: bool, ghost s: Sender)
      requires Packable(job.name, job.content)
      modifies this
      ensures Drive(old(StartFile(At(job, Idle, 0.0, 0.0))), events) == (s, outbox)
      ensures finished <==> s.phase.Idle?
      ensures s.timer.interval == timeInterval && Past(s, job, |Samples(events)|)
      ensures if FragmentSamples(job, events) == [] then timeInterval == old(timeInterval)
              else MeasuredBy(s.timer, FragmentSamples(job, events))
    {
      hide Driven, Drive, DueDatagram, Past, MeasuredBy, FragmentSamples, Samples;
      FileMeasures(At(job, Idle, 0.0, 0.0), job, events);
      var estimate, deviation, pos, i := 0.0, 0.0, 0, 0;
      var total := TotalFrag(|job.content|);
      ghost var s0 := StartFile(At(job, Idle, 0.0, 0.0));
      outbox, finished := [], false;
      DrivenNothing(s0, events);
      while i < total
        invariant i <= total && pos <= |events|
        invariant Driven(s0, events, pos, At(job, if i < total then Sending(i) else AwaitingGoodbye,
                                             estimate, deviation), outbox)
      {
        var data := MakeDatagram(job.name, job.content, total, i);
        var sample := 0.0;
        s := At(job, Sending(i), estimate, deviation);
        assert GoOn(s) == (At(job, Waiting(i), estimate, deviation), [data]) by { DueIs(s, data); }
        while true
          invariant pos <= |events| && Driven(s0, events, pos, s, outbox)
          invariant s == At(job, Sending(i), estimate, deviation)
          decreases |events| - pos
        {
          if pos == |events| {
            DrivenAll(s0, events, s, outbox);
            outbox := outbox + [data];
            s := GoOn(s).0;
            return;
          }
          DriveOne(s0, events, pos, s, outbox);
          outbox := outbox + [data];
          var e := events[pos];
          pos := pos + 1;
          if e.Replied? {
            sample := e.sample;
            break;
          }
        }
        estimate, deviation := Measure(i, sample, estimate, deviation);
        i := i + 1;
      }
      s := At(job, AwaitingGoodbye, estimate, deviation);
      while true
        invariant pos <= |events| && Driven(s0, events, pos, s, outbox)
        invariant s == At(job, AwaitingGoodbye, estimate, deviation)
        decreases |events| - pos
      {
        if pos == |events| {
          DrivenAll(s0, events, s, outbox);
          assert outbox + [] == outbox;
          return;
        }
        DriveOne(s0, events, pos, s, outbox);
        assert outbox + [] == outbox;
        pos := pos + 1;
        if events[pos - 1].Replied? {
          break;
        }
      }
      s := AfterReply(s, 0.0);
      finished := true;
      DrivenEnd(s0, events, pos, s, outbox);
    }
  }

  lemma DueIs(s: Sender, data: string)
    requires SenderOk(s) && s.phase.Sending?
    requires data == Encode(FragmentPacket(s.jobs[0].name, s.jobs[0].content, s.phase.i))
    ensures GoOn(s).1 == [data]
  {
  }
}
