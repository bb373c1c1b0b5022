// deliver.c and server.c of the file transfer as two processes and their channels.
// Sender and Receiver hold what each main loop keeps between two blocking calls; the
// functions below say what happens from one blocking call to the next.
module FileTransfer {
  import opened CText
  import opened Options
  import opened Packets
  import opened Acks
  import opened Fragments
  import opened RoundTripTime

  datatype Job = Job(name: string, content: string)

  function Total(j: Job): nat { TotalFrag(|j.content|) }

  // ----- deliver.c -----

  datatype SenderPhase =
    | Idle                  // at the prompt
    | Sending(i: nat)       // about to send fragment i
    | Waiting(i: nat)       // in recvfrom after sending fragment i
    | AwaitingGoodbye
    | Finished              // sent "done\n" and left

  /** jobs[0] is the file being sent, or the next one at the prompt. */
  datatype Sender = Sender(jobs: seq<Job>, phase: SenderPhase, timer: Timer)

  predicate Packables(jobs: seq<Job>) {
    forall j :: j in jobs ==> Packable(j.name, j.content)
  }

  /** The phases inside a file only occur with a file, at one of its fragments. */
  predicate SenderOk(s: Sender) {
    Packables(s.jobs) &&
    match s.phase
    case Sending(i) => s.jobs != [] && i < Total(s.jobs[0])
    case Waiting(i) => s.jobs != [] && i < Total(s.jobs[0])
    case AwaitingGoodbye => s.jobs != []
    case Finished => s.jobs == []
    case Idle => true
  }

  /** A file name is typed: the estimates start again, the interval is left over. */
  function StartFile(s: Sender): (s': Sender)
    requires SenderOk(s) && s.phase.Idle? && s.jobs != []
    ensures SenderOk(s')
  {
    var timer := Timer(0.0, 0.0, s.timer.interval);
    s.(phase := if Total(s.jobs[0]) == 0 then AwaitingGoodbye else Sending(0), timer := timer)
  }

  /** The datagram of the fragment that is due. */
  function DueDatagram(s: Sender): string
    requires SenderOk(s) && s.phase.Sending?
  {
    Encode(FragmentPacket(s.jobs[0].name, s.jobs[0].content, s.phase.i))
  }

  function AfterSend(s: Sender): (s': Sender)
    requires SenderOk(s) && s.phase.Sending?
    ensures SenderOk(s')
  {
    s.(phase := Waiting(s.phase.i))
  }

  /** Any datagram ends a wait: its bytes are never looked at. */
  function AfterReply(s: Sender, sample: real): (s': Sender)
    requires SenderOk(s) && (s.phase.Waiting? || s.phase.AwaitingGoodbye?)
    ensures SenderOk(s')
  {
    match s.phase
    case Waiting(i) =>
      s.(phase := if i + 1 < Total(s.jobs[0]) then Sending(i + 1) else AwaitingGoodbye,
         timer := if i == 0 then FirstSample(sample) else NextSample(s.timer, sample))
    case AwaitingGoodbye =>
      s.(jobs := s.jobs[1..], phase := Idle)
  }

  function AfterTimeout(s: Sender): (s': Sender)
    requires SenderOk(s) && s.phase.Waiting?
    ensures SenderOk(s')
  {
    s.(phase := Sending(s.phase.i))
  }

  function Leave(s: Sender): (s': Sender)
    requires SenderOk(s) && s.phase.Idle? && s.jobs == []
    ensures SenderOk(s')
  {
    s.(phase := Finished)
  }

  const DONE := "done\n"

  /** Whether the wait of the current phase can time out: fragment 0 always waits one
      second, the others as long as the estimator says. */
  predicate CanTimeOut(s: Sender) {
    s.phase.Waiting? && (s.phase.i == 0 || (s.timer.interval >= 0.0 && Armed(s.timer.interval)))
  }

  // ----- server.c -----

  datatype ReceiverPhase =
    | Outer                 // in the recvfrom of the outer loop
    | Inner(i: nat)         // in the recvfrom of the inner loop, i packets accepted
    | EndOfFile             // about to send the farewell
    | Quit

  /** `fd` is the open file and `offset` its position; `name` is the name buffer. */
  datatype Receiver = Receiver(phase: ReceiverPhase, totalFrag: uint32, fd: string, offset: nat,
                               name: string, disk: map<string, string>)

  /** recvfrom into a zeroed buffer of 2000 bytes. */
  function Received(bytes: string): (s: string)
    ensures |s| == SENDING_BUFFER_SIZE
  {
    (bytes + Zeros(SENDING_BUFFER_SIZE))[..SENDING_BUFFER_SIZE]
  }

  lemma ReceivedIsPadded(bytes: string)
    requires |bytes| <= SENDING_BUFFER_SIZE
    ensures Received(bytes) == bytes + Zeros(SENDING_BUFFER_SIZE - |bytes|)
  {
  }

  function Zeros(n: nat): (s: string)
    ensures |s| == n
  {
    seq(n, _ => '\0')
  }

  /** rand() % 100 + 1 above 5: the packet is not dropped. */
  predicate Kept(roll: nat) { roll > 5 }

  function FileOn(disk: map<string, string>, name: string): string {
    if name in disk then disk[name] else ""
  }

  /** write(): replace the bytes from `offset` on, keep what lies beyond. */
  function Written(file: string, offset: nat, bytes: string): string
    requires offset <= |file|
  {
    file[..offset] + bytes + file[Min(offset + |bytes|, |file|)..]
  }

  /** What the two loops look for in a received buffer. */
  datatype Incoming = Incoming(done: bool, packet: Option<Packet>)

  function Examine(buffer: string): Incoming {
    Incoming(CStr(buffer) == DONE, if Decodable(buffer) then Some(Decode(buffer)) else None)
  }

  function Look(bytes: string): Incoming { Examine(Received(bytes)) }

  /** The datagrams for which the code's parsing and writing stay in bounds. */
  predicate Readable(r: Receiver, x: Incoming) {
    match r.phase
    case Outer => x.done || x.packet.Some?
    case Inner(i) => x.packet.Some? && r.offset <= |FileOn(r.disk, r.fd)|
    case EndOfFile => false
    case Quit => false
  }

  function AckBytes(total: uint32, no: uint32): string {
    EncodeAck(AckPacket(total, no, RECEIVED)) + ['\0']
  }

  /** The first packet of a file names it, opens it and is written at its start. */
  function FirstPacket(r: Receiver, p: Packet): Receiver {
    var name := CStr(p.name);
    Receiver(if p.total > 1 then Inner(1) else EndOfFile, p.total, name, |p.data|, name,
             r.disk[name := Written(FileOn(r.disk, name), 0, p.data)])
  }

  /** A later packet is written where the last one ended; its number is not read. */
  function NextPacket(r: Receiver, p: Packet): Receiver
    requires r.phase.Inner? && r.offset <= |FileOn(r.disk, r.fd)|
  {
    r.(phase := if r.phase.i + 1 < r.totalFrag then Inner(r.phase.i + 1) else EndOfFile,
       offset := r.offset + |p.data|, name := CStr(p.name),
       disk := r.disk[r.fd := Written(FileOn(r.disk, r.fd), r.offset, p.data)])
  }

  /** One pass of the outer or inner loop: the new state and the replies sent. The
      acknowledgement goes out before the datagram is looked at, and carries the
      server's own counter. */
  function OnDatagram(r: Receiver, x: Incoming, roll: nat): (Receiver, seq<string>)
    requires Readable(r, x)
  {
    if !Kept(roll) then (r, [])
    else if r.phase.Inner? then
      (NextPacket(r, x.packet.value), [AckBytes(r.totalFrag, AsUnsigned(r.phase.i + 1))])
    else
      (if x.done then r.(phase := Quit) else FirstPacket(r, x.packet.value), [AckBytes(r.totalFrag, 1)])
  }

  function GoodbyeBytes(name: string): string { "End of File Transfer for " + name + ".\n" + ['\0'] }

  /** The farewell after the inner loop. */
  function AfterFarewell(r: Receiver): Receiver { r.(phase := Outer) }

  // ----- both, and the network between them -----

  /** Datagrams in flight. The numbers identify transmissions; neither program has them. */
  datatype Transmission = Transmission(id: nat, bytes: string)
  datatype Reply = Ack(id: nat, bytes: string) | Goodbye(bytes: string)

  datatype System = System(sender: Sender, receiver: Receiver,
                           data: seq<Transmission>, replies: seq<Reply>,
                           sends: nat, drops: nat, acks: nat)

  /** The files to send, what the server's directory holds at first, and the smallest
      round-trip time that the sender's clock reports (0.0 assumes nothing). */
  datatype Plan = Plan(jobs: seq<Job>, disk: map<string, string>, resolution: real)

  /** The files that the server takes as they are meant: a name that survives the header
      and fits the farewell's buffer of 256 bytes. */
  predicate Deliverable(j: Job) { Packable(j.name, j.content) && |j.name| <= 228 && ':' !in j.name }

  predicate PlanOk(g: Plan) { g.resolution >= 0.0 && forall j :: j in g.jobs ==> Deliverable(j) }

  function Init(g: Plan): System {
    System(Sender(g.jobs, Idle, Timer(0.0, 0.0, 0.0)),
           Receiver(Outer, 0, "", 0, "", g.disk), [], [], 0, 0, 0)
  }

  datatype Step =
    | Start | Transmit | Arrive(roll: nat) | Farewell | Receive(sample: real) | TimeOut | Shutdown

  /** Timely timeout: the wait ends without a reply only when nothing is in flight. */
  predicate Timely(c: System) { c.data == [] && c.replies == [] }

  predicate Possible(g: Plan, c: System, l: Step) {
    SenderOk(c.sender) &&
    match l
    case Start => c.sender.phase.Idle? && c.sender.jobs != []
    case Transmit => c.sender.phase.Sending?
    case Arrive(roll) => c.data != [] && Readable(c.receiver, Look(c.data[0].bytes)) && 1 <= roll <= 100
    case Farewell => c.receiver.phase.EndOfFile?
    case Receive(sample) => (c.sender.phase.Waiting? || c.sender.phase.AwaitingGoodbye?)
                            && c.replies != [] && sample >= g.resolution
    case TimeOut => CanTimeOut(c.sender)
    case Shutdown => c.sender.phase.Idle? && c.sender.jobs == []
  }

  predicate Enabled(g: Plan, c: System, l: Step) {
    Possible(g, c, l) && (l.TimeOut? ==> Timely(c))
  }

  /** The system after its first datagram left the network: the server is `receiver`
      and has sent `acks`. */
  function Arrived(c: System, receiver: Receiver, acks: seq<string>): System
    requires c.data != []
  {
    c.(receiver := receiver, data := c.data[1..],
       replies := c.replies + seq(|acks|, k requires 0 <= k < |acks| => Ack(c.data[0].id, acks[k])),
       drops := c.drops + (if acks == [] then 1 else 0), acks := c.acks + |acks|)
  }

  function Apply(g: Plan, c: System, l: Step): System
    requires Possible(g, c, l)
  {
    match l
    case Start => c.(sender := StartFile(c.sender))
    case Transmit =>
      c.(sender := AfterSend(c.sender), sends := c.sends + 1,
         data := c.data + [Transmission(c.sends + 1, DueDatagram(c.sender))])
    case Arrive(roll) =>
      var (receiver, acks) := OnDatagram(c.receiver, Look(c.data[0].bytes), roll);
      Arrived(c, receiver, acks)
    case Farewell =>
      c.(receiver := AfterFarewell(c.receiver),
         replies := c.replies + [Goodbye(GoodbyeBytes(c.receiver.name))])
    case Receive(sample) =>
      c.(sender := AfterReply(c.sender, sample), replies := c.replies[1..])
    case TimeOut => c.(sender := AfterTimeout(c.sender))
    case Shutdown =>
      c.(sender := Leave(c.sender), sends := c.sends + 1,
         data := c.data + [Transmission(c.sends + 1, DONE)])
  }

  /** `steps` can be taken one after the other from c and lead to d. */
  ghost predicate Run(g: Plan, c: System, steps: seq<Step>, d: System)
    decreases |steps|
  {
    if steps == [] then c == d
    else Enabled(g, c, steps[0]) && Run(g, Apply(g, c, steps[0]), steps[1..], d)
  }

  // ----- what the server's directory should hold -----

  /** A file written over an old one: open() does not truncate. */
  function Over(was: string, bytes: string): string { bytes + was[Min(|bytes|, |was|)..] }

  /** The directory after the first k fragments of a job. */
  function CopyPart(disk: map<string, string>, j: Job, k: nat): map<string, string> {
    if k == 0 then disk else disk[j.name := Over(FileOn(disk, j.name), Prefix(j.content, k))]
  }

  function CopyAll(disk: map<string, string>, jobs: seq<Job>): map<string, string> {
    if jobs == [] then disk
    else
      var j := jobs[|jobs| - 1];
      CopyPart(CopyAll(disk, jobs[..|jobs| - 1]), j, Total(j))
  }

  /** A delivered file equals its source exactly when the name was free or the file it
      overwrote was not longer; its first bytes always do. */
  lemma CopyExactly(disk: map<string, string>, j: Job)
    requires j.content != ""
    ensures j.name in CopyPart(disk, j, Total(j))
    ensures j.content <= CopyPart(disk, j, Total(j))[j.name]
    ensures CopyPart(disk, j, Total(j))[j.name] == j.content
       <==> j.name !in disk || |disk[j.name]| <= |j.content|
    ensures forall n :: n in disk && n != j.name ==>
              n in CopyPart(disk, j, Total(j)) && CopyPart(disk, j, Total(j))[n] == disk[n]
  {
    PrefixOfAll(j.content);
  }
}
