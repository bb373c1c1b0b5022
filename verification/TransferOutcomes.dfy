// What a whole plan comes to: which files the server's directory holds in the end, and
// which plans can get stuck.
module TransferOutcomes {
  import opened Packets
  import opened Fragments
  import opened RoundTripTime
  import opened FileTransfer
  import opened TransferProof
  import opened TransferTheorems

  // ----- the directory at the end -----

  /** deliver only leaves when no file was empty. */
  lemma LeavesOnlyWithoutEmpty(g: Plan, c: System)
    requires PlanOk(g) && Reachable(g, c) && c.sender.phase.Finished?
    ensures NoneEmpty(g.jobs)
  {
    hide PhaseInv, TimerOk;
    ReachableInv(g, c);
    assert g.jobs[..|g.jobs|] == g.jobs;
  }

  lemma CopyAllNext(disk: map<string, string>, jobs: seq<Job>, k: nat)
    requires k < |jobs|
    ensures CopyAll(disk, jobs[..k + 1]) == CopyPart(CopyAll(disk, jobs[..k]), jobs[k], Total(jobs[k]))
  {
    assert jobs[..k + 1][..k] == jobs[..k];
  }

  /** A file is as long as the longest thing ever written under its name. */
  lemma {:induction false} LengthAfter(disk: map<string, string>, jobs: seq<Job>, k: nat, name: string, n: nat)
    requires k <= |jobs| && NoneEmpty(jobs)
    ensures |FileOn(CopyAll(disk, jobs[..k]), name)| <= n
       <==> |FileOn(disk, name)| <= n && forall m :: 0 <= m < k && jobs[m].name == name ==> |jobs[m].content| <= n
  {
    hide CopyPart, CopyAll, FileOn;
    if k > 0 {
      LengthAfter(disk, jobs, k - 1, name, n);
      CopyAllNext(disk, jobs, k - 1);
      LengthOfCopy(CopyAll(disk, jobs[..k - 1]), jobs[k - 1], name);
    } else {
      CopyNothing(disk, jobs);
    }
  }

  lemma CopyNothing(disk: map<string, string>, jobs: seq<Job>)
    ensures CopyAll(disk, jobs[..0]) == disk
  {
  }

  lemma LengthOfCopy(disk: map<string, string>, j: Job, name: string)
    requires j.content != ""
    ensures var was := |FileOn(disk, name)|;
            |FileOn(CopyPart(disk, j, Total(j)), name)|
            == if j.name == name && was < |j.content| then |j.content| else was
  {
    PrefixOfAll(j.content);
  }

  /** No later file of the list has the name of number k. */
  predicate LastOfName(jobs: seq<Job>, k: nat)
    requires k < |jobs|
  {
    forall m :: k < m < |jobs| ==> jobs[m].name != jobs[k].name
  }

  lemma {:induction false} LaterFilesKeep(disk: map<string, string>, jobs: seq<Job>, k: nat, n: nat, name: string)
    requires k <= n <= |jobs| && NoneEmpty(jobs)
    requires forall m :: k <= m < n ==> jobs[m].name != name
    ensures var before, after := CopyAll(disk, jobs[..k]), CopyAll(disk, jobs[..n]);
            (name in after <==> name in before) && (name in before ==> after[name] == before[name])
  {
    hide CopyAll;
    if k < n {
      LaterFilesKeep(disk, jobs, k, n - 1, name);
      CopyAllNext(disk, jobs, n - 1);
    }
  }

  /** Nothing of this name was longer: neither an old file nor an earlier file of the list. */
  predicate NothingLonger(g: Plan, k: nat)
    requires k < |g.jobs|
  {
    var name, n := g.jobs[k].name, |g.jobs[k].content|;
    |FileOn(g.disk, name)| <= n && forall m :: 0 <= m < k && g.jobs[m].name == name ==> |g.jobs[m].content| <= n
  }

  /** When deliver has left, each file of the list that no later one replaces is in the
      server's directory: it begins with the source, and it is the source exactly when
      nothing of its name was longer. */
  lemma EveryFileCopied(g: Plan, c: System, k: nat)
    requires PlanOk(g) && Reachable(g, c) && c.sender.phase.Finished?
    requires k < |g.jobs| && LastOfName(g.jobs, k)
    ensures g.jobs[k].name in c.receiver.disk
    ensures g.jobs[k].content <= c.receiver.disk[g.jobs[k].name]
    ensures c.receiver.disk[g.jobs[k].name] == g.jobs[k].content <==> NothingLonger(g, k)
  {
    hide CopyAll, CopyPart, Reachable;
    var j, before := g.jobs[k], CopyAll(g.disk, g.jobs[..k]);
    AllCopied(g, c);
    LeavesOnlyWithoutEmpty(g, c);
    assert g.jobs[..|g.jobs|] == g.jobs;
    CopyAllNext(g.disk, g.jobs, k);
    CopyExactly(before, j);
    LaterFilesKeep(g.disk, g.jobs, k + 1, |g.jobs|, j.name);
    LengthAfter(g.disk, g.jobs, k, j.name, |j.content|);
  }

  /** Files of other names are as they were, and there are no new ones. */
  lemma OtherFilesKept(g: Plan, c: System, name: string)
    requires PlanOk(g) && Reachable(g, c) && c.sender.phase.Finished?
    requires forall j :: j in g.jobs ==> j.name != name
    ensures name in c.receiver.disk <==> name in g.disk
    ensures name in g.disk ==> c.receiver.disk[name] == g.disk[name]
  {
    hide CopyPart, Reachable;
    AllCopied(g, c);
    LeavesOnlyWithoutEmpty(g, c);
    assert g.jobs[..|g.jobs|] == g.jobs && g.jobs[..0] == [];
    LaterFilesKeep(g.disk, g.jobs, 0, |g.jobs|, name);
  }

  // ----- which plans can get stuck -----

  lemma {:induction false} RunLonger(g: Plan, c: System, steps: seq<Step>, d: System, l: Step)
    requires Run(g, c, steps, d) && Enabled(g, d, l)
    ensures Run(g, c, steps + [l], Apply(g, d, l))
    decreases |steps|
  {
    hide Possible, Apply;
    var more := steps + [l];
    if steps == [] {
      assert more == [l] && more[1..] == [];
    } else {
      assert more[1..] == steps[1..] + [l];
      RunLonger(g, Apply(g, c, steps[0]), steps[1..], d, l);
    }
  }

  lemma ReachableNext(g: Plan, c: System, l: Step)
    requires Reachable(g, c) && Enabled(g, c, l)
    ensures Reachable(g, Apply(g, c, l))
  {
    hide Run, Enabled, Apply;
    var steps :| Run(g, Init(g), steps, c);
    RunLonger(g, Init(g), steps, c, l);
  }

  lemma ReachableInit(g: Plan)
    ensures Reachable(g, Init(g))
  {
    assert Run(g, Init(g), [], Init(g));
  }

  /** A fragment is sent and reaches the server, which drops it or answers it. */
  lemma Sent(g: Plan, c: System, roll: nat) returns (d: System)
    requires PlanOk(g) && Reachable(g, c) && c.sender.phase.Sending? && 1 <= roll <= 100
    requires SenderOk(c.sender)
    ensures Reachable(g, d) && d.sender == AfterSend(c.sender) && d.data == []
    ensures if Kept(roll) then d.replies != [] else d.replies == []
  {
    hide Reachable, Readable, Look, Inv, DueDatagram;
    ReachableInv(g, c);
    assert Enabled(g, c, Transmit);
    var c1 := Apply(g, c, Transmit);
    ReachableNext(g, c, Transmit);
    ReachableInv(g, c1);
    Alone(g, c1);
    ArriveOfFragment(g, c1, roll);
    d := Apply(g, c1, Arrive(roll));
    ReachableNext(g, c1, Arrive(roll));
  }

  lemma Alone(g: Plan, c: System)
    requires Inv(g, c) && c.data != []
    ensures |c.data| == 1 && c.replies == []
  {
  }

  /** A fragment is sent, accepted and acknowledged. */
  lemma SendOne(g: Plan, c: System, sample: real) returns (d: System)
    requires PlanOk(g) && Reachable(g, c) && c.sender.phase.Sending? && sample >= g.resolution
    requires SenderOk(c.sender)
    ensures Reachable(g, d) && d.sender == AfterReply(AfterSend(c.sender), sample)
  {
    hide Reachable, Readable, Look, Inv, Kept;
    assert Kept(6) by { SixIsKept(); }
    var c2 := Sent(g, c, 6);
    d := Apply(g, c2, Receive(sample));
    ReachableNext(g, c2, Receive(sample));
  }

  lemma SixIsKept()
    ensures Kept(6) && !Kept(1)
  {
  }

  /** With every sample as short as it can be, the interval is the shortest. */
  predicate Shortest(g: Plan, s: Sender, i: nat) {
    i > 0 ==> s.timer == Timer(g.resolution, 0.5 * (g.resolution * PowerOf(0.75, i - 1)),
                               LeastInterval(g.resolution, i))
  }

  lemma StaysShortest(g: Plan, s: Sender)
    requires SenderOk(s) && s.phase.Waiting? && Shortest(g, s, s.phase.i) && g.resolution >= 0.0
    ensures Shortest(g, AfterReply(s, g.resolution), s.phase.i + 1)
  {
    var r := g.resolution;
    if s.phase.i > 0 {
      var p := PowerOf(0.75, s.phase.i - 1);
      assert PowerOf(0.75, s.phase.i) == 0.75 * p;
      assert r * (0.75 * p) == 0.75 * (r * p);
      assert NewEstimate(r, r) == r;
    } else {
      assert PowerOf(0.75, 0) == 1.0;
    }
  }

  /** Fragments go through up to number i. */
  lemma {:induction false} SendUpTo(g: Plan, c: System, i: nat) returns (d: System)
    requires PlanOk(g) && Reachable(g, c) && SenderOk(c.sender) && c.sender.phase == Sending(0)
    requires i <= Total(c.sender.jobs[0])
    ensures Reachable(g, d) && SenderOk(d.sender) && d.sender.jobs == c.sender.jobs
    ensures d.sender.phase == if i < Total(c.sender.jobs[0]) then Sending(i) else AwaitingGoodbye
    ensures Shortest(g, d.sender, i)
  {
    hide Reachable, LeastInterval;
    if i == 0 {
      d := c;
    } else {
      var c1 := SendUpTo(g, c, i - 1);
      d := SendOne(g, c1, g.resolution);
      StaysShortest(g, AfterSend(c1.sender));
    }
  }

  /** The files before number k go through, if none of them is empty. */
  lemma {:induction false} GetTo(g: Plan, k: nat) returns (c: System)
    requires PlanOk(g) && k <= |g.jobs| && NoneEmpty(g.jobs[..k])
    ensures Reachable(g, c) && SenderOk(c.sender) && c.sender.phase == Idle && c.sender.jobs == g.jobs[k..]
  {
    hide Reachable, Shortest, Inv;
    if k == 0 {
      c := Init(g);
      ReachableInit(g);
      ReachableInvSender(g, c);
    } else {
      assert g.jobs[..k][..k - 1] == g.jobs[..k - 1] && g.jobs[k - 1] in g.jobs[..k];
      var c0 := GetTo(g, k - 1);
      ReachableNext(g, c0, Start);
      var c1 := SendUpTo(g, Apply(g, c0, Start), Total(g.jobs[k - 1]));
      c := TakeGoodbye(g, c1);
      assert g.jobs[k - 1..][1..] == g.jobs[k..];
    }
  }

  lemma ReachableInvSender(g: Plan, c: System)
    requires PlanOk(g) && Reachable(g, c)
    ensures SenderOk(c.sender)
  {
    ReachableInv(g, c);
  }

  lemma TakeGoodbye(g: Plan, c: System) returns (d: System)
    requires PlanOk(g) && Reachable(g, c) && SenderOk(c.sender) && c.sender.phase.AwaitingGoodbye?
    requires c.sender.jobs[0].content != ""
    ensures Reachable(g, d) && SenderOk(d.sender) && d.sender.phase == Idle && d.sender.jobs == c.sender.jobs[1..]
  {
    hide Reachable;
    GoodbyeIsNear(g, c);
    var c1 := c;
    if c.replies == [] {
      ReachableNext(g, c, Farewell);
      c1 := Apply(g, c, Farewell);
    }
    ReachableNext(g, c1, Receive(g.resolution));
    d := Apply(g, c1, Receive(g.resolution));
  }

  lemma GoodbyeIsNear(g: Plan, c: System)
    requires PlanOk(g) && Reachable(g, c) && SenderOk(c.sender) && c.sender.phase.AwaitingGoodbye?
    requires c.sender.jobs[0].content != ""
    ensures c.replies != [] || c.receiver.phase.EndOfFile?
  {
    ReachableInv(g, c);
  }

  /** An empty file: deliver sends nothing, and waits for a farewell that never comes. */
  lemma EmptyFileStuck(g: Plan, k: nat) returns (c: System)
    requires PlanOk(g) && k < |g.jobs| && NoneEmpty(g.jobs[..k]) && g.jobs[k].content == ""
    ensures Reachable(g, c) && !c.sender.phase.Finished? && WaitsForever(c) && forall l :: !Enabled(g, c, l)
  {
    hide Reachable;
    var c0 := GetTo(g, k);
    c := Apply(g, c0, Start);
    ReachableNext(g, c0, Start);
    StuckExactly(g, c);
  }

  /** A drop of the last fragment while the interval is under one microsecond. */
  lemma TimerOffStuck(g: Plan, k: nat) returns (c: System)
    requires PlanOk(g) && k < |g.jobs| && NoneEmpty(g.jobs[..k]) && Total(g.jobs[k]) >= 2
    requires LeastInterval(g.resolution, Total(g.jobs[k]) - 1) < 0.000001
    ensures Reachable(g, c) && !c.sender.phase.Finished? && WaitsForever(c) && forall l :: !Enabled(g, c, l)
  {
    hide Reachable, Kept, PowerOf;
    var c0 := GetTo(g, k);
    ReachableNext(g, c0, Start);
    var c1 := SendUpTo(g, Apply(g, c0, Start), Total(g.jobs[k]) - 1);
    SixIsKept();
    c := Sent(g, c1, 1);
    PowerShrinks(0.75, 0, Total(g.jobs[k]) - 2);
    assert c.sender.timer.interval >= 0.0;
    StuckExactly(g, c);
  }

  /** What a plan needs to be able to get stuck: an empty file, or one of several fragments
      and a clock so fine that the interval can fall under one microsecond within it. */
  predicate MayStick(g: Plan, j: Job) {
    j.content == "" || (Total(j) >= 2 && LeastInterval(g.resolution, Total(j) - 1) < 0.000001)
  }

  ghost predicate CanStick(g: Plan) {
    exists c :: Reachable(g, c) && !c.sender.phase.Finished? && forall l :: !Enabled(g, c, l)
  }

  /** A plan can get stuck if and only if one of its files may. */
  lemma StickExactly(g: Plan)
    requires PlanOk(g)
    ensures CanStick(g) <==> exists j :: j in g.jobs && MayStick(g, j)
  {
    hide Reachable, MayStick;
    if CanStick(g) {
      var c :| Reachable(g, c) && !c.sender.phase.Finished? && forall l :: !Enabled(g, c, l);
      StuckExactly(g, c);
      StuckJob(g, c);
    }
    if j :| j in g.jobs && MayStick(g, j) {
      var n :| 0 <= n < |g.jobs| && g.jobs[n] == j;
      var k := FirstSticky(g, n);
      var c := StickAt(g, k);
    }
  }

  lemma StuckJob(g: Plan, c: System)
    requires PlanOk(g) && Reachable(g, c) && WaitsForever(c)
    ensures c.sender.jobs[0] in g.jobs && MayStick(g, c.sender.jobs[0])
  {
    hide LeastInterval, PhaseInv;
    ReachableInv(g, c);
    CurrentJob(g, c);
    if c.sender.phase.Waiting? {
      var i, n := c.sender.phase.i, Total(c.sender.jobs[0]);
      LeastIntervalShrinks(g.resolution, i, n - 1);
      IntervalAtLeast(g, c.sender);
    }
  }

  lemma IntervalAtLeast(g: Plan, s: Sender)
    requires TimerOk(g, s) && s.phase.Waiting? && s.phase.i > 0
    ensures s.timer.interval >= LeastInterval(g.resolution, s.phase.i)
  {
    hide PowerOf;
  }

  lemma FirstSticky(g: Plan, n: nat) returns (k: nat)
    requires n < |g.jobs| && MayStick(g, g.jobs[n])
    ensures k < |g.jobs| && MayStick(g, g.jobs[k]) && NoneEmpty(g.jobs[..k])
  {
    hide LeastInterval;
    k := 0;
    while !MayStick(g, g.jobs[k])
      invariant k <= n && NoneEmpty(g.jobs[..k])
      decreases n - k
    {
      assert g.jobs[..k + 1] == g.jobs[..k] + [g.jobs[k]];
      k := k + 1;
    }
  }

  lemma StickAt(g: Plan, k: nat) returns (c: System)
    requires PlanOk(g) && k < |g.jobs| && NoneEmpty(g.jobs[..k]) && MayStick(g, g.jobs[k])
    ensures Reachable(g, c) && !c.sender.phase.Finished? && forall l :: !Enabled(g, c, l)
  {
    hide LeastInterval, Reachable, Enabled;
    if g.jobs[k].content == "" {
      c := EmptyFileStuck(g, k);
    } else {
      c := TimerOffStuck(g, k);
    }
  }

  /** An empty file, and a file of 1001 bytes with a clock that reports 0. */
  lemma StuckExamples()
    ensures var g := Plan([Job("f", "")], map[], 1.0); PlanOk(g) && CanStick(g)
    ensures var g := Plan([Job("f", seq(1001, _ => 'x'))], map[], 0.0); PlanOk(g) && CanStick(g)
  {
    hide Reachable, Enabled, CanStick;
    var e, b := Job("f", ""), Job("f", seq(1001, _ => 'x'));
    StickExactly(Plan([e], map[], 1.0));
    assert e in Plan([e], map[], 1.0).jobs && MayStick(Plan([e], map[], 1.0), e);
    StickExactly(Plan([b], map[], 0.0));
    assert Total(b) == 2;
    assert b in Plan([b], map[], 0.0).jobs && MayStick(Plan([b], map[], 0.0), b);
  }

  // ----- why the timeout has to be timely -----

  /** One step, with no demand that a timeout be timely. */
  predicate Leads(g: Plan, c: System, l: Step, d: System) { Possible(g, c, l) && d == Apply(g, c, l) }

  /** While the acknowledgement is on its way, the server waits for the next fragment. */
  lemma AheadByOne(g: Plan, c: System)
    requires PlanOk(g) && Reachable(g, c) && c.sender.phase.Waiting? && c.replies != []
    ensures SenderOk(c.sender) && c.sender.jobs != [] && |c.sender.jobs| <= |g.jobs| && c.data == []
    ensures Deliverable(c.sender.jobs[0])
    ensures c.sender.phase.i + 1 < Total(c.sender.jobs[0]) ==>
              Ready(c.receiver, CopyAll(g.disk, g.jobs[..Done(g, c)]), c.sender.jobs[0], c.sender.phase.i + 1)
  {
    hide Ready, TimerOk;
    ReachableInv(g, c);
    CurrentJob(g, c);
  }

  /** The server takes a copy of fragment i for fragment i + 1. */
  lemma TakenAgain(r: Receiver, base: map<string, string>, j: Job, i: nat, roll: nat)
    requires Deliverable(j) && i + 1 < Total(j) && Ready(r, base, j, i + 1) && Kept(roll)
    ensures var x := Look(Encode(FragmentPacket(j.name, j.content, i)));
            Readable(r, x)
            && var r' := OnDatagram(r, x, roll).0;
               r'.disk == base[j.name := Over(FileOn(base, j.name), Prefix(j.content, i + 1) + Fragment(j.content, i))]
               && r'.phase == if i + 2 < Total(j) then Inner(i + 2) else EndOfFile
  {
    hide Look;
    FragmentArrives(j, i);
    FragmentSize(j.content, i + 1);
    WrittenNext(FileOn(base, j.name), Prefix(j.content, i + 1), Fragment(j.content, i));
  }

  lemma AgainIsWrong(content: string, i: nat, tail: string)
    requires i + 1 < TotalFrag(|content|)
    ensures Prefix(content, i + 2) <= Prefix(content, i + 1) + Fragment(content, i) + tail
       <==> Fragment(content, i + 1) <= Fragment(content, i)
  {
    hide Prefix, Fragment;
    FragmentSize(content, i);
    FragmentSize(content, i + 1);
    var a, f, f' := Prefix(content, i + 1), Fragment(content, i), Fragment(content, i + 1);
    var file, x := a + f + tail, f[..|f'|];
    assert file[..|a + f'|] == a + x;
    assert (a + x)[|a|..] == x && (a + f')[|a|..] == f';
  }

  /** For every plan and every reachable state: a timeout that fires while the
      acknowledgement of fragment i, which is not the last one, is on its way makes the
      server take the retransmission for fragment i + 1. The file then holds fragment i
      twice, and is right so far if and only if fragment i begins with fragment i + 1. */
  lemma UntimelyTimeout(g: Plan, c: System, roll: nat) returns (c1: System, c2: System, c3: System)
    requires PlanOk(g) && Reachable(g, c) && c.sender.phase.Waiting? && c.replies != [] && CanTimeOut(c.sender)
    requires c.sender.jobs != [] && c.sender.phase.i + 1 < Total(c.sender.jobs[0])
    requires |c.sender.jobs| <= |g.jobs| && 5 < roll <= 100
    ensures !Timely(c) && Leads(g, c, TimeOut, c1) && Leads(g, c1, Transmit, c2) && Leads(g, c2, Arrive(roll), c3)
    ensures var base, j, i := CopyAll(g.disk, g.jobs[..Done(g, c)]), c.sender.jobs[0], c.sender.phase.i;
            var file := Over(FileOn(base, j.name), Prefix(j.content, i + 1) + Fragment(j.content, i));
            c3.receiver.disk == base[j.name := file]
            && c3.receiver.phase == (if i + 2 < Total(j) then Inner(i + 2) else EndOfFile)
            && (Prefix(j.content, i + 2) <= file <==> Fragment(j.content, i + 1) <= Fragment(j.content, i))
  {
    hide Reachable, Look, Readable, CopyAll, Ready;
    AheadByOne(g, c);
    var base, j, i := CopyAll(g.disk, g.jobs[..Done(g, c)]), c.sender.jobs[0], c.sender.phase.i;
    TakenAgain(c.receiver, base, j, i, roll);
    var was, bytes := FileOn(base, j.name), Prefix(j.content, i + 1) + Fragment(j.content, i);
    AgainIsWrong(j.content, i, was[Min(|bytes|, |was|)..]);
    c1, c2, c3 := SentAgain(g, c, roll);
  }

  lemma SentAgain(g: Plan, c: System, roll: nat) returns (c1: System, c2: System, c3: System)
    requires SenderOk(c.sender) && CanTimeOut(c.sender) && c.data == [] && 1 <= roll <= 100
    requires Readable(c.receiver, Look(DueDatagram(AfterTimeout(c.sender))))
    ensures Leads(g, c, TimeOut, c1) && Leads(g, c1, Transmit, c2) && Leads(g, c2, Arrive(roll), c3)
    ensures c3.receiver == OnDatagram(c.receiver, Look(DueDatagram(AfterTimeout(c.sender))), roll).0
  {
    hide Look, Readable, OnDatagram, DueDatagram;
    c1 := Apply(g, c, TimeOut);
    c2 := Apply(g, c1, Transmit);
    assert c2.data == [Transmission(c.sends + 1, DueDatagram(AfterTimeout(c.sender)))];
    c3 := Apply(g, c2, Arrive(roll));
  }

  /** For instance, with one file of two fragments and an empty directory the first
      fragment ends up in the file twice, and the file is the source only if the two are
      equal. */
  lemma UntimelyTimeoutDuplicates(g: Plan, j: Job) returns (c: System, d: System)
    requires PlanOk(g) && g.jobs == [j] && Total(j) == 2 && g.disk == map[]
    ensures Reachable(g, c) && !Timely(c) && c.sender.phase == Waiting(0)
    ensures exists c1, c2 :: Leads(g, c, TimeOut, c1) && Leads(g, c1, Transmit, c2) && Leads(g, c2, Arrive(6), d)
    ensures d.receiver.phase == EndOfFile
    ensures d.receiver.disk == map[j.name := Fragment(j.content, 0) + Fragment(j.content, 0)]
    ensures d.receiver.disk[j.name] == j.content <==> Fragment(j.content, 0) == Fragment(j.content, 1)
  {
    hide Reachable, Leads, Fragment, Prefix;
    ReachableInit(g);
    ReachableNext(g, Init(g), Start);
    SixIsKept();
    c := Sent(g, Apply(g, Init(g), Start), 6);
    var c1, c2;
    assert g.jobs[..0] == [];
    c1, c2, d := UntimelyTimeout(g, c, 6);
    TwoFragments(j.content);
    FirstPrefix(j.content);
    var f := Fragment(j.content, 0);
    assert Over("", f + f) == f + f;
  }

  lemma FirstPrefix(content: string)
    requires TotalFrag(|content|) > 0
    ensures Prefix(content, 1) == Fragment(content, 0)
  {
  }

  lemma TwoFragments(content: string)
    requires TotalFrag(|content|) == 2
    ensures content == Fragment(content, 0) + Fragment(content, 1)
    ensures Fragment(content, 0) + Fragment(content, 0) == content
       <==> Fragment(content, 0) == Fragment(content, 1)
  {
    var a, b := Fragment(content, 0), Fragment(content, 1);
    if a + a == a + b {
      assert (a + a)[|a|..] == (a + b)[|a|..];
    }
  }
}
