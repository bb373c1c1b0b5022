// What the retransmission timer has measured, in every run of the file transfer.
module TransferTimer {
  import opened Fragments
  import opened RoundTripTime
  import opened FileTransfer
  import opened TransferProof

  // ----- the samples of a run -----

  /** The round trips reported since a file was last started. */
  function SinceStart(steps: seq<Step>): seq<real> {
    if steps == [] then []
    else
      match steps[|steps| - 1]
      case Start => []
      case Receive(sample) => SinceStart(steps[..|steps| - 1]) + [sample]
      case _ => SinceStart(steps[..|steps| - 1])
  }

  /** How many files were started. */
  function Starts(steps: seq<Step>): (n: nat)
    ensures n <= |steps|
  {
    if steps == [] then 0
    else Starts(steps[..|steps| - 1]) + (if steps[|steps| - 1].Start? then 1 else 0)
  }

  /** The samples of the fragments of the file started last; what the farewell took is not
      among them. */
  function Measured(g: Plan, steps: seq<Step>): seq<real> {
    var k, r := Starts(steps), SinceStart(steps);
    if 0 < k <= |g.jobs| then r[..Min(|r|, Total(g.jobs[k - 1]))] else []
  }

  // ----- the proof -----

  lemma {:induction false} LastStep(g: Plan, c: System, steps: seq<Step>, d: System) returns (b: System)
    requires steps != [] && Run(g, c, steps, d)
    ensures var n := |steps| - 1;
            Run(g, c, steps[..n], b) && Enabled(g, b, steps[n]) && d == Apply(g, b, steps[n])
    decreases |steps|
  {
    hide Apply, Possible;
    if |steps| == 1 {
      b := c;
    } else {
      b := LastStep(g, Apply(g, c, steps[0]), steps[1..], d);
      assert steps[1..][..|steps| - 2] == steps[..|steps| - 1][1..];
    }
  }

  /** Where the sender is after k starts and n replies since. */
  predicate Where(g: Plan, s: Sender, k: nat, n: nat) {
    |s.jobs| <= |g.jobs| &&
    match s.phase
    case Sending(i) => k == |g.jobs| - |s.jobs| + 1 && n == i && s.jobs != [] && i < Total(s.jobs[0])
    case Waiting(i) => k == |g.jobs| - |s.jobs| + 1 && n == i && s.jobs != [] && i < Total(s.jobs[0])
    case AwaitingGoodbye => k == |g.jobs| - |s.jobs| + 1 && s.jobs != [] && n == Total(s.jobs[0])
    case _ => k == |g.jobs| - |s.jobs| && (k > 0 ==> n > Total(g.jobs[k - 1]))
  }

  lemma ReplyTaken(g: Plan, s: Sender, k: nat, samples: seq<real>, sample: real)
    requires SenderOk(s) && Where(g, s, k, |samples|) && (s.phase.Waiting? || s.phase.AwaitingGoodbye?)
    requires s.jobs[0] == g.jobs[|g.jobs| - |s.jobs|]
    requires Took(s.timer, samples[..Min(|samples|, Total(g.jobs[k - 1]))])
    ensures var s', all := AfterReply(s, sample), samples + [sample];
            Where(g, s', k, |all|) && Took(s'.timer, all[..Min(|all|, Total(g.jobs[k - 1]))])
  {
    hide Took, FirstSample, NextSample, TotalFrag;
    var n, total := |samples|, Total(g.jobs[k - 1]);
    if s.phase.Waiting? {
      assert samples[..n] == samples;
      TookOneMore(s.timer, samples, sample);
      assert (samples + [sample])[..n + 1] == samples + [sample];
    } else {
      assert (samples + [sample])[..total] == samples[..total];
    }
  }

  lemma SenderAfter(g: Plan, c: System, l: Step)
    requires Enabled(g, c, l)
    ensures Apply(g, c, l).sender
         == match l
            case Start => StartFile(c.sender)
            case Transmit => AfterSend(c.sender)
            case Receive(sample) => AfterReply(c.sender, sample)
            case TimeOut => AfterTimeout(c.sender)
            case Shutdown => Leave(c.sender)
            case _ => c.sender
  {
    hide OnDatagram, Look, DueDatagram;
  }

  lemma HeadOfPlan(g: Plan, c: System)
    requires Inv(g, c)
    ensures |c.sender.jobs| <= |g.jobs|
    ensures c.sender.jobs != [] ==> c.sender.jobs[0] == g.jobs[|g.jobs| - |c.sender.jobs|]
  {
    hide PhaseInv, TimerOk, NoneEmpty;
  }

  /** The sender and its timer after one more step. */
  lemma Stepped(g: Plan, c: System, before: seq<Step>, l: Step)
    requires PlanOk(g) && Inv(g, c) && Enabled(g, c, l)
    requires Where(g, c.sender, Starts(before), |SinceStart(before)|) && Took(c.sender.timer, Measured(g, before))
    ensures var steps, s := before + [l], Apply(g, c, l).sender;
            Where(g, s, Starts(steps), |SinceStart(steps)|) && Took(s.timer, Measured(g, steps))
  {
    hide Inv, Apply, TotalFrag, Took, FirstSample, NextSample;
    HeadOfPlan(g, c);
    SenderAfter(g, c, l);
    assert (before + [l])[..|before|] == before;
    match l
    case Receive(sample) => ReplyTaken(g, c.sender, Starts(before), SinceStart(before), sample);
    case Start => assert Took(Timer(0.0, 0.0, c.sender.timer.interval), []) by { TookNothing(c.sender.timer.interval); }
    case _ =>
  }

  lemma {:induction false} RunMeasures(g: Plan, steps: seq<Step>, d: System)
    requires PlanOk(g) && Run(g, Init(g), steps, d)
    ensures Inv(g, d)
    ensures Where(g, d.sender, Starts(steps), |SinceStart(steps)|) && Took(d.sender.timer, Measured(g, steps))
    decreases |steps|
  {
    hide Inv, Apply, Enabled, Where, Measured, Run, Starts, SinceStart, Took;
    if steps == [] {
      InitInv(g);
      NothingMeasured(g);
      NoStep(g, Init(g), d);
    } else {
      var n := |steps| - 1;
      var b := LastStep(g, Init(g), steps, d);
      RunMeasures(g, steps[..n], b);
      Stepped(g, b, steps[..n], steps[n]);
      assert steps[..n] + [steps[n]] == steps;
      StepKeeps(g, b, steps[n]);
    }
  }

  lemma NoStep(g: Plan, c: System, d: System)
    requires Run(g, c, [], d)
    ensures d == c
  {
  }

  lemma NothingMeasured(g: Plan)
    ensures Where(g, Init(g).sender, Starts([]), |SinceStart([])|) && Took(Init(g).sender.timer, Measured(g, []))
  {
  }

  /** In every run, the wait for fragment i comes after exactly i measured samples of the
      file, and the timer is what section 2 of RFC 6298 makes of these samples, all of
      them and in their order; a file starts without samples of the one before. */
  lemma TimerOfSamples(g: Plan, steps: seq<Step>, d: System)
    requires PlanOk(g) && Run(g, Init(g), steps, d)
    ensures d.sender.phase.Waiting? ==> |Measured(g, steps)| == d.sender.phase.i
    ensures if Measured(g, steps) == [] then d.sender.timer.estimate == d.sender.timer.deviation == 0.0
            else MeasuredBy(d.sender.timer, Measured(g, steps))
  {
    hide Inv, Run, MeasuredBy, TotalFrag;
    RunMeasures(g, steps, d);
    HeadOfPlan(g, d);
    if Measured(g, steps) != [] {
      TookIsMeasured(d.sender.timer, Measured(g, steps));
    }
  }
}
