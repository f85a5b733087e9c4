/** The launch handshake between the launcher and its forked child: a setup pipe that
    carries fixed-size records to the launcher, and a gate pipe whose single byte lets
    the child execute the command. */
module Handshake {
  import opened Options

  const RECORD_SIZE := 12

  datatype Record = Ready | SetupFailed

  /** Stages of `_child`; `Exited` covers every failure and every kill. */
  datatype Child = Forked | InSession | InCgroup | DescriptorsClosed | Dropped | Awaiting | Released | Executed | Exited

  /** Stages of `setup` inside the supervision loop; after `Left` the run is being killed. */
  datatype Parent = Polling | Decoding(record: Record) | Admitted | Cleared | Left

  /** What happened, in order. */
  datatype Mark =
    | TookSession | DroppedPrivileges | SentReady | CheckedLeader | ClearedAt(time: nat) | WroteGate | ReadGate
    | RanCommand

  /** `unread` holds the records still in the setup pipe, of whose oldest the launcher
      has already buffered `got` bytes. */
  datatype State = State(now: nat, deadline: Option<nat>, child: Child, parent: Parent, unread: seq<Record>, got: nat,
                         ready: bool, expired: bool, gateOpen: bool, gateBytes: nat, log: seq<Mark>)

  datatype Step =
    | Tick(elapsed: nat)
    | TakeSession | EnterCgroup | CloseDescriptors | DropPrivileges | SendReady | ReadGateByte | Execute
    | ChildFails(reported: bool)
    | ChildKilled
    | ReadSetup(count: nat)
    | CheckStat
    | CheckDeadline
    | WriteGateByte(succeeds: bool)
    | Leave
    | CloseGate

  predicate BeforeExec(c: Child) { c != Executed && c != Exited }

  /** The child still runs in the session and group it created, as `_proc_stat` and the
      pidfd report. */
  predicate LeaderChecks(s: State) {
    s.child != Forked && s.child != Exited
  }

  predicate Advance(s: State, from: Child, to: Child, t: State, marks: seq<Mark>) {
    s.child == from && t == s.(child := to, log := s.log + marks)
  }

  predicate ChildNext(s: State, step: Step, t: State) {
    match step
    case TakeSession => Advance(s, Forked, InSession, t, [TookSession])
    case EnterCgroup => Advance(s, InSession, InCgroup, t, [])
    case CloseDescriptors => Advance(s, InCgroup, DescriptorsClosed, t, [])
    case DropPrivileges => Advance(s, DescriptorsClosed, Dropped, t, [DroppedPrivileges])
    case SendReady =>
      && s.child == Dropped
      && t == s.(child := Awaiting, unread := s.unread + [Ready], log := s.log + [SentReady])
    case ReadGateByte =>
      // Blocks while the gate is open and empty; a closed empty gate ends the child.
      && s.child == Awaiting
      && (if s.gateBytes > 0 then t == s.(child := Released, gateBytes := s.gateBytes - 1, log := s.log + [ReadGate])
          else !s.gateOpen && t == s.(child := Exited, unread := s.unread + [SetupFailed]))
    case Execute => Advance(s, Released, Executed, t, [RanCommand])
    case ChildFails(reported) =>
      && BeforeExec(s.child)
      && t == s.(child := Exited, unread := if reported then s.unread + [SetupFailed] else s.unread)
    case ChildKilled => t == s.(child := Exited)
    case _ => false
  }

  predicate ParentNext(s: State, step: Step, t: State) {
    match step
    case ReadSetup(count) =>
      && s.parent == Polling && s.unread != [] && 1 <= count && s.got + count <= RECORD_SIZE
      && (if s.got + count < RECORD_SIZE then t == s.(got := s.got + count)
          else t == s.(got := 0, unread := s.unread[1..], parent := Decoding(s.unread[0])))
    case CheckStat =>
      && s.parent.Decoding?
      && (if s.parent.record == Ready && !s.ready && LeaderChecks(s)
          then t == s.(parent := Admitted, log := s.log + [CheckedLeader])
          else t == s.(parent := Left))
    case CheckDeadline =>
      && s.parent == Admitted
      && (if s.deadline.Some? && s.now >= s.deadline.value then t == s.(parent := Left, expired := true)
          else t == s.(parent := Cleared, log := s.log + [ClearedAt(s.now)]))
    case WriteGateByte(succeeds) =>
      && s.parent == Cleared && s.gateOpen
      && (if succeeds
          then t == s.(parent := Polling, ready := true, gateOpen := false, gateBytes := s.gateBytes + 1,
                       log := s.log + [WroteGate])
          else t == s.(parent := Left))
    case Leave => s.parent == Polling && t == s.(parent := Left)
    case CloseGate => s.parent == Left && t == s.(gateOpen := false)
    case _ => false
  }

  /** Time passes, or one of the two takes a step. */
  predicate Next(s: State, step: Step, t: State) {
    (step.Tick? && t == s.(now := s.now + step.elapsed)) || ChildNext(s, step, t) || ParentNext(s, step, t)
  }

  predicate Init(s: State) {
    && s.child == Forked && s.parent == Polling && s.unread == [] && s.got == 0
    && !s.ready && !s.expired && s.gateOpen && s.gateBytes == 0 && s.log == []
  }

  /** The only order in which the handshake can reach the command. */
  function Protocol(time: nat): seq<Mark> {
    [TookSession, DroppedPrivileges, SentReady, CheckedLeader, ClearedAt(time), WroteGate, ReadGate, RanCommand]
  }

  predicate Fits(i: nat, m: Mark) {
    match m
    case TookSession => i == 0
    case DroppedPrivileges => i == 1
    case SentReady => i == 2
    case CheckedLeader => i == 3
    case ClearedAt(_) => i == 4
    case WroteGate => i == 5
    case ReadGate => i == 6
    case RanCommand => i == 7
  }

  predicate InTime(s: State, time: nat) {
    s.deadline.Some? ==> time < s.deadline.value
  }

  /** How far along the protocol each child stage can be. */
  predicate ChildProgress(c: Child, n: nat) {
    match c
    case Forked => n == 0
    case InSession | InCgroup | DescriptorsClosed => n == 1
    case Dropped => n == 2
    case Awaiting => 3 <= n <= 6
    case Released => n == 7
    case Executed => n == 8
    case Exited => n <= 8
  }

  predicate ParentProgress(s: State, n: nat) {
    match s.parent
    case Polling => if s.ready then n >= 6 else n <= 3
    case Decoding(record) => !s.ready && record == Ready ==> n == 3
    case Admitted => n == 4 && !s.ready
    case Cleared => n == 5 && !s.ready
    case Left => true
  }

  predicate LogOk(s: State) {
    && |s.log| <= 8 && (forall i | 0 <= i < |s.log| :: Fits(i, s.log[i]))
    && (|s.log| > 4 ==> s.log[4].ClearedAt? && InTime(s, s.log[4].time))
  }

  predicate GateOk(s: State) {
    && (s.ready <==> |s.log| >= 6)
    && s.gateBytes == (if |s.log| == 6 then 1 else 0)
    && (s.ready ==> !s.gateOpen)
  }

  predicate PipeOk(s: State) {
    && (Ready in s.unread ==>
          |s.log| == 3 && (s.parent == Polling || s.parent == Left || s.parent == Decoding(SetupFailed)))
    && (forall j | 1 <= j < |s.unread| :: s.unread[j] != Ready)
    && (s.child != Exited && |s.log| < 3 ==> s.unread == [])
  }

  predicate Inv(s: State) {
    LogOk(s) && ChildProgress(s.child, |s.log|) && ParentProgress(s, |s.log|) && GateOk(s) && PipeOk(s)
  }

  ghost predicate LogExtends(s: State, t: State) {
    && t.deadline == s.deadline
    && (t.log == s.log
        || exists m :: t.log == s.log + [m] && Fits(|s.log|, m) && (m.ClearedAt? ==> InTime(s, m.time)))
  }

  lemma {:induction false} Appended(s: State, t: State, m: Mark)
    requires t.deadline == s.deadline && t.log == s.log + [m] && Fits(|s.log|, m)
    requires m.ClearedAt? ==> InTime(s, m.time)
    ensures LogExtends(s, t)
  {
  }

  lemma {:induction false} ChildExtendsLog(s: State, step: Step, t: State)
    requires Inv(s) && ChildNext(s, step, t)
    ensures LogExtends(s, t)
  {
    if t.log != s.log { Appended(s, t, t.log[|s.log|]); }
  }

  lemma {:induction false} ParentExtendsLog(s: State, step: Step, t: State)
    requires Inv(s) && ParentNext(s, step, t)
    ensures LogExtends(s, t)
  {
    if t.log != s.log { Appended(s, t, t.log[|s.log|]); }
  }

  lemma {:induction false} ExtendedLogOk(s: State, t: State)
    requires LogOk(s) && LogExtends(s, t)
    ensures LogOk(t)
  {
  }

  lemma {:induction false} ChildKeepsProgress(s: State, step: Step, t: State)
    requires Inv(s) && ChildNext(s, step, t)
    ensures ChildProgress(t.child, |t.log|) && ParentProgress(t, |t.log|)
  {
  }

  lemma {:induction false} ParentKeepsProgress(s: State, step: Step, t: State)
    requires Inv(s) && ParentNext(s, step, t)
    ensures ChildProgress(t.child, |t.log|) && ParentProgress(t, |t.log|)
  {
  }

  lemma {:induction false} ChildKeepsPipes(s: State, step: Step, t: State)
    requires Inv(s) && ChildNext(s, step, t)
    ensures GateOk(t) && PipeOk(t)
  {
  }

  lemma {:induction false} ParentKeepsPipes(s: State, step: Step, t: State)
    requires Inv(s) && ParentNext(s, step, t)
    ensures GateOk(t) && PipeOk(t)
  {
  }

  lemma {:induction false} StepKeeps(s: State, step: Step, t: State)
    requires Inv(s) && Next(s, step, t)
    ensures Inv(t)
  {
    if ChildNext(s, step, t) {
      ChildExtendsLog(s, step, t);
      ExtendedLogOk(s, t);
      ChildKeepsProgress(s, step, t);
      ChildKeepsPipes(s, step, t);
    } else if ParentNext(s, step, t) {
      ParentExtendsLog(s, step, t);
      ExtendedLogOk(s, t);
      ParentKeepsProgress(s, step, t);
      ParentKeepsPipes(s, step, t);
    }
  }

  ghost predicate StepAt(states: seq<State>, steps: seq<Step>, i: nat) {
    i < |steps| && i + 1 < |states| && Next(states[i], steps[i], states[i + 1])
  }

  ghost predicate IsRun(states: seq<State>, steps: seq<Step>) {
    |states| == |steps| + 1 && Init(states[0]) && forall i | 0 <= i < |steps| :: StepAt(states, steps, i)
  }

  lemma {:induction false} StartKeeps(s: State)
    requires Init(s)
    ensures Inv(s)
  {
  }

  lemma {:induction false} StepAtKeeps(states: seq<State>, steps: seq<Step>, n: nat)
    requires n > 0 && StepAt(states, steps, n - 1) && Inv(states[n - 1])
    ensures Inv(states[n])
  {
    StepKeeps(states[n - 1], steps[n - 1], states[n]);
  }

  lemma {:induction false} RunKeeps(states: seq<State>, steps: seq<Step>, n: nat)
    requires IsRun(states, steps) && n < |states|
    ensures Inv(states[n])
  {
    if n == 0 {
      StartKeeps(states[0]);
    } else {
      RunKeeps(states, steps, n - 1);
      assert StepAt(states, steps, n - 1);
      StepAtKeeps(states, steps, n);
    }
  }

  /** In every run that executed the command, all that happened before was, in this order:
      the child took its session, dropped privileges and sent READY; the launcher checked
      session, group and generation, found the deadline not reached and wrote the one gate
      byte; the child read it. */
  lemma {:induction false} CommandRunsOnlyThroughTheGate(states: seq<State>, steps: seq<Step>, n: nat)
    requires IsRun(states, steps) && n < |states|
    requires RanCommand in states[n].log
    ensures exists time :: states[n].log == Protocol(time) && InTime(states[n], time)
  {
    RunKeeps(states, steps, n);
    var log := states[n].log;
    assert |log| == 8 by {
      var i :| 0 <= i < |log| && log[i] == RanCommand;
      assert Fits(i, log[i]);
    }
    assert Fits(0, log[0]) && Fits(1, log[1]) && Fits(2, log[2]) && Fits(3, log[3]);
    assert Fits(5, log[5]) && Fits(6, log[6]) && Fits(7, log[7]);
    assert log == Protocol(log[4].time);
  }

  /** The gate byte is written at most once in any run, and only after READY was sent and
      the leader was checked. */
  lemma {:induction false} GateByteAtMostOnce(states: seq<State>, steps: seq<Step>, n: nat, i: nat, j: nat)
    requires IsRun(states, steps) && n < |states|
    requires i < |states[n].log| && j < |states[n].log|
    requires states[n].log[i] == states[n].log[j] == WroteGate
    ensures i == j
    ensures exists time :: states[n].log[..i] == Protocol(time)[..5]
  {
    RunKeeps(states, steps, n);
    var log := states[n].log;
    assert Fits(i, log[i]) && Fits(j, log[j]);
    assert Fits(0, log[0]) && Fits(1, log[1]) && Fits(2, log[2]) && Fits(3, log[3]);
    assert log[..i] == Protocol(log[4].time)[..5];
  }

  ghost predicate ShutOut(s: State) {
    !s.gateOpen && WroteGate !in s.log && RanCommand !in s.log
  }

  lemma {:induction false} StaysShut(s: State, step: Step, t: State)
    requires Inv(s) && ShutOut(s) && Next(s, step, t)
    ensures ShutOut(t)
  {
    assert |s.log| >= 6 ==> Fits(5, s.log[5]);
    if ChildNext(s, step, t) { assert step != Execute; }
  }

  /** Once the gate is closed without its byte, no continuation of the run executes. */
  lemma {:induction false} ClosedGateNeverExecutes(states: seq<State>, steps: seq<Step>, n: nat, m: nat)
    requires IsRun(states, steps) && n <= m < |states|
    requires ShutOut(states[n])
    ensures ShutOut(states[m])
    decreases m
  {
    if m > n {
      ClosedGateNeverExecutes(states, steps, n, m - 1);
      RunKeeps(states, steps, m - 1);
      assert StepAt(states, steps, m - 1);
      StaysShut(states[m - 1], steps[m - 1], states[m]);
    }
  }

  // ----- what the marks stand for

  /** The step that leaves the mark, and what was so when it was taken: the launcher checks a child
      that has its session and has not exited, and goes on only before the deadline. */
  predicate Causes(s: State, step: Step, m: Mark) {
    match m
    case TookSession => step == TakeSession && s.child == Forked
    case DroppedPrivileges => step == DropPrivileges && s.child == DescriptorsClosed
    case SentReady => step == SendReady && s.child == Dropped
    case CheckedLeader =>
      step == CheckStat && s.parent == Decoding(Ready) && s.child != Forked && s.child != Exited && !s.ready
    case ClearedAt(time) =>
      && step == CheckDeadline && s.parent == Admitted && time == s.now
      && (s.deadline.Some? ==> s.now < s.deadline.value)
    case WroteGate => step == WriteGateByte(true) && s.parent == Cleared && s.gateOpen
    case ReadGate => step == ReadGateByte && s.child == Awaiting && s.gateBytes > 0
    case RanCommand => step == Execute && s.child == Released
  }

  /** Mark `k` of the log was left by step `i`. */
  ghost predicate LeftAt(states: seq<State>, steps: seq<Step>, i: nat, log: seq<Mark>, k: nat) {
    && i < |steps| && i + 1 < |states| && k < |log|
    && states[i].log == log[..k] && states[i + 1].log == log[..k + 1] && Causes(states[i], steps[i], log[k])
  }

  lemma {:induction false} StepLeaves(s: State, step: Step, t: State)
    requires Next(s, step, t)
    ensures t.log == s.log || (|t.log| == |s.log| + 1 && s.log <= t.log && Causes(s, step, t.log[|s.log|]))
    ensures (exists m :: Causes(s, step, m)) ==> t.log != s.log
  {
    if ChildNext(s, step, t) { ChildLeaves(s, step, t); } else if ParentNext(s, step, t) { ParentLeaves(s, step, t); }
  }

  lemma {:induction false} ChildLeaves(s: State, step: Step, t: State)
    requires ChildNext(s, step, t)
    ensures t.log == s.log || (|t.log| == |s.log| + 1 && s.log <= t.log && Causes(s, step, t.log[|s.log|]))
    ensures (exists m :: Causes(s, step, m)) ==> |t.log| == |s.log| + 1
  {
  }

  lemma {:induction false} ParentLeaves(s: State, step: Step, t: State)
    requires ParentNext(s, step, t)
    ensures t.log == s.log || (|t.log| == |s.log| + 1 && s.log <= t.log && Causes(s, step, t.log[|s.log|]))
    ensures (exists m :: Causes(s, step, m)) ==> |t.log| == |s.log| + 1
  {
  }

  /** Every mark in the log of a run stands for a step that was taken when it was due, in this order. */
  lemma {:induction false} MarksAreFacts(states: seq<State>, steps: seq<Step>, n: nat, k: nat)
    requires IsRun(states, steps) && n < |states| && k < |states[n].log|
    ensures exists i :: 0 <= i < n && LeftAt(states, steps, i, states[n].log, k)
  {
    if n > 0 {
      assert StepAt(states, steps, n - 1);
      StepLeaves(states[n - 1], steps[n - 1], states[n]);
      var before, log := states[n - 1].log, states[n].log;
      if k < |before| {
        MarksAreFacts(states, steps, n - 1, k);
        var i :| 0 <= i < n - 1 && LeftAt(states, steps, i, before, k);
        assert log[..k] == before[..k] && log[..k + 1] == before[..k + 1];
        assert LeftAt(states, steps, i, log, k);
      } else {
        assert log[..k] == before && log[..k + 1] == log;
        assert LeftAt(states, steps, n - 1, log, k);
      }
    }
  }

  /** The launcher looked at the clock after the check and found the deadline reached. */
  ghost predicate FoundLate(states: seq<State>, steps: seq<Step>, i: nat) {
    && i < |steps| && i < |states| && steps[i] == CheckDeadline
    && states[i].deadline.Some? && states[i].now >= states[i].deadline.value
  }

  ghost predicate TooLate(s: State) {
    s.expired ==> s.parent == Left && |s.log| <= 4
  }

  lemma {:induction false} StepKeepsLate(s: State, step: Step, t: State)
    requires Inv(s) && TooLate(s) && Next(s, step, t)
    ensures TooLate(t)
    ensures t.expired <==> s.expired || (step == CheckDeadline && s.deadline.Some? && s.now >= s.deadline.value)
  {
  }

  lemma {:induction false} RunIsLate(states: seq<State>, steps: seq<Step>, n: nat)
    requires IsRun(states, steps) && n < |states|
    ensures TooLate(states[n])
    ensures states[n].expired <==> exists i :: 0 <= i < n && FoundLate(states, steps, i)
  {
    if n > 0 {
      RunIsLate(states, steps, n - 1);
      RunKeeps(states, steps, n - 1);
      assert StepAt(states, steps, n - 1);
      StepKeepsLate(states[n - 1], steps[n - 1], states[n]);
      assert states[n].expired && !states[n - 1].expired ==> FoundLate(states, steps, n - 1);
    }
  }

  /** A run is expired exactly when the deadline had been reached at the check before the gate, and then
      the gate byte is never written and the command never runs. */
  lemma {:induction false} ExpiredNeverExecutes(states: seq<State>, steps: seq<Step>, n: nat)
    requires IsRun(states, steps) && n < |states|
    ensures states[n].expired <==> exists i :: 0 <= i < n && FoundLate(states, steps, i)
    ensures states[n].expired ==> WroteGate !in states[n].log && RanCommand !in states[n].log
  {
    RunIsLate(states, steps, n);
    RunKeeps(states, steps, n);
    if states[n].expired {
      forall k | 0 <= k < |states[n].log| ensures states[n].log[k] != WroteGate && states[n].log[k] != RanCommand {
        assert Fits(k, states[n].log[k]);
      }
    }
  }
}
