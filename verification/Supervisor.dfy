/** The launcher's side of a run: it forks one leader, waits, then kills and reaps
    everything the run left behind, while the rest of the machine forks, exits,
    regroups and reuses process numbers between any two of its steps. */
module Supervisor {
  import opened Options
  import opened ProcessTable

  datatype Fault = ChildChanged | KillRefused | MissingStatus

  /** Where the launcher is. The names follow `terminate`, `_kill_adopted` and `reap`. */
  datatype Phase =
    | Idle
    | Launched                        // forked, leader not pinned yet
    | Supervising
    | Terminate                       // waitid on the leader
    | KillGroup
    | KillPinned
    | KillNumber
    | Listing                         // _kill_adopted asks procfs for the next child
    | Proving(pid: nat)               // waitid(WNOWAIT) on a listed number
    | Opening(pid: nat)
    | Signalling(pid: nat, pinned: Gen)
    | KillListed(pid: nat)
    | Waiting                         // waitpid(-1, WNOHANG)
    | Returned
    | Failed(fault: Fault)

  /** `pid`, `pidfd`, `rawStatus` and `killSent` are the fields of `_Run`; a pidfd is
      the generation it pins. `killed` is every generation a SIGKILL was sent to, and
      `truthful` whether procfs has listed real children only. */
  datatype State = State(k: Kernel, phase: Phase, pid: nat, pidfd: Option<Gen>, rawStatus: Option<int>,
                         killSent: bool, killed: set<Gen>, truthful: bool)

  /** How a system call of the launcher turns out. */
  datatype Outcome = Ok | NoSuchProcess | OtherError

  datatype Step =
    | Other(event: Event)             // anyone but the launcher
    | Launch(number: nat)
    | Pin(outcome: Outcome)           // pidfd_open on the leader
    | Stop                            // leave the supervision loop, for any reason
    | CheckLeader
    | SignalGroup(outcome: Outcome)
    | SignalPinned(outcome: Outcome)
    | SignalNumber(outcome: Outcome)
    | List(listed: nat)
    | EndOfList
    | Prove
    | Open(outcome: Outcome)
    | SignalListed(outcome: Outcome)
    | KillByNumber(outcome: Outcome)
    | Reap(child: Gen)
    | NothingToReap
    | NoChildren

  ghost predicate IsChildNumber(k: Kernel, pid: nat) {
    exists g :: g in k.table && k.table[g].parent == k.self && k.table[g].pid == pid
  }

  function GroupMembers(k: Kernel, pgid: nat): set<Gen> {
    set g | g in k.table && k.table[g].pgid == pgid
  }

  function Holders(k: Kernel, pid: nat): set<Gen> {
    set g | g in k.table && k.table[g].pid == pid
  }

  function Sent(s: State, targets: set<Gen>): State {
    s.(killed := s.killed + targets, killSent := true)
  }

  /** Steps that change the process table: others' and the launcher's own fork and reaping. */
  ghost predicate TableNext(s: State, step: Step, t: State) {
    match step
    case Other(e) => Enabled(s.k, e) && t == s.(k := Apply(s.k, e))
    case Launch(number) =>
      && s.phase == Idle && s.k.self in s.k.table && FreeId(s.k, number)
      && t == s.(phase := Launched, pid := number, k := ProcessTable.Launched(s.k, number))
    case Reap(g) =>
      && s.phase == Waiting
      && g in s.k.table && s.k.table[g].parent == s.k.self && s.k.table[g].life.Zombie?
      && t == s.(k := Without(s.k, g),
                 rawStatus := if s.k.table[g].pid == s.pid && s.rawStatus.None?
                              then Some(s.k.table[g].life.status) else s.rawStatus)
    case _ => false
  }

  /** Signals. The targets of a successful `kill`, `killpg` or `pidfd_send_signal` are whoever
      carries the number, group or generation at that very moment. */
  ghost predicate KillNext(s: State, step: Step, t: State) {
    match step
    case SignalGroup(outcome) =>
      && s.phase == KillGroup
      && var targets := GroupMembers(s.k, s.pid);
         var after := if s.pidfd.None? then KillNumber else KillPinned;
         (match outcome
         case Ok => targets != {} && t == Sent(s, targets).(phase := after)
         case NoSuchProcess => targets == {} && t == s.(phase := after)
         case OtherError => t == s.(phase := Listing))
    case SignalPinned(outcome) =>
      && s.phase == KillPinned && s.pidfd.Some?
      && (match outcome
         case Ok => s.pidfd.value in s.k.table && t == Sent(s, {s.pidfd.value}).(phase := Listing)
         case NoSuchProcess => t == s.(phase := Listing)
         case OtherError => t == s.(phase := KillNumber))
    case SignalNumber(outcome) =>
      && s.phase == KillNumber
      && var targets := Holders(s.k, s.pid);
         (match outcome
         case Ok => targets != {} && t == Sent(s, targets).(phase := Listing)
         case NoSuchProcess => targets == {} && t == s.(phase := Listing)
         case OtherError => t == s.(phase := Listing))
    case SignalListed(outcome) =>
      && s.phase.Signalling?
      && (match outcome
         case Ok => s.phase.pinned in s.k.table
                    && t == s.(phase := Listing, killed := s.killed + {s.phase.pinned})
         case NoSuchProcess => t == s.(phase := Listing)
         case OtherError => t == s.(phase := KillListed(s.phase.pid)))
    case KillByNumber(outcome) =>
      && s.phase.KillListed?
      && var targets := Holders(s.k, s.phase.pid);
         (match outcome
          case Ok => targets != {} && t == s.(phase := Listing, killed := s.killed + targets)
          case NoSuchProcess => targets == {} && t == s.(phase := Listing)
          case OtherError => t == s.(phase := Failed(KillRefused)))
    case _ => false
  }

  /** A pid file descriptor pins the process that has the number. */
  ghost predicate PinNext(s: State, step: Step, t: State) {
    match step
    case Pin(outcome) =>
      && s.phase == Launched
      && if outcome == Ok
         then exists g :: Holders(s.k, s.pid) == {g} && t == s.(phase := Supervising, pidfd := Some(g))
         else t == s.(phase := Terminate)
    case Open(outcome) =>
      && s.phase.Opening?
      && (match outcome
         case Ok => exists g :: Holders(s.k, s.phase.pid) == {g} && t == s.(phase := Signalling(s.phase.pid, g))
         case NoSuchProcess => t == s.(phase := Listing)
         case OtherError => t == s.(phase := KillListed(s.phase.pid)))
    case _ => false
  }

  /** Steps that only move the launcher along. */
  ghost predicate MoveNext(s: State, step: Step, t: State) {
    match step
    case Stop => s.phase == Supervising && t == s.(phase := Terminate)
    case CheckLeader =>
      && s.phase == Terminate
      && t == s.(phase := if s.rawStatus.None? && IsChildNumber(s.k, s.pid) then KillGroup else Listing)
    case List(listed) =>
      && s.phase == Listing
      && t == s.(phase := Proving(listed), truthful := s.truthful && IsChildNumber(s.k, listed))
    case EndOfList => s.phase == Listing && t == s.(phase := Waiting)
    case Prove =>
      && s.phase.Proving?
      && t == s.(phase := if IsChildNumber(s.k, s.phase.pid) then Opening(s.phase.pid) else Failed(ChildChanged))
    case NothingToReap =>
      && s.phase == Waiting
      && (exists g :: g in s.k.table && s.k.table[g].parent == s.k.self)
      && (forall g | g in s.k.table && s.k.table[g].parent == s.k.self :: s.k.table[g].life.Alive?)
      && t == s.(phase := Listing)
    case NoChildren =>
      && s.phase == Waiting
      && (forall g | g in s.k.table :: s.k.table[g].parent != s.k.self)
      && t == s.(phase := if s.rawStatus.None? then Failed(MissingStatus) else Returned)
    case _ => false
  }

  ghost predicate Next(s: State, step: Step, t: State) {
    TableNext(s, step, t) || KillNext(s, step, t) || PinNext(s, step, t) || MoveNext(s, step, t)
  }

  /** A fresh launcher: it refuses to start with children of its own. */
  ghost predicate Init(s: State) {
    && TableOk(s.k) && s.k.run == {} && s.k.leader !in s.k.table && s.k.leader < s.k.next
    && s.phase == Idle && s.pidfd == None && s.rawStatus == None
    && !s.killSent && s.killed == {} && s.truthful
  }

  /** The leader keeps its number until the launcher reaps it, and reaping it is what
      sets the status. */
  ghost predicate LeaderOk(s: State) {
    if s.phase == Idle then s.rawStatus.None? && s.pidfd.None? && s.k.run == {} && s.k.leader !in s.k.table
    else
      && s.k.leader in s.k.run
      && (s.rawStatus.None? ==>
            && s.k.leader in s.k.table && s.k.table[s.k.leader].parent == s.k.self
            && s.k.table[s.k.leader].pid == s.pid)
      && (s.rawStatus.Some? ==>
            && s.k.leader !in s.k.table && s.k.leader in s.k.exits
            && s.k.exits[s.k.leader] == s.rawStatus.value)
      && (s.pidfd.Some? ==> s.pidfd.value == s.k.leader)
  }

  ghost predicate PhaseOk(s: State) {
    match s.phase
    case Launched | Supervising | Terminate | KillGroup | KillPinned | KillNumber => s.rawStatus.None?
    case Proving(pid) => s.truthful ==> IsChildNumber(s.k, pid)
    case Opening(pid) => IsChildNumber(s.k, pid)
    case Signalling(pid, g) =>
      g in s.k.table && s.k.table[g].parent == s.k.self && s.k.table[g].pid == pid
    case KillListed(pid) => IsChildNumber(s.k, pid)
    case Returned => s.rawStatus.Some? && forall g | g in s.k.table :: g !in s.k.run
    case Failed(fault) => fault != MissingStatus && (fault == ChildChanged ==> !s.truthful)
    case _ => true
  }

  ghost predicate Inv(s: State) {
    && TableOk(s.k) && GroupOk(s.k) && s.k.leader < s.k.next
    && s.killed <= s.k.run && (s.killSent ==> s.killed != {})
    && LeaderOk(s) && PhaseOk(s)
  }

  lemma {:induction false} ChildIsMember(k: Kernel, pid: nat)
    requires TableOk(k) && IsChildNumber(k, pid)
    ensures Holders(k, pid) <= k.run && |Holders(k, pid)| == 1
  {
    var g :| g in k.table && k.table[g].parent == k.self && k.table[g].pid == pid;
    assert Placed(k, g);
    assert Holders(k, pid) == {g};
  }

  lemma {:induction false} OtherKeeps(s: State, e: Event, t: State)
    requires Inv(s) && TableNext(s, Other(e), t)
    ensures Inv(t)
  {
    EventKeeps(s.k, e);
    forall g | g in s.k.table && s.k.table[g].parent == s.k.self
      ensures g in t.k.table && t.k.table[g].parent == t.k.self && t.k.table[g].pid == s.k.table[g].pid
    {
      EventKeepsLauncherChild(s.k, e, g);
    }
    forall pid | IsChildNumber(s.k, pid) ensures IsChildNumber(t.k, pid) {
      var g :| g in s.k.table && s.k.table[g].parent == s.k.self && s.k.table[g].pid == pid;
      assert g in t.k.table;
    }
  }

  lemma {:induction false} LaunchKeeps(s: State, number: nat, t: State)
    requires Inv(s) && TableNext(s, Launch(number), t)
    ensures Inv(t)
  {
    LaunchingKeeps(s.k, number);
  }

  lemma {:induction false} ReapKeeps(s: State, g: Gen, t: State)
    requires Inv(s) && TableNext(s, Reap(g), t)
    ensures Inv(t)
  {
    ReapingKeeps(s.k, g);
    assert Placed(s.k, g);
    if s.rawStatus.None? { assert g != s.k.leader ==> s.k.table[g].pid != s.pid; }
  }

  lemma {:induction false} NoChildrenKeeps(s: State, t: State)
    requires Inv(s) && MoveNext(s, NoChildren, t)
    ensures Inv(t)
  {
    forall g | g in s.k.table ensures g !in s.k.run {
      NoChildNoMember(s.k, g);
    }
  }

  lemma {:induction false} GroupKillKeeps(s: State, step: Step, t: State)
    requires step.SignalGroup? && Inv(s) && KillNext(s, step, t)
    ensures Inv(t)
  {
    forall g | g in GroupMembers(s.k, s.pid) ensures g in s.k.run { assert GroupedOk(s.k, g); }
  }

  lemma {:induction false} LeaderKillKeeps(s: State, step: Step, t: State)
    requires (step.SignalPinned? || step.SignalNumber?) && Inv(s) && KillNext(s, step, t)
    ensures Inv(t)
  {
    if step.SignalNumber? {
      assert IsChildNumber(s.k, s.pid);
      ChildIsMember(s.k, s.pid);
    }
  }

  lemma {:induction false} ListedKillKeeps(s: State, step: Step, t: State)
    requires (step.SignalListed? || step.KillByNumber?) && Inv(s) && KillNext(s, step, t)
    ensures Inv(t)
  {
    if step.SignalListed? { assert Placed(s.k, s.phase.pinned); } else { ChildIsMember(s.k, s.phase.pid); }
  }

  lemma {:induction false} PinKeeps(s: State, step: Step, t: State)
    requires Inv(s) && PinNext(s, step, t)
    ensures Inv(t)
  {
    if step == Pin(Ok) {
      assert s.k.leader in Holders(s.k, s.pid);
    } else if step == Open(Ok) {
      var h :| h in s.k.table && s.k.table[h].parent == s.k.self && s.k.table[h].pid == s.phase.pid;
      assert h in Holders(s.k, s.phase.pid);
    }
  }

  lemma {:induction false} MoveKeeps(s: State, step: Step, t: State)
    requires !step.NoChildren? && Inv(s) && MoveNext(s, step, t)
    ensures Inv(t)
  {
  }

  lemma {:induction false} TableKeeps(s: State, step: Step, t: State)
    requires Inv(s) && TableNext(s, step, t)
    ensures Inv(t)
  {
    if step.Other? {
      OtherKeeps(s, step.event, t);
    } else if step.Launch? {
      LaunchKeeps(s, step.number, t);
    } else {
      ReapKeeps(s, step.child, t);
    }
  }

  lemma {:induction false} KillKeeps(s: State, step: Step, t: State)
    requires Inv(s) && KillNext(s, step, t)
    ensures Inv(t)
  {
    if step.SignalGroup? {
      GroupKillKeeps(s, step, t);
    } else if step.SignalPinned? || step.SignalNumber? {
      LeaderKillKeeps(s, step, t);
    } else {
      ListedKillKeeps(s, step, t);
    }
  }

  lemma {:induction false} StepKeeps(s: State, step: Step, t: State)
    requires Inv(s) && Next(s, step, t)
    ensures Inv(t)
  {
    if TableNext(s, step, t) {
      TableKeeps(s, step, t);
    } else if KillNext(s, step, t) {
      KillKeeps(s, step, t);
    } else if PinNext(s, step, t) {
      PinKeeps(s, step, t);
    } else if step.NoChildren? {
      NoChildrenKeeps(s, t);
    } else {
      MoveKeeps(s, step, t);
    }
  }

  /** A finite run: consecutive states joined by the given steps. */
  ghost predicate IsRun(states: seq<State>, steps: seq<Step>) {
    |states| == |steps| + 1 && Init(states[0]) && forall i | 0 <= i < |steps| :: StepAt(states, steps, i)
  }

  ghost predicate StepAt(states: seq<State>, steps: seq<Step>, i: nat) {
    i < |steps| && i + 1 < |states| && Next(states[i], steps[i], states[i + 1])
  }

  lemma {:induction false} StartKeeps(s: State)
    requires Init(s)
    ensures Inv(s)
  {
  }

  lemma {:induction false} StepAtKeeps(states: seq<State>, steps: seq<Step>, n: nat)
    requires n > 0 && StepAt(states, steps, n - 1) && Inv(states[n - 1])
    ensures Inv(states[n])
  {
    StepKeeps(states[n - 1], steps[n - 1], states[n]);
  }

  lemma {:induction false} RunKeeps(states: seq<State>, steps: seq<Step>, n: nat)
    requires IsRun(states, steps) && n < |states|
    ensures Inv(states[n])
  {
    if n == 0 {
      StartKeeps(states[0]);
    } else {
      RunKeeps(states, steps, n - 1);
      assert StepAt(states, steps, n - 1);
      StepAtKeeps(states, steps, n);
    }
  }

  /** The steps of `terminate` after which it counts a SIGKILL as sent. */
  predicate CountsAsSent(step: Step) {
    step == SignalGroup(Ok) || step == SignalPinned(Ok) || step == SignalNumber(Ok)
  }

  /** Who the step, taken in `s`, sends a SIGKILL to: everyone in the leader's group, the process a
      descriptor pins, or whoever has the number. */
  ghost predicate Reaches(s: State, step: Step, g: Gen) {
    match step
    case SignalGroup(Ok) => g in s.k.table && s.k.table[g].pgid == s.pid
    case SignalPinned(Ok) => s.pidfd == Some(g)
    case SignalNumber(Ok) => g in s.k.table && s.k.table[g].pid == s.pid
    case SignalListed(Ok) => s.phase.Signalling? && g == s.phase.pinned
    case KillByNumber(Ok) => s.phase.KillListed? && g in s.k.table && s.k.table[g].pid == s.phase.pid
    case _ => false
  }

  ghost predicate ReachedAt(states: seq<State>, steps: seq<Step>, i: nat, g: Gen) {
    i < |steps| && i < |states| && Reaches(states[i], steps[i], g)
  }

  ghost predicate SentBefore(steps: seq<Step>, n: nat) {
    exists i :: 0 <= i < n && i < |steps| && CountsAsSent(steps[i])
  }

  lemma {:induction false} StepSends(s: State, step: Step, t: State)
    requires Next(s, step, t)
    ensures t.killSent <==> s.killSent || CountsAsSent(step)
    ensures forall g :: g in t.killed <==> g in s.killed || Reaches(s, step, g)
  {
    if KillNext(s, step, t) { SignalSends(s, step, t); }
  }

  lemma {:induction false} SignalSends(s: State, step: Step, t: State)
    requires KillNext(s, step, t)
    ensures t.killSent <==> s.killSent || CountsAsSent(step)
    ensures forall g :: g in t.killed <==> g in s.killed || Reaches(s, step, g)
  {
  }

  /** The flag the receipt reports is set exactly when one of the three signals of `terminate` got
      through. */
  lemma {:induction false} KillSentIs(states: seq<State>, steps: seq<Step>, n: nat)
    requires IsRun(states, steps) && n < |states|
    ensures states[n].killSent <==> SentBefore(steps, n)
  {
    if n > 0 {
      KillSentIs(states, steps, n - 1);
      assert StepAt(states, steps, n - 1);
      StepSends(states[n - 1], steps[n - 1], states[n]);
      assert SentBefore(steps, n - 1) ==> SentBefore(steps, n);
      assert SentBefore(steps, n) ==> SentBefore(steps, n - 1) || CountsAsSent(steps[n - 1]);
    }
  }

  /** Who has been killed is exactly who some earlier step reached at its own moment. */
  lemma {:induction false} KilledIs(states: seq<State>, steps: seq<Step>, n: nat, g: Gen)
    requires IsRun(states, steps) && n < |states|
    ensures g in states[n].killed <==> exists i :: 0 <= i < n && ReachedAt(states, steps, i, g)
  {
    if n > 0 {
      KilledIs(states, steps, n - 1, g);
      assert StepAt(states, steps, n - 1);
      StepSends(states[n - 1], steps[n - 1], states[n]);
      assert Reaches(states[n - 1], steps[n - 1], g) <==> ReachedAt(states, steps, n - 1, g);
    }
  }

  /** Safety over every run: a SIGKILL only ever reaches generations born into the run,
      never the launcher and never a stranger, whatever numbers were reused meanwhile. Everyone a
      signal reached stays on record, and the launcher reports a kill exactly when it sent one. */
  lemma {:induction false} KillsStayInTheRun(states: seq<State>, steps: seq<Step>, n: nat)
    requires IsRun(states, steps) && n < |states|
    ensures states[n].killed <= states[n].k.run
    ensures states[n].k.self !in states[n].killed
    ensures states[n].killSent ==> states[n].killed != {}
    ensures states[n].killSent <==> SentBefore(steps, n)
    ensures forall i, g | 0 <= i < n && ReachedAt(states, steps, i, g) :: g in states[n].killed
  {
    RunKeeps(states, steps, n);
    KillSentIs(states, steps, n);
    forall i, g | 0 <= i < n && ReachedAt(states, steps, i, g) ensures g in states[n].killed {
      KilledIs(states, steps, n, g);
    }
  }

  /** `terminate` always finds the leader unreaped, so it goes on to the signals, and its last signal
      reaches the leader unless the kernel refuses it: the number cannot name anyone else, nor no one. */
  lemma {:induction false} LeaderIsSignalled(states: seq<State>, steps: seq<Step>, n: nat)
    requires IsRun(states, steps) && n < |steps|
    ensures steps[n] == CheckLeader ==> states[n + 1].phase == KillGroup
    ensures steps[n] == SignalPinned(Ok) ==> states[n].k.leader in states[n + 1].killed
    ensures steps[n] == SignalNumber(Ok) ==> states[n].k.leader in states[n + 1].killed
    ensures steps[n] != SignalNumber(NoSuchProcess)
    ensures steps[n] == SignalGroup(OtherError) ==> states[n + 1].phase == Listing
    ensures steps[n].SignalGroup? && !steps[n].outcome.OtherError? ==>
              states[n + 1].phase == if states[n].pidfd.Some? then KillPinned else KillNumber
    ensures steps[n] == SignalPinned(OtherError) ==> states[n + 1].phase == KillNumber
  {
    RunKeeps(states, steps, n);
    assert StepAt(states, steps, n);
    LeaderStep(states[n], steps[n], states[n + 1]);
  }

  lemma {:induction false} LeaderStep(s: State, step: Step, t: State)
    requires Inv(s) && Next(s, step, t)
    ensures step == CheckLeader ==> t.phase == KillGroup
    ensures step == SignalPinned(Ok) || step == SignalNumber(Ok) ==> s.k.leader in t.killed
    ensures step != SignalNumber(NoSuchProcess)
  {
    if step.SignalNumber? { assert s.k.leader in Holders(s.k, s.pid); }
  }

  /** `reap` returns only when no process of the run is left, alive or zombie, and none
      ever appears again. */
  lemma {:induction false} ReapReturnsClean(states: seq<State>, steps: seq<Step>, n: nat, m: nat)
    requires IsRun(states, steps) && n <= m < |states| && states[n].phase == Returned
    ensures states[m].phase == Returned && states[m].rawStatus.Some?
    ensures forall g | g in states[m].k.run :: g !in states[m].k.table
    decreases m
  {
    RunKeeps(states, steps, m);
    if m > n {
      ReapReturnsClean(states, steps, n, m - 1);
      assert StepAt(states, steps, m - 1);
    }
  }

  lemma {:induction false} StatusIsFinal(s: State, step: Step, t: State)
    requires Inv(s) && Next(s, step, t) && s.rawStatus.Some?
    ensures t.rawStatus == s.rawStatus && t.k.leader == s.k.leader
  {
  }

  /** In every reachable state a recorded status is the exit status of the leader's
      generation, and it never changes afterwards, even when its number is reused. */
  lemma {:induction false} StatusIsTheLeaders(states: seq<State>, steps: seq<Step>, n: nat, m: nat)
    requires IsRun(states, steps) && n <= m < |states| && states[n].rawStatus.Some?
    ensures states[n].k.leader in states[n].k.exits
    ensures states[n].rawStatus == Some(states[n].k.exits[states[n].k.leader])
    ensures states[m].rawStatus == states[n].rawStatus && states[m].k.leader == states[n].k.leader
    decreases m
  {
    RunKeeps(states, steps, n);
    if m > n {
      StatusIsTheLeaders(states, steps, n, m - 1);
      RunKeeps(states, steps, m - 1);
      assert StepAt(states, steps, m - 1);
      StatusIsFinal(states[m - 1], steps[m - 1], states[m]);
    }
  }

  /** The two cleanup faults: a missing status is never reported, and a changed child
      only if procfs listed a number that was no child. */
  lemma {:induction false} CleanupFaults(states: seq<State>, steps: seq<Step>, n: nat)
    requires IsRun(states, steps) && n < |states|
    ensures states[n].phase != Failed(MissingStatus)
    ensures states[n].phase == Failed(ChildChanged) ==> !states[n].truthful
  {
    RunKeeps(states, steps, n);
  }
}
