/** The part of the kernel the quota launcher relies on: a process table in which
    numeric ids are reused but generations are not, and everything the other
    processes of the machine may do between two steps of the launcher. */
module ProcessTable {

  type Gen = nat

  datatype Life = Alive | Zombie(status: int)

  /** One unreaped process. `pgid` and `sid` are numeric group and session ids. */
  datatype Proc = Proc(pid: nat, parent: Gen, pgid: nat, sid: nat, life: Life)

  /** The parent of init. */
  const NOBODY: Gen := 0

  /** `self` is the launcher, `leader` the one process it forks (unused before the
      launch), `init` the root of the process tree, which may be the launcher. `subreapers`
      asked for the orphans below them. `run` holds every generation ever born into the
      run, and `exits` the status each exited generation left. */
  datatype Kernel = Kernel(self: Gen, leader: Gen, init: Gen, next: Gen, table: map<Gen, Proc>,
                           subreapers: set<Gen>, run: set<Gen>, exits: map<Gen, int>)

  /** What processes other than the launcher may do at any moment. */
  datatype Event =
    | Fork(caller: Gen, pid: nat, asSibling: bool)  // fork, or clone(CLONE_PARENT)
    | Exit(g: Gen, status: int)
    | Adopt(g: Gen, on: bool)                   // prctl(PR_SET_CHILD_SUBREAPER)
    | Collect(g: Gen)                           // another parent reaps its zombie
    | NewSession(g: Gen)                        // setsid
    | JoinGroup(g: Gen, pgid: nat)              // setpgid

  predicate IsAlive(k: Kernel, g: Gen) {
    g in k.table && k.table[g].life.Alive?
  }

  /** A number is free only when no process, group or session still uses it. */
  predicate FreeId(k: Kernel, id: nat) {
    forall g | g in k.table :: k.table[g].pid != id && k.table[g].pgid != id && k.table[g].sid != id
  }

  predicate GroupInSession(k: Kernel, pgid: nat, sid: nat) {
    exists h :: h in k.table && k.table[h].pgid == pgid && k.table[h].sid == sid
  }

  /** The first living subreaper met on the way up from `g`, or else init. Parents are older
      than their children, so the way up ends. */
  function Climb(k: Kernel, g: Gen): Gen
    decreases g
  {
    if g !in k.table || g == k.init then k.init
    else if g in k.subreapers && IsAlive(k, g) then g
    else if k.table[g].parent < g then Climb(k, k.table[g].parent)
    else k.init
  }

  /** Who gets the orphans of `g`. */
  function Reaper(k: Kernel, g: Gen): Gen
    requires g in k.table
  {
    Climb(k, k.table[g].parent)
  }

  predicate Enabled(k: Kernel, e: Event) {
    match e
    case Fork(caller, pid, asSibling) =>
      caller != k.self && IsAlive(k, caller) && FreeId(k, pid) && (asSibling ==> caller != k.init)
    case Exit(g, _) => g != k.self && g != k.init && IsAlive(k, g)
    case Adopt(g, _) => g != k.self && IsAlive(k, g)
    case Collect(g) => g in k.table && k.table[g].life.Zombie? && k.table[g].parent != k.self
    case NewSession(g) =>
      g != k.self && IsAlive(k, g) && k.table[g].pgid != k.table[g].pid
    // The leader never calls setpgid: before exec it runs the launcher's own code, whose
    // first action is setsid, and a session leader is refused.
    case JoinGroup(g, pgid) =>
      && g != k.self && g != k.leader && IsAlive(k, g) && k.table[g].sid != k.table[g].pid
      && (pgid == k.table[g].pid || GroupInSession(k, pgid, k.table[g].sid))
  }

  function Reparented(table: map<Gen, Proc>, from: Gen, to: Gen): map<Gen, Proc> {
    map g | g in table :: if table[g].parent == from then table[g].(parent := to) else table[g]
  }

  function Apply(k: Kernel, e: Event): Kernel
    requires Enabled(k, e)
  {
    match e
    case Fork(caller, pid, asSibling) =>
      var child := Proc(pid, if asSibling then k.table[caller].parent else caller,
                        k.table[caller].pgid, k.table[caller].sid, Alive);
      k.(next := k.next + 1, table := k.table[k.next := child],
         run := if caller in k.run then k.run + {k.next} else k.run)
    case Exit(g, status) =>
      var table := Reparented(k.table, g, Reaper(k, g));
      k.(table := table[g := table[g].(life := Zombie(status))], exits := k.exits[g := status])
    case Adopt(g, on) => k.(subreapers := if on then k.subreapers + {g} else k.subreapers - {g})
    case Collect(g) => k.(table := k.table - {g})
    case NewSession(g) =>
      k.(table := k.table[g := k.table[g].(pgid := k.table[g].pid, sid := k.table[g].pid)])
    case JoinGroup(g, pgid) => k.(table := k.table[g := k.table[g].(pgid := pgid)])
  }

  ghost predicate BirthsOk(k: Kernel) {
    && IsAlive(k, k.self) && k.self !in k.run && k.self in k.subreapers
    && IsAlive(k, k.init) && k.init !in k.run
    && (forall g | g in k.table :: NOBODY < g < k.next)
    && (forall g | g in k.run :: g < k.next)
  }

  ghost predicate DistinctPids(k: Kernel) {
    forall g, h | g in k.table && h in k.table && g != h :: k.table[g].pid != k.table[h].pid
  }

  ghost predicate ExitsRecorded(k: Kernel) {
    forall g | g in k.table && k.table[g].life.Zombie? ::
      g in k.exits && k.exits[g] == k.table[g].life.status
  }

  /** Everyone but init hangs below an older, living parent, and is of the run exactly when
      that is the launcher or of the run. */
  ghost predicate Placed(k: Kernel, g: Gen)
    requires g in k.table
  {
    var p := k.table[g].parent;
    if g == k.init then p == NOBODY
    else p < g && IsAlive(k, p) && (g in k.run <==> p == k.self || p in k.run)
  }

  ghost predicate ShapeOk(k: Kernel) {
    forall g {:trigger Placed(k, g)} | g in k.table :: Placed(k, g)
  }

  /** Facts every event keeps. */
  ghost predicate TableOk(k: Kernel) {
    BirthsOk(k) && DistinctPids(k) && ExitsRecorded(k) && ShapeOk(k)
  }

  /** While the leader is unreaped its number names its session and group only, and
      only members of the run are in them. */
  ghost predicate GroupOk(k: Kernel) {
    k.leader in k.table ==> k.leader in k.run && forall g | g in k.table :: GroupedOk(k, g)
  }

  ghost predicate GroupedOk(k: Kernel, g: Gen)
    requires g in k.table && k.leader in k.table
  {
    var id := k.table[k.leader].pid;
    && (k.table[g].pgid == id ==> k.table[g].sid == id)
    && (k.table[g].sid == id ==> g in k.run)
  }

  lemma {:induction false} EventKeepsBirths(k: Kernel, e: Event)
    requires BirthsOk(k) && Enabled(k, e)
    ensures BirthsOk(Apply(k, e))
  {
  }

  lemma {:induction false} EventKeepsPids(k: Kernel, e: Event)
    requires BirthsOk(k) && DistinctPids(k) && Enabled(k, e)
    ensures DistinctPids(Apply(k, e))
  {
  }

  lemma {:induction false} EventKeepsExits(k: Kernel, e: Event)
    requires BirthsOk(k) && ExitsRecorded(k) && Enabled(k, e)
    ensures ExitsRecorded(Apply(k, e))
  {
  }

  lemma {:induction false} ForkKeepsShape(k: Kernel, e: Event)
    requires BirthsOk(k) && ShapeOk(k) && Enabled(k, e) && e.Fork?
    ensures ShapeOk(Apply(k, e))
  {
    var k' := Apply(k, e);
    forall g | g in k'.table ensures Placed(k', g) {
      assert Placed(k, if g == k.next then e.caller else g);
    }
  }

  /** The climb ends at a living ancestor, and it never leaves or enters the run except at the
      launcher. */
  lemma {:induction false} ClimbStays(k: Kernel, g: Gen)
    requires BirthsOk(k) && ShapeOk(k) && IsAlive(k, g)
    ensures var r := Climb(k, g); r <= g && IsAlive(k, r) && (r == k.self || r in k.run <==> g == k.self || g in k.run)
    decreases g
  {
    assert Placed(k, g);
    if g != k.init && g !in k.subreapers { ClimbStays(k, k.table[g].parent); }
  }

  /** Orphans of the run stay below the launcher, and other orphans never come to it. */
  lemma {:induction false} ReaperIsAncestor(k: Kernel, g: Gen)
    requires BirthsOk(k) && ShapeOk(k) && g in k.table && g != k.init
    ensures var r := Reaper(k, g); r < g && IsAlive(k, r) && (r == k.self || r in k.run <==> g in k.run)
  {
    assert Placed(k, g);
    ClimbStays(k, k.table[g].parent);
  }

  lemma {:induction false} ExitKeepsShape(k: Kernel, e: Event)
    requires BirthsOk(k) && ShapeOk(k) && Enabled(k, e) && e.Exit?
    ensures ShapeOk(Apply(k, e))
  {
    var k' := Apply(k, e);
    ReaperIsAncestor(k, e.g);
    forall g | g in k'.table ensures Placed(k', g) { assert Placed(k, g); }
  }

  lemma {:induction false} EventKeepsShape(k: Kernel, e: Event)
    requires BirthsOk(k) && ShapeOk(k) && Enabled(k, e)
    ensures ShapeOk(Apply(k, e))
  {
    if e.Fork? {
      ForkKeepsShape(k, e);
    } else if e.Exit? {
      ExitKeepsShape(k, e);
    } else {
      var k' := Apply(k, e);
      forall g | g in k'.table ensures Placed(k', g) { assert Placed(k, g); }
    }
  }

  lemma {:induction false} EventKeepsGroup(k: Kernel, e: Event)
    requires DistinctPids(k) && GroupOk(k) && k.leader < k.next && Enabled(k, e)
    ensures GroupOk(Apply(k, e))
  {
    var k' := Apply(k, e);
    if k'.leader in k'.table {
      forall g | g in k'.table ensures GroupedOk(k', g) {
        if e.Fork? && g == k.next {
          assert GroupedOk(k, e.caller);
        } else if e.JoinGroup? && g == e.g && e.pgid != k.table[g].pid {
          var h :| h in k.table && k.table[h].pgid == e.pgid && k.table[h].sid == k.table[g].sid;
          assert GroupedOk(k, g) && GroupedOk(k, h);
        } else {
          assert GroupedOk(k, g);
        }
      }
    }
  }

  lemma {:induction false} EventKeeps(k: Kernel, e: Event)
    requires TableOk(k) && GroupOk(k) && k.leader < k.next && Enabled(k, e)
    ensures TableOk(Apply(k, e)) && GroupOk(Apply(k, e))
  {
    EventKeepsBirths(k, e);
    EventKeepsPids(k, e);
    EventKeepsExits(k, e);
    EventKeepsShape(k, e);
    EventKeepsGroup(k, e);
  }

  /** The launcher's own reaping, and its own fork. */
  function Without(k: Kernel, g: Gen): Kernel { k.(table := k.table - {g}) }

  lemma {:induction false} ReapingKeeps(k: Kernel, g: Gen)
    requires TableOk(k) && GroupOk(k) && g in k.table && k.table[g].life.Zombie?
    ensures TableOk(Without(k, g)) && GroupOk(Without(k, g))
  {
    var k' := Without(k, g);
    forall h | h in k'.table ensures Placed(k', h) { assert Placed(k, h); }
    if k'.leader in k'.table {
      forall h | h in k'.table ensures GroupedOk(k', h) { assert GroupedOk(k, h); }
    }
  }

  function Launched(k: Kernel, number: nat): Kernel
    requires k.self in k.table
  {
    var me := k.table[k.self];
    k.(leader := k.next, next := k.next + 1, run := k.run + {k.next},
       table := k.table[k.next := Proc(number, k.self, me.pgid, me.sid, Alive)])
  }

  lemma {:induction false} LaunchingKeeps(k: Kernel, number: nat)
    requires TableOk(k) && k.run == {} && FreeId(k, number)
    ensures TableOk(Launched(k, number)) && GroupOk(Launched(k, number))
  {
    var k' := Launched(k, number);
    forall g | g in k'.table ensures Placed(k', g) && GroupedOk(k', g) {
      if g != k.next { assert Placed(k, g); }
    }
  }

  /** An event neither removes nor re-parents a child of the launcher. */
  lemma {:induction false} EventKeepsLauncherChild(k: Kernel, e: Event, g: Gen)
    requires TableOk(k) && Enabled(k, e)
    requires g in k.table && k.table[g].parent == k.self
    ensures var k' := Apply(k, e);
            g in k'.table && k'.table[g].parent == k'.self == k.self && k'.table[g].pid == k.table[g].pid
  {
  }

  /** If the launcher has no child left, no member of the run is left at all. */
  lemma {:induction false} NoChildNoMember(k: Kernel, g: Gen)
    requires TableOk(k)
    requires forall h | h in k.table :: k.table[h].parent != k.self
    ensures !(g in k.table && g in k.run)
    decreases g
  {
    if g in k.table && g in k.run {
      assert Placed(k, g);
      NoChildNoMember(k, k.table[g].parent);
    }
  }
}
