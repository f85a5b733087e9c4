/** What runs underneath a program: system calls, each of which may fail. */
module Machine {

  /** The calls that failed are counted. */
  class Host {
    ghost var failures: nat

    method Call() returns (ok: bool)
      modifies this
      ensures failures == old(failures) + if ok then 0 else 1
    {
      ok := *;
      if !ok { failures := failures + 1; }
    }

    /** What did not go well is a call that failed. */
    twostate predicate Accounts(ok: bool)
      reads this
    {
      old(failures) <= failures && (!ok ==> old(failures) < failures)
    }
  }
}
