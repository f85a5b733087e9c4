/** The finalizer: it receives a sink, verifies it, delivers it to stdout or to a path of its own,
    and reports with a receipt (docker/pineforge_sink_finalize.py, without a run quota). Every
    read, write, file operation and flush may fail, and an interruption or unforeseen error may
    strike between any two steps: most are caught and end the run with 7, some escape. */
module Finalizer {
  import opened Arithmetic
  import opened Bytes
  import opened Framing
  import opened Json
  import opened Options
  import opened SinkFormat
  import opened SinkStream
  import opened SinkVerify

  /** The two names the run owns: the published path and its spool. What goes wrong with them, and
      around them, is counted. */
  class Files {
    var path: Option<seq<byte>>
    var spool: Option<seq<byte>>
    ghost var failures: nat          // reads, writes and file operations that failed
    ghost var stops: nat             // interruptions and unforeseen errors

    /** A step that may fail without other effect. */
    method Attempt() returns (ok: bool)
      modifies `failures
      ensures failures == old(failures) + if ok then 0 else 1
    {
      ok := *;
      if !ok { failures := failures + 1; }
    }

    /** Whether an interruption strikes here. */
    method Interrupted() returns (struck: bool)
      modifies `stops
      ensures stops == old(stops) + if struck then 1 else 0
    {
      struck := *;
      if struck { stops := stops + 1; }
    }

    method RemovePath() returns (ok: bool)
      modifies `path, `failures
      ensures path == if ok then None else old(path)
      ensures failures == old(failures) + if ok then 0 else 1
    {
      ok := Attempt();
      if ok { path := None; }
    }

    method RemoveSpool() returns (ok: bool)
      modifies `spool, `failures
      ensures spool == if ok then None else old(spool)
      ensures failures == old(failures) + if ok then 0 else 1
    {
      ok := Attempt();
      if ok { spool := None; }
    }

    method CreateSpool() returns (ok: bool)
      modifies `spool, `failures
      ensures spool == if ok then Some([]) else old(spool)
      ensures failures == old(failures) + if ok then 0 else 1
    {
      ok := Attempt();
      if ok { spool := Some([]); }
    }

    /** A write to the spool, whole or cut short. */
    method Append(data: seq<byte>) returns (ok: bool)
      requires spool.Some?
      modifies `spool, `failures
      ensures spool.Some? && (ok ==> spool.value == old(spool.value) + data)
      ensures failures == old(failures) + if ok then 0 else 1
    {
      ok := Attempt();
      var choice: int := *;
      var k := if !ok && 0 <= choice < |data| then choice else |data|;
      spool := Some(spool.value + data[..k]);
      assert data[..|data|] == data;
    }

    method Publish() returns (ok: bool)
      requires spool.Some?
      modifies `path, `spool, `failures
      ensures if ok then path == old(spool) && spool.None? else path == old(path) && spool == old(spool)
      ensures failures == old(failures) + if ok then 0 else 1
    {
      ok := Attempt();
      if ok { path, spool := spool, None; }
    }

    /** A status of 5 is something that failed, and a status of 7 something that stopped the run. */
    twostate predicate Blames(status: int)
      reads this
    {
      && old(failures) <= failures && (status == 5 ==> old(failures) < failures)
      && old(stops) <= stops && (status == 7 ==> old(stops) < stops)
    }
  }

  /** The moments at which an interruption makes a difference to what is left behind. */
  datatype Moment =
    | Creating          // the spool exists, its name is not noted yet
    | Handling          // an error is caught, the status is not set yet
    | BeforeSpool       // in the cleanup, before the spool is removed
    | BeforePath        // in the cleanup, before the path is removed
    | BeforeReceipt     // after the cleanup
    | Sealing           // the receipt is written, its error handlers still apply
    | Retracting        // the receipt failed, the path is not removed yet
    | Leaving           // nothing is left to do

  ghost predicate Struck(strikes: Moment -> bool) { exists m :: strikes(m) }

  /** The exit of a run that an interruption ends uncaught. */
  const UNCAUGHT: int := 130

  /** Copy the input to the spool: at most the cap and one byte are read, nothing behind the cap
      is spooled, and zero means that all of it is there. */
  method Receive(source: seq<byte>, cap: Option<nat>, files: Files) returns (status: int, taken: nat)
    requires files.spool == Some([])
    modifies files`spool, files`failures, files`stops
    ensures files.Blames(status)
    ensures files.spool.Some? && taken <= |source| && (cap.Some? ==> taken <= cap.value + 1)
    ensures status == 0 ==> files.spool.value == source && taken == |source| && Capped(source, cap) == source
    ensures status == 0 ==> !HasOverlong(source, MAX_LINE_BYTES)
    ensures status == 8 ==> Capped(source, cap) != source && taken == cap.value + 1
    ensures status == 3 ==> HasOverlong(source[..taken], MAX_LINE_BYTES)
    ensures status in {0, 3, 5, 7, 8}
  {
    taken := 0;
    var line: nat := 0;
    while true
      invariant taken <= |source| && (cap.Some? ==> taken <= cap.value) && line <= MAX_LINE_BYTES
      invariant files.spool == Some(source[..taken]) && files.Blames(0)
      invariant Bound(source[..taken], Line(0), MAX_LINE_BYTES) == Line(line)
      decreases |source| - taken
    {
      var size := if cap.None? then CHUNK_BYTES else Min(CHUNK_BYTES, cap.value - taken + 1);
      var ok := files.Attempt();                       // read
      if !ok { return 5, taken; }
      var struck := files.Interrupted();
      if struck { return 7, taken; }
      if taken == |source| {
        assert source[..taken] == source;
        BoundMeaning(source, MAX_LINE_BYTES);
        return 0, taken;
      }
      var choice: int := *;
      var most := Min(size, |source| - taken);
      var count := if 1 <= choice <= most then choice else most;
      var chunk := source[taken..taken + count];
      assert source[..taken] + chunk == source[..taken + count];
      BoundThen(source[..taken], chunk, Line(0), MAX_LINE_BYTES);
      taken := taken + count;
      struck := files.Interrupted();
      if struck { return 7, taken; }
      if cap.Some? && taken > cap.value { return 8, taken; }
      var r := LineBound(chunk, line);
      if r.Overlong? {
        BoundMeaning(source[..taken], MAX_LINE_BYTES);
        return 3, taken;
      }
      line := r.length;
      ok := files.Append(chunk);
      if !ok { return 5, taken; }
    }
  }

  /** What a receipt says; `render` spells it on one line. */
  datatype Document = Document(complete: bool, counts: seq<nat>, sinkBytes: nat, capBytes: Option<nat>, sha256: Text)

  /** What the main stage leaves for the receipt. */
  datatype Tally = Tally(counts: seq<nat>, taken: nat, sha256: Text)

  /** How far a run in file mode got: the path was removed, the spool was created, the spool
      was published. */
  datatype Course = Course(taken: bool, created: bool, published: bool)

  /** The status file mode amounts to when nothing fails: a stream longer than its cap is refused
      before it is verified. */
  ghost function FileStatus(env: Env, wanted: Json -> bool, source: seq<byte>, cap: Option<nat>, jailed: bool): int {
    if jailed then 3 else if Capped(source, cap) != source then 8 else StatusOf(env, wanted, source, None)
  }

  /** The status of either mode. */
  ghost function Expected(env: Env, wanted: Json -> bool, source: seq<byte>, cap: Option<nat>, toStdout: bool,
                          jailed: bool): int
  {
    if toStdout then StatusOf(env, wanted, source, cap) else FileStatus(env, wanted, source, cap, jailed)
  }

  /** What the main stage in file mode leaves. */
  ghost predicate Stage(c: Course, owned: bool, spooled: bool, strikes: Moment -> bool, source: seq<byte>,
                        path: Option<seq<byte>>, spool: Option<seq<byte>>, status: int)
  {
    && (c.published ==> c.created) && (c.created ==> owned) && (owned ==> c.taken) && (spooled ==> c.created)
    && (c.taken ==> path == if c.published then Some(source) else None)
    && (spool.Some? <==> c.created && !c.published)
    && (c.created && strikes(Creating) ==> !c.published && !spooled)
    && (c.created && !c.published && !strikes(Creating) ==> spooled)
    && (status == 0 ==> c.published && !spooled)
  }

  /** Spool the input and verify the spool. */
  method SpoolAndVerify(env: Env, wanted: Json -> bool, source: seq<byte>, cap: Option<nat>, files: Files)
    returns (status: int, t: Tally, ghost rows: seq<Record>, ghost last: Reader)
    requires Standard(env) && files.spool == Some([])
    modifies files`spool, files`failures, files`stops
    ensures files.spool.Some? && files.Blames(status)
    ensures status == 0 ==>
              && files.spool == Some(source) && Verified(env, wanted, source, rows, last)
              && t == Tally(last.counts, |source|, env.digest(last.hashed))
    ensures status == 8 ==> Capped(source, cap) != source && t == Tally([], cap.value + 1, [])
    ensures t.taken <= |source| && (cap.Some? ==> t.taken <= cap.value + 1)
    ensures Decided(status, FileStatus(env, wanted, source, cap, false), source)
    ensures status != UNCAUGHT
  {
    t, rows, last := Tally([], 0, []), [], Reader([], [], []);
    var ok := files.Attempt();                         // chmod
    if !ok { status := 5; return; }
    var taken;
    status, taken := Receive(source, cap, files);
    t := t.(taken := taken);
    if status == 3 {
      var i: nat :| Stretch(source[..taken], i, MAX_LINE_BYTES);
      assert Stretch(source, i, MAX_LINE_BYTES);
    }
    if status != 0 { return; }
    ok := files.Attempt();                             // fsync and close
    if !ok { status := 5; return; }
    var struck := files.Interrupted();
    if struck { status := 7; return; }
    var input := new Input(files.spool.value, None, false);
    var sink := new Output();
    var counts, sha256;
    ghost var accepted, inWrite;
    status, counts, sha256, rows, last, accepted, inWrite := Verify(env, wanted, input, sink, false);
    files.failures := files.failures + input.failures + sink.failures;
    files.stops := files.stops + input.stops + sink.stops;
    t := Tally(counts, taken, sha256);
  }

  /** File mode: take the path over, spool the input, verify the spool, publish it. */
  method SpoolAndPublish(env: Env, wanted: Json -> bool, source: seq<byte>, cap: Option<nat>, jailed: bool,
                         files: Files, strikes: Moment -> bool)
    returns (status: int, owned: bool, spooled: bool, t: Tally, ghost c: Course,
             ghost rows: seq<Record>, ghost last: Reader)
    requires Standard(env) && files.spool.None?
    modifies files
    ensures Stage(c, owned, spooled, strikes, source, files.path, files.spool, status)
    ensures files.Blames(if strikes(Creating) && status == 7 then 0 else status)
    ensures !c.taken ==> files.path == old(files.path)
    ensures status == 0 ==>
              Verified(env, wanted, source, rows, last) && t == Tally(last.counts, |source|, env.digest(last.hashed))
    ensures c.published ==> Verified(env, wanted, source, rows, last) && (status == 0 || status == 7)
    ensures status == 8 ==> Capped(source, cap) != source && t == Tally([], cap.value + 1, [])
    ensures t.taken <= |source| && (cap.Some? ==> t.taken <= cap.value + 1)
    ensures Decided(status, FileStatus(env, wanted, source, cap, jailed), source)
    ensures status != UNCAUGHT
  {
    owned, spooled, t, c, rows, last :=
      false, false, Tally([], 0, []), Course(false, false, false), [], Reader([], [], []);
    if jailed { status := 3; return; }
    var ok := files.RemovePath();
    if !ok { status := 5; return; }
    c := c.(taken := true);
    var struck := files.Interrupted();
    if struck { status := 7; return; }
    owned := true;
    ok := files.CreateSpool();
    if !ok { status := 5; return; }
    c := c.(created := true);
    if strikes(Creating) { status := 7; return; }
    spooled := true;
    status, t, rows, last := SpoolAndVerify(env, wanted, source, cap, files);
    if status != 0 { return; }
    struck := files.Interrupted();
    if struck { status := 7; return; }
    ok := files.Publish();
    if !ok { status := 5; return; }
    c := c.(published := true);
    struck := files.Interrupted();
    if struck { status := 7; return; }
    spooled := false;
    struck := files.Interrupted();
    if struck { status := 7; }
  }

  /** Removals of the path behind the main stage, and how many of them failed. */
  datatype Removals = Removals(tries: nat, failures: nat, spoolFailed: bool)

  /** Remove what a failed run may have left. `stopped`: an interruption escapes. */
  method Cleanup(files: Files, status: int, owned: bool, spooled: bool, strikes: Moment -> bool)
    returns (r: int, stopped: bool, ghost n: Removals)
    modifies files
    ensures stopped <==> strikes(BeforeSpool) || strikes(BeforePath)
    ensures r == status || (r == 5 && (n.spoolFailed || n.failures == 1))
    ensures files.failures == old(files.failures) + n.failures + (if n.spoolFailed then 1 else 0)
    ensures files.stops == old(files.stops)
    ensures n.failures <= n.tries <= 1 && (n.spoolFailed ==> spooled && !strikes(BeforeSpool))
    ensures n.tries == 1 <==> !stopped && owned && (status != 0 || n.spoolFailed)
    ensures files.path == if n.tries == n.failures then old(files.path) else None
    ensures files.spool == if !spooled || strikes(BeforeSpool) || n.spoolFailed then old(files.spool) else None
  {
    r, n := status, Removals(0, 0, false);
    if strikes(BeforeSpool) { return r, true, n; }
    if spooled {
      var ok := files.RemoveSpool();
      if !ok {
        r, n := 5, n.(spoolFailed := true);
      }
    }
    if strikes(BeforePath) { return r, true, n; }
    if r != 0 && owned {
      var ok := files.RemovePath();
      n := n.(tries := 1, failures := if ok then 0 else 1);
      if !ok { r := 5; }
    }
    stopped := false;
  }

  /** The same of files and a descriptor together. */
  twostate predicate Charged(status: int, files: Files, out: Output)
    reads files, out
  {
    && old(files.failures) <= files.failures && old(out.failures) <= out.failures
    && old(files.stops) <= files.stops && old(out.stops) <= out.stops
    && (status == 5 ==> old(files.failures + out.failures) < files.failures + out.failures)
    && (status == 7 || status == UNCAUGHT ==> old(files.stops + out.stops) < files.stops + out.stops)
  }

  /** The receipt, and the path taken back when its writing does not end well. `reported`: it
      did. */
  method Report(files: Files, status: int, owned: bool, receipt: Output, line: seq<byte>, strikes: Moment -> bool)
    returns (r: int, ghost reported: bool, ghost n: Removals)
    requires line != []
    modifies files`path, files`failures, files`stops, receipt
    ensures Charged(if reported || Struck(strikes) then 0 else r, files, receipt)
    ensures r == UNCAUGHT && status != UNCAUGHT ==> Struck(strikes)
    ensures old(receipt.sent) <= receipt.sent <= old(receipt.sent) + line
    ensures reported <==> receipt.sent == old(receipt.sent) + line && !strikes(Sealing)
    ensures reported ==> r == if strikes(Leaving) then UNCAUGHT else status
    ensures !reported ==> r in {5, 7, UNCAUGHT}
    ensures n.failures <= n.tries <= 1 && !n.spoolFailed
    ensures n.tries == 1 <==> !reported && owned && !strikes(Retracting)
    ensures files.path == if n.tries == n.failures then old(files.path) else None
  {
    n := Removals(0, 0, false);
    var struck := files.Interrupted();                 // the document cannot be spelled
    var ok;
    if !struck {
      var w := receipt.WriteAll(line);
      if w.Complete? && !strikes(Sealing) {
        reported := true;
        return if strikes(Leaving) then UNCAUGHT else status, reported, n;
      }
      r := if w.Failed? then 5 else 7;
    } else {
      assert receipt.sent != receipt.sent + line by { assert |receipt.sent + line| > |receipt.sent|; }
      r := 7;
    }
    reported := false;
    if strikes(Retracting) { return UNCAUGHT, reported, n; }
    if owned {
      ok := files.RemovePath();
      n := n.(tries := 1, failures := if ok then 0 else 1);
      if !ok { r := 5; }
    }
    if strikes(Leaving) { r := UNCAUGHT; }
  }

  /** Stdout is flushed before its receipt. */
  method Deliver(files: Files, status: int, owned: bool, toStdout: bool, receipt: Output, line: seq<byte>,
                 strikes: Moment -> bool)
    returns (r: int, ghost reported: bool, ghost n: Removals)
    requires line != [] && (toStdout ==> !owned)
    modifies files`path, files`failures, files`stops, receipt
    ensures Charged(if reported || Struck(strikes) then 0 else r, files, receipt)
    ensures r == UNCAUGHT && status != UNCAUGHT ==> Struck(strikes)
    ensures old(receipt.sent) <= receipt.sent <= old(receipt.sent) + line
    ensures reported <==> receipt.sent == old(receipt.sent) + line && !strikes(Sealing)
    ensures reported ==> r == if strikes(Leaving) then UNCAUGHT else status
    ensures !reported ==> r in {5, 7, UNCAUGHT}
    ensures n.failures <= n.tries <= 1 && !n.spoolFailed
    ensures n.tries == 1 <==> !reported && owned && !strikes(Retracting)
    ensures files.path == if n.tries == n.failures then old(files.path) else None
  {
    if toStdout {
      assert |receipt.sent + line| > |receipt.sent|;
      reported, n := false, Removals(0, 0, false);
      var flushed := files.Attempt();
      if !flushed { return 5, reported, n; }
      var struck := files.Interrupted();
      if struck { return 7, reported, n; }
    }
    r, reported, n := Report(files, status, owned, receipt, line, strikes);
  }

  /** The exit comes before any removal of a published path is due. */
  predicate NoRemoval(strikes: Moment -> bool, finished: bool, reported: bool, spoolFailed: bool) {
    || strikes(BeforeSpool) || strikes(BeforePath)
    || (if finished then strikes(BeforeReceipt) || reported || strikes(Retracting)
        else strikes(Handling) && !spoolFailed)
  }

  /** What a run did after its main stage. */
  datatype Ending = Ending(reported: bool, removals: Removals)

  /** Everything behind the main stage: cleanup, the flush of stdout, the receipt. */
  method Conclude(files: Files, primary: int, owned: bool, spooled: bool, toStdout: bool,
                  receipt: Output, render: Document -> seq<byte>, t: Tally, cap: Option<nat>, strikes: Moment -> bool)
    returns (status: int, ghost document: Document, ghost e: Ending)
    requires (primary == 0 ==> !spooled) && (toStdout ==> !owned && !spooled)
    requires forall d :: render(d) != []
    modifies files, receipt
    ensures Charged(if status == primary || Struck(strikes) then 0 else status, files, receipt)
    ensures old(receipt.sent) <= receipt.sent <= old(receipt.sent) + render(document)
    ensures e.reported ==> receipt.sent == old(receipt.sent) + render(document)
    ensures status == 0 ==>
              e.reported && primary == 0 && document == Document(true, t.counts, t.taken, None, t.sha256)
    ensures e.reported && primary == 0 && !strikes(Leaving) ==> status == 0
    ensures document.complete && receipt.sent == old(receipt.sent) + render(document) ==>
              (status == 0 <==> !strikes(Sealing) && !strikes(Leaving))
    ensures status == 8 ==> primary == 8 && document == Document(false, t.counts, t.taken, cap, [])
    ensures status !in {5, 7, UNCAUGHT} ==> primary == status
    ensures var n := e.removals;
            && n.failures <= n.tries <= 2 && (n.spoolFailed ==> spooled && !strikes(BeforeSpool))
            && (owned ==> (n.tries == 0 <==> NoRemoval(strikes, primary == 0, e.reported, n.spoolFailed)))
            && files.path == (if n.tries == n.failures then old(files.path) else None)
            && (!owned ==> n.tries == 0)
            && files.spool == if !spooled || strikes(BeforeSpool) || n.spoolFailed then old(files.spool) else None
  {
    document := Document(false, [], 0, None, []);
    var r, escaped := primary, false;
    if primary != 0 {
      if strikes(Handling) {
        r, escaped := 0, true;
      } else {
        escaped := files.Interrupted();
      }
    }
    var cleaned, stopped;
    ghost var n;
    cleaned, stopped, n := Cleanup(files, r, owned, spooled, strikes);
    e := Ending(false, n);
    if stopped || escaped || strikes(BeforeReceipt) {
      status := UNCAUGHT;
      return;
    }
    var doc := Document(cleaned == 0, t.counts, t.taken, if cleaned == 8 then cap else None,
                        if cleaned == 0 then t.sha256 else []);
    document := doc;
    ghost var reported, more;
    status, reported, more := Deliver(files, cleaned, owned, toStdout, receipt, render(doc), strikes);
    e := Ending(reported, Removals(n.tries + more.tries, n.failures + more.failures, n.spoolFailed));
  }

  /** What a run in file mode leaves at its two names, exactly. A spool stays when an interruption
      struck before its name was noted or before its removal, or the removal failed. A published
      path stays when no removal was due, or all of them failed. */
  ghost predicate Leaves(c: Course, e: Ending, finished: bool, strikes: Moment -> bool, source: seq<byte>,
                         path: Option<seq<byte>>, spool: Option<seq<byte>>)
  {
    && (spool.Some? <==>
          c.created && !c.published && (strikes(Creating) || strikes(BeforeSpool) || e.removals.spoolFailed))
    && (c.taken ==> path == if c.published && e.removals.failures == e.removals.tries then Some(source) else None)
    && (c.created ==> (e.removals.tries == 0 <==> NoRemoval(strikes, finished, e.reported, e.removals.spoolFailed)))
  }

  /** Stdout mode: verify the input as it comes and forward its lines. */
  method ForwardToStdout(env: Env, wanted: Json -> bool, source: seq<byte>, cap: Option<nat>, files: Files,
                         stdout: Output)
    returns (status: int, t: Tally, ghost rows: seq<Record>, ghost last: Reader, ghost accepted: seq<byte>,
             ghost inWrite: bool)
    requires Standard(env)
    modifies files`failures, files`stops, stdout
    ensures Charged(status, files, stdout) && status != UNCAUGHT
    ensures Accepted(env, wanted, source, Capped(source, cap), rows, last, accepted)
    ensures Sent(true, inWrite, old(stdout.sent), accepted, stdout.sent) && (inWrite ==> status == 5 || status == 7)
    ensures status == 0 ==>
              && Verified(env, wanted, source, rows, last) && accepted == source
              && t == Tally(last.counts, |source|, env.digest(last.hashed))
    ensures status == 8 ==>
              && Capped(source, cap) != source && t.taken == cap.value + 1
              && t.counts == CappedCounts(env, Capped(source, cap))
    ensures Decided(status, StatusOf(env, wanted, source, cap), source)
  {
    var stream := new Input(source, cap, true);
    var counts, sha256;
    status, counts, sha256, rows, last, accepted, inWrite := Verify(env, wanted, stream, stdout, true);
    files.failures, files.stops := files.failures + stream.failures, files.stops + stream.stops;
    t := Tally(counts, stream.taken, sha256);
  }

  /** The main stage in either mode. */
  method MainStage(env: Env, wanted: Json -> bool, source: seq<byte>, cap: Option<nat>, toStdout: bool, jailed: bool,
                   files: Files, stdout: Output, strikes: Moment -> bool)
    returns (primary: int, owns: bool, spooled: bool, t: Tally, ghost c: Course,
             ghost rows: seq<Record>, ghost last: Reader, ghost accepted: seq<byte>, ghost inWrite: bool)
    requires Standard(env) && files.spool.None?
    modifies files, stdout
    ensures Charged(if Struck(strikes) then 0 else primary, files, stdout) && primary != UNCAUGHT
    ensures primary == 0 ==>
              Verified(env, wanted, source, rows, last) && t == Tally(last.counts, |source|, env.digest(last.hashed))
    ensures primary == 8 ==>
              && Capped(source, cap) != source && t.taken == cap.value + 1
              && t.counts == if toStdout then CappedCounts(env, Capped(source, cap)) else []
    ensures toStdout ==>
              && !owns && !spooled && files.path == old(files.path) && files.spool.None?
              && Accepted(env, wanted, source, Capped(source, cap), rows, last, accepted)
              && Sent(true, inWrite, old(stdout.sent), accepted, stdout.sent)
              && (inWrite ==> primary == 5 || primary == 7) && (primary == 0 ==> accepted == source)
    ensures !toStdout ==>
              && stdout.sent == old(stdout.sent) && (!c.taken ==> files.path == old(files.path))
              && Stage(c, owns, spooled, strikes, source, files.path, files.spool, primary)
    ensures Decided(primary, Expected(env, wanted, source, cap, toStdout, jailed), source)
  {
    owns, spooled, c, accepted, inWrite := false, false, Course(false, false, false), [], false;
    if toStdout {
      primary, t, rows, last, accepted, inWrite := ForwardToStdout(env, wanted, source, cap, files, stdout);
    } else {
      primary, owns, spooled, t, c, rows, last :=
        SpoolAndPublish(env, wanted, source, cap, jailed, files, strikes);
    }
  }

  /** A whole run. Zero: the input is one verified sink, all of it is on stdout or at the path, and
      the complete receipt is written. Stdout only ever holds accepted lines, the last of them cut
      short only by a write that failed or was stopped. Unless something fails or is stopped the
      status depends on nothing but the bytes, the cap and the mode. */
  method Finalize(env: Env, wanted: Json -> bool, source: seq<byte>, cap: Option<nat>, toStdout: bool, jailed: bool,
                  files: Files, stdout: Output, receipt: Output, render: Document -> seq<byte>,
                  strikes: Moment -> bool)
    returns (status: int, ghost c: Course, ghost e: Ending, ghost finished: bool, ghost document: Document,
             ghost rows: seq<Record>, ghost last: Reader, ghost accepted: seq<byte>, ghost inWrite: bool)
    requires Standard(env) && files.spool.None? && stdout != receipt
    requires forall d :: render(d) != []
    modifies files, stdout, receipt
    ensures old(receipt.sent) <= receipt.sent <= old(receipt.sent) + render(document)
    ensures status == 0 ==>
              && Verified(env, wanted, source, rows, last)
              && document == Document(true, last.counts, |source|, None, env.digest(last.hashed))
              && receipt.sent == old(receipt.sent) + render(document)
              && (if toStdout then stdout.sent == old(stdout.sent) + source
                  else files.path == Some(source) && files.spool.None?)
    ensures document.complete && receipt.sent == old(receipt.sent) + render(document) ==>
              (status == 0 <==> !strikes(Sealing) && !strikes(Leaving))
    ensures toStdout ==> files.path == old(files.path) && files.spool.None?
    ensures toStdout ==>
              && Accepted(env, wanted, source, Capped(source, cap), rows, last, accepted)
              && Sent(true, inWrite, old(stdout.sent), accepted, stdout.sent)
              && (inWrite ==> status in {5, 7, UNCAUGHT})
    ensures !toStdout ==> stdout.sent == old(stdout.sent)
    ensures !toStdout ==> Leaves(c, e, finished, strikes, source, files.path, files.spool)
    ensures !toStdout && !c.taken ==> status != 0 && files.path == old(files.path) && files.spool.None?
    ensures (forall m :: !strikes(m)) && e.removals.failures == 0 && !e.removals.spoolFailed ==>
              (!toStdout && c.taken && status != 0 ==> files.path.None? && files.spool.None?)
    ensures status == 8 ==>
              && Capped(source, cap) != source && document == Document(false, document.counts, cap.value + 1, cap, [])
              && document.counts == if toStdout then CappedCounts(env, Capped(source, cap)) else []
    ensures status == 5 && !Struck(strikes) ==>
              old(files.failures + stdout.failures + receipt.failures)
              < files.failures + stdout.failures + receipt.failures
    ensures (status == 7 || status == UNCAUGHT) && !Struck(strikes) ==>
              old(files.stops + stdout.stops + receipt.stops) < files.stops + stdout.stops + receipt.stops
    ensures status == UNCAUGHT || Decided(status, Expected(env, wanted, source, cap, toStdout, jailed), source)
  {
    var t, primary: int, owns, spooled;
    primary, owns, spooled, t, c, rows, last, accepted, inWrite :=
      MainStage(env, wanted, source, cap, toStdout, jailed, files, stdout, strikes);
    finished := primary == 0;
    status, document, e := Conclude(files, primary, owns, spooled, toStdout, receipt, render, t, cap, strikes);
  }

  /** Where no removal fails, it is the interruptions alone that leave something behind: before the
      spool was published, one that struck before its name was noted or before its removal; after
      that, one that struck before the first removal of the path was due. */
  lemma {:induction false} InterruptionLeaves(c: Course, e: Ending, finished: bool, strikes: Moment -> bool,
                                              source: seq<byte>, path: Option<seq<byte>>, spool: Option<seq<byte>>)
    requires Leaves(c, e, finished, strikes, source, path, spool) && c.created && c.taken
    requires e.removals.failures == 0 && !e.removals.spoolFailed
    ensures path.Some? || spool.Some? <==>
            if c.published then NoRemoval(strikes, finished, e.reported, false)
            else strikes(Creating) || strikes(BeforeSpool)
  {
  }
}
