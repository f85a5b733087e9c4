/** Publishing a bar file: rows are validated and packed in one pass, and the sidecar is the
    commit record. */
module BarPublisher {
  import opened BarDirectory
  import opened BarFeed
  import opened BarRecords
  import opened Bytes
  import opened Machine
  import opened Options

  const BUFFER_SIZE := 1048576

  // ----- files being written

  /** A file being written: what the kernel has of it, what the program still buffers, and
      whether an fsync covered all the kernel has. */
  datatype OpenFile<T> = OpenFile(written: seq<T>, buffered: seq<T>, synced: bool) {
    function Text(): seq<T> { written + buffered }
  }

  /** Any part of what is buffered may reach the kernel early. */
  method Write<T>(host: Host, f: OpenFile<T>, more: seq<T>) returns (ok: bool, g: OpenFile<T>)
    modifies host
    ensures host.Accounts(ok)
    ensures ok ==> g.Text() == f.Text() + more && !g.synced
  {
    ok := host.Call();
    if !ok { return ok, f; }
    var all, choice: int := f.buffered + more, *;
    var early := if 0 <= choice <= |all| then choice else 0;
    g := OpenFile(f.written + all[..early], all[early..], false);
    Regroup(f.written, f.buffered, more, early);
  }

  lemma {:induction false} Regroup<T>(a: seq<T>, b: seq<T>, c: seq<T>, n: nat)
    requires n <= |b + c|
    ensures a + (b + c)[..n] + (b + c)[n..] == a + b + c
  {
    assert (b + c)[..n] + (b + c)[n..] == b + c;
  }

  method Flush<T>(host: Host, f: OpenFile<T>) returns (ok: bool, g: OpenFile<T>)
    modifies host
    ensures host.Accounts(ok)
    ensures ok ==> g == OpenFile(f.Text(), [], false)
  {
    ok := host.Call();
    g := if ok then OpenFile(f.Text(), [], false) else f;
  }

  method Fsync<T>(host: Host, f: OpenFile<T>) returns (ok: bool, g: OpenFile<T>)
    modifies host
    ensures host.Accounts(ok)
    ensures ok ==> g == f.(synced := true)
  {
    ok := host.Call();
    g := if ok then f.(synced := true) else f;
  }

  /** A fixed buffer in front of a file; the digest is fed what the file is fed. */
  class PackedWriter {
    const host: Host
    var stream: OpenFile<byte>
    var hashed: seq<byte>
    var buffer: seq<byte>

    ghost predicate Valid()
      reads this
    {
      |buffer| <= BUFFER_SIZE && hashed == stream.Text()
    }

    ghost function Contents(): seq<byte>
      reads this
    {
      stream.Text() + buffer
    }

    constructor (host: Host)
      ensures this.host == host && Valid() && Contents() == []
    {
      this.host := host;
      stream, hashed, buffer := OpenFile([], [], false), [], [];
    }

    method FlushBuffer() returns (ok: bool)
      requires Valid()
      modifies this, host
      ensures host.Accounts(ok)
      ensures ok ==> Valid() && buffer == [] && stream.Text() == old(Contents())
    {
      ok, stream := Write(host, stream, buffer);
      if !ok { return; }
      hashed, buffer := hashed + buffer, [];
    }

    method Append(record: seq<byte>) returns (ok: bool)
      requires Valid() && |record| <= BUFFER_SIZE
      modifies this, host
      ensures host.Accounts(ok)
      ensures ok ==> Valid() && Contents() == old(Contents()) + record
    {
      if |buffer| + |record| > BUFFER_SIZE {
        ok := FlushBuffer();
        if !ok { return; }
      }
      buffer := buffer + record;
      ok := true;
    }

    /** Afterwards the kernel has all of it, durably. */
    method Sync() returns (ok: bool)
      requires Valid()
      modifies this, host
      ensures host.Accounts(ok)
      ensures ok ==> stream == OpenFile(old(Contents()), [], true) && hashed == old(Contents())
    {
      ok := FlushBuffer();
      if !ok { return; }
      ok, stream := Flush(host, stream);
      if !ok { return; }
      ok, stream := Fsync(host, stream);
    }
  }

  /** What a reader finds under a sidecar's name. */
  function SidecarContent(written: seq<Meta>): Content {
    if |written| == 1 then Document(written[0]) else Torn
  }

  // ----- the output directory

  /** `trace` records the directory after every operation: the places a crash can strike. */
  class Disk {
    const host: Host
    var durable: Directory
    var pending: seq<Op>
    ghost var trace: seq<Snapshot>

    constructor (host: Host, durable: Directory)
      ensures this.host == host && this.durable == durable && pending == [] && trace == []
    {
      this.host, this.durable, pending, trace := host, durable, [], [];
    }

    ghost function Now(): Snapshot
      reads this
    {
      Snapshot(durable, pending)
    }

    method Remove(name: Name) returns (existed: bool, ok: bool)
      modifies this, host
      ensures host.Accounts(ok)
      ensures durable == old(durable) && trace == old(trace) + [Now()]
      ensures ok ==> existed == (name in View(durable, old(pending)))
      ensures pending == if ok && existed then old(pending) + [Unlink(name)] else old(pending)
    {
      existed := name in View(durable, pending);
      ok := host.Call();
      if ok && existed { pending := pending + [Unlink(name)]; }
      trace := trace + [Now()];
    }

    /** The temporary file `file` gets the name. */
    method Rename(name: Name, file: File) returns (ok: bool)
      modifies this, host
      ensures host.Accounts(ok)
      ensures durable == old(durable) && trace == old(trace) + [Now()]
      ensures pending == if ok then old(pending) + [Replace(name, file)] else old(pending)
    {
      ok := host.Call();
      if ok { pending := pending + [Replace(name, file)]; }
      trace := trace + [Now()];
    }

    method Sync() returns (ok: bool)
      modifies this, host
      ensures host.Accounts(ok)
      ensures trace == old(trace) + [Now()]
      ensures if ok then durable == View(old(durable), old(pending)) && pending == []
              else durable == old(durable) && pending == old(pending)
    {
      ok := host.Call();
      if ok { durable, pending := View(durable, pending), []; }
      trace := trace + [Now()];
    }
  }

  // ----- the conversion

  datatype Outcome = Done(meta: Meta) | Refused(defect: Defect) | OutputFailure

  lemma {:induction false} FirstPairAppend(rows: seq<Row>, n: nat)
    requires 1 <= n < |rows|
    ensures FirstPair(rows[..n + 1]) ==
            if FirstPair(rows[..n]).Some? then FirstPair(rows[..n]) else PairError(rows[n - 1], rows[n])
  {
    if n == 1 {
      assert rows[..2][1..] == [rows[1]];
    } else {
      FirstPairAppend(rows[1..], n - 1);
      assert rows[1..][..n - 1] == rows[..n][1..] && rows[1..][..n] == rows[..n + 1][1..];
    }
  }

  lemma {:induction false} PrefixOfTail(rows: seq<Row>, n: nat)
    requires 2 <= n <= |rows| && StrictlyIncreasing(rows[..n])
    ensures StrictlyIncreasing(rows[1..][..n - 1]) && rows[0].stamp < rows[1].stamp
  {
    var all, tail := rows[..n], rows[1..][..n - 1];
    assert all[0].stamp < all[0 + 1].stamp;
    forall i | 0 <= i < |tail| - 1 ensures tail[i].stamp < tail[i + 1].stamp {
      assert tail[i] == all[i + 1] && tail[i + 1] == all[i + 1 + 1] && all[i + 1].stamp < all[i + 1 + 1].stamp;
    }
  }

  lemma {:induction false} DefectEndsPrefix(rows: seq<Row>, n: nat)
    requires 1 <= n < |rows| && StrictlyIncreasing(rows[..n]) && rows[n].stamp <= rows[n - 1].stamp
    ensures IncreasingPrefix(rows) == n
  {
    if n > 1 {
      PrefixOfTail(rows, n);
      DefectEndsPrefix(rows[1..], n - 1);
    }
  }

  /** The metadata of a packed generation describes its files. */
  function MetaOf(rows: seq<Row>, feed: bool): Meta
    requires rows != []
  {
    Meta(|rows|, rows[0].stamp, rows[|rows| - 1].stamp, Sha(PackBars(rows)),
         if feed then Some(Sha(PackCloses(rows))) else None)
  }

  lemma {:induction false} MetaDescribes(rows: seq<Row>, feed: bool)
    requires rows != [] && forall i | 0 <= i < |rows| :: RowOk(rows[i])
    ensures DescribesBars(MetaOf(rows, feed), PackBars(rows))
    ensures feed ==> DescribesCloses(MetaOf(rows, feed), PackCloses(rows))
  {
    var n, bars := |rows|, PackBars(rows);
    RecordStamp(rows, 0);
    RecordStamp(rows, n - 1);
    EndRecords(bars, n);
  }

  /** The first and last records of a file of `n` records. */
  lemma {:induction false} EndRecords(bars: seq<byte>, n: nat)
    requires n > 0 && |bars| == BAR_SIZE * n
    ensures bars[..BAR_SIZE] == bars[BAR_SIZE * 0..BAR_SIZE * (0 + 1)]
    ensures bars[BAR_SIZE * (n - 1)..] == bars[BAR_SIZE * (n - 1)..BAR_SIZE * (n - 1 + 1)]
  {
    assert BAR_SIZE * (n - 1 + 1) == |bars|;
  }

  lemma {:induction false} RecordStamp(rows: seq<Row>, i: nat)
    requires i < |rows| && RowOk(rows[i])
    ensures |PackBars(rows)| == BAR_SIZE * |rows| && |PackCloses(rows)| == CLOSE_SIZE * |rows|
    ensures UnpackBar(PackBars(rows)[BAR_SIZE * i..BAR_SIZE * (i + 1)]).stamp == rows[i].stamp
  {
    FileRoundTrip(rows, i);
  }

  /** One row goes to both files. */
  method PackRow(row: Row, feed: bool, bars: PackedWriter, closes: PackedWriter) returns (ok: bool)
    requires bars != closes && bars.Valid() && closes.Valid()
    requires bars.host == closes.host
    modifies bars, closes, bars.host
    ensures bars.host.Accounts(ok)
    ensures ok ==> bars.Valid() && closes.Valid()
    ensures ok ==> bars.Contents() == old(bars.Contents()) + PackBar(row)
    ensures ok && feed ==> closes.Contents() == old(closes.Contents()) + PackClose(row)
  {
    ok := bars.Append(PackBar(row));
    if ok && feed { ok := closes.Append(PackClose(row)); }
  }

  /** Rows packed, with the first neighbour defect deferred; or the defect that stops the pass. */
  datatype Pass = Packed(pending: Option<Defect>) | Stopped(defect: Defect) | WriteFailed

  /** The checks of row `i` against the one before it: a feed defers its first defect, a chart
      stops at an unordered row, and both stop at too many. */
  method Examine(rows: seq<Row>, i: nat, feed: bool, pending: Option<Defect>)
    returns (stop: Option<Defect>, next: Option<Defect>)
    requires i < |rows| && i <= MAX_COUNT
    requires if feed then pending == FirstPair(rows[..i]) else pending.None? && StrictlyIncreasing(rows[..i])
    ensures stop.None? ==>
              && i < MAX_COUNT
              && if feed then next == FirstPair(rows[..i + 1]) else next.None? && StrictlyIncreasing(rows[..i + 1])
    ensures stop.Some? && stop.value != TooManyBars ==>
              !feed && stop.value == OutOfOrder && IncreasingPrefix(rows) < |rows|
                  && IncreasingPrefix(rows) <= MAX_COUNT
    ensures stop == Some(TooManyBars) ==> |rows| > MAX_COUNT && (feed || IncreasingPrefix(rows) > MAX_COUNT)
  {
    next := pending;
    if feed {
      if i > 0 {
        FirstPairAppend(rows, i);
        if pending.None? { next := PairError(rows[i - 1], rows[i]); }
      }
    } else if i > 0 && rows[i].stamp <= rows[i - 1].stamp {
      DefectEndsPrefix(rows, i);
      return Some(OutOfOrder), next;
    } else {
      PrefixGrows(rows, i);
    }
    if i + 1 > MAX_COUNT {
      if !feed { TooLong(rows, i + 1); }
      return Some(TooManyBars), next;
    }
    stop := None;
  }

  lemma {:induction false} PackMore(rows: seq<Row>, i: nat)
    requires i < |rows|
    ensures PackBars(rows[..i + 1]) == PackBars(rows[..i]) + PackBar(rows[i])
    ensures PackCloses(rows[..i + 1]) == PackCloses(rows[..i]) + PackClose(rows[i])
  {
    assert rows[..i + 1][..i] == rows[..i];
  }

  /** Row `i` behind those before it. */
  method PackNext(rows: seq<Row>, i: nat, feed: bool, bars: PackedWriter, closes: PackedWriter) returns (ok: bool)
    requires i < |rows| && bars != closes && bars.Valid() && closes.Valid() && bars.host == closes.host
    requires bars.Contents() == PackBars(rows[..i]) && (feed ==> closes.Contents() == PackCloses(rows[..i]))
    modifies bars, closes, bars.host
    ensures bars.host.Accounts(ok)
    ensures ok ==> bars.Valid() && closes.Valid() && bars.Contents() == PackBars(rows[..i + 1])
    ensures ok && feed ==> closes.Contents() == PackCloses(rows[..i + 1])
  {
    PackMore(rows, i);
    ok := PackRow(rows[i], feed, bars, closes);
  }

  /** The one pass over the rows. */
  method PackRows(rows: seq<Row>, feed: bool, bars: PackedWriter, closes: PackedWriter) returns (p: Pass)
    requires rows != [] && bars != closes && bars.Valid() && closes.Valid()
    requires bars.Contents() == [] && closes.Contents() == []
    requires bars.host == closes.host
    modifies bars, closes, bars.host
    ensures bars.host.Accounts(!p.WriteFailed?)
    ensures p.Packed? ==>
              && |rows| <= MAX_COUNT && bars.Valid() && closes.Valid()
              && bars.Contents() == PackBars(rows) && (feed ==> closes.Contents() == PackCloses(rows))
              && (if feed then p.pending == FirstPair(rows) else p.pending.None? && IncreasingPrefix(rows) == |rows|)
    ensures p.Stopped? && p.defect != TooManyBars ==>
              !feed && p.defect == OutOfOrder && IncreasingPrefix(rows) < |rows| && IncreasingPrefix(rows) <= MAX_COUNT
    ensures p.Stopped? && p.defect == TooManyBars ==>
              |rows| > MAX_COUNT && (feed || IncreasingPrefix(rows) > MAX_COUNT)
  {
    var pending: Option<Defect>, stop: Option<Defect> := None, None;
    for i := 0 to |rows|
      invariant bars.host.Accounts(true)
      invariant i <= MAX_COUNT && bars.Valid() && closes.Valid()
      invariant bars.Contents() == PackBars(rows[..i]) && (feed ==> closes.Contents() == PackCloses(rows[..i]))
      invariant if feed then pending == FirstPair(rows[..i]) else pending.None? && StrictlyIncreasing(rows[..i])
    {
      stop, pending := Examine(rows, i, feed, pending);
      if stop.Some? { return Stopped(stop.value); }
      var ok := PackNext(rows, i, feed, bars, closes);
      if !ok { return WriteFailed; }
    }
    assert rows[..|rows|] == rows;
    if !feed { PrefixIncreases(rows); }
    p := Packed(pending);
  }

  lemma {:induction false} PrefixGrows(rows: seq<Row>, n: nat)
    requires n < |rows| && StrictlyIncreasing(rows[..n]) && (n > 0 ==> rows[n - 1].stamp < rows[n].stamp)
    ensures StrictlyIncreasing(rows[..n + 1])
  {
    var all := rows[..n + 1];
    forall i | 0 <= i < |all| - 1 ensures all[i].stamp < all[i + 1].stamp {
      if i < n - 1 { assert rows[..n][i].stamp < rows[..n][i + 1].stamp; }
    }
  }

  lemma {:induction false} TooLong(rows: seq<Row>, n: nat)
    requires n <= |rows| && StrictlyIncreasing(rows[..n])
    ensures n <= IncreasingPrefix(rows) || n == 0
  {
    if n >= 2 {
      PrefixOfTail(rows, n);
      TooLong(rows[1..], n - 1);
    }
  }

  /** Every directory state recorded since `from` survives a crash. */
  ghost predicate SafeSince(trace: seq<Snapshot>, from: nat) {
    from <= |trace| && forall i | from <= i < |trace| :: CrashSafe(trace[i])
  }

  /** The old commit record, if one is to be seen, disappears durably before anything of its
      generation is replaced. */
  method Retire(disk: Disk) returns (ok: bool)
    requires CrashSafe(disk.Now())
    modifies disk, disk.host
    ensures disk.host.Accounts(ok)
    ensures old(disk.trace) <= disk.trace && SafeSince(disk.trace, |old(disk.trace)|)
    ensures ok ==> Sidecar !in View(disk.durable, disk.pending)
    ensures ok ==> if Sidecar in View(old(disk.durable), old(disk.pending)) then Withdrawn(disk.Now())
                   else disk.Now() == old(disk.Now())
    ensures !ok ==>
              || disk.Now() == old(disk.Now())
              || (Sidecar in View(old(disk.durable), old(disk.pending))
                  && disk.Now() == With(old(disk.Now()), Unlink(Sidecar)))
  {
    ghost var s := disk.Now();
    WithdrawalIsSafe(s);
    var existed;
    existed, ok := disk.Remove(Sidecar);
    if ok && existed {
      assert disk.Now() == With(s, Unlink(Sidecar));
      ViewMore(s.durable, s.pending, Unlink(Sidecar));
      ok := disk.Sync();
      if ok { WithdrawnIsSafe(disk.Now()); }
    }
  }

  /** One member of the new generation gets its name, durably. That is safe exactly when it is
      safe in the directory at hand, and always when no crash can bring a sidecar back. */
  method Install(disk: Disk, name: Name, file: File) returns (ok: bool)
    requires name != Sidecar && CrashSafe(disk.Now()) && Sidecar !in View(disk.durable, disk.pending)
    modifies disk, disk.host
    ensures disk.host.Accounts(ok)
    ensures old(disk.trace) <= disk.trace
    ensures CrashSafe(With(old(disk.Now()), Replace(name, file))) ==> SafeSince(disk.trace, |old(disk.trace)|)
    ensures Withdrawn(old(disk.Now())) ==>
              Withdrawn(disk.Now()) && CrashSafe(With(old(disk.Now()), Replace(name, file)))
    ensures ok ==> Withdrawn(disk.Now()) && disk.pending == []
    ensures ok ==> disk.durable == View(old(disk.durable), old(disk.pending))[name := file]
    ensures ok ==>
              |old(disk.trace)| < |disk.trace|
              && disk.trace[|old(disk.trace)|] == With(old(disk.Now()), Replace(name, file))
  {
    ghost var s, op := disk.Now(), Replace(name, file);
    if Withdrawn(s) {
      StaysWithdrawn(s, name, file);
      WithdrawnIsSafe(With(s, op));
    }
    ok := disk.Rename(name, file);
    assert disk.Now() == if ok then With(s, op) else s;
    if ok {
      ViewMore(s.durable, s.pending, op);
      ok := disk.Sync();
      if ok { WithdrawnIsSafe(disk.Now()); }
    }
  }

  method WriteSidecar(host: Host, meta: Meta) returns (ok: bool, file: File)
    modifies host
    ensures host.Accounts(ok)
    ensures ok ==> file == File(Document(meta), true)
  {
    var stream: OpenFile<Meta> := OpenFile([], [], false);
    ok, stream := Write(host, stream, [meta]);
    if ok { ok, stream := Flush(host, stream); }
    if ok { ok, stream := Fsync(host, stream); }
    file := File(SidecarContent(stream.written), stream.synced);
  }

  /** The commit: the sidecar of the new generation is flushed and gets its name, durably. */
  method Commit(disk: Disk, meta: Meta) returns (ok: bool)
    requires Sidecar !in disk.durable && disk.pending == []
    requires Published(disk.durable[Sidecar := File(Document(meta), true)])
    modifies disk, disk.host
    ensures disk.host.Accounts(ok)
    ensures old(disk.trace) <= disk.trace && SafeSince(disk.trace, |old(disk.trace)|)
    ensures Startable(disk.Now())
    ensures ok ==> disk.pending == [] && disk.durable == old(disk.durable)[Sidecar := File(Document(meta), true)]
  {
    ghost var d := disk.durable;
    PublishedIsStartable(d);
    var file;
    ok, file := WriteSidecar(disk.host, meta);
    if !ok { return; }
    CommitIsSafe(d, file);
    PublishedIsStartable(d[Sidecar := file]);
    ok := disk.Rename(Sidecar, file);
    assert disk.Now() == if ok then With(Snapshot(d, []), Replace(Sidecar, file)) else Snapshot(d, []);
    if ok { ok := disk.Sync(); }
  }

  /** The directory holds the packed rows and the sidecar that describes them. */
  ghost predicate Holds(d: Directory, rows: seq<Row>, feed: bool)
    requires rows != []
  {
    && Sidecar in d && d[Sidecar].content == Document(MetaOf(rows, feed))
    && BarFile in d && d[BarFile].content == Records(PackBars(rows))
    && (feed ==> CloseFile in d && d[CloseFile].content == Records(PackCloses(rows)))
  }

  /** Validate and pack all rows. */
  method PackFiles(host: Host, rows: seq<Row>, tail: Option<Defect>, feed: bool)
    returns (r: Option<Outcome>, bars: PackedWriter, closes: PackedWriter)
    requires rows != []
    modifies host
    ensures host.Accounts(r != Some(OutputFailure))
    ensures bars.host == closes.host == host
    ensures fresh(bars) && fresh(closes) && bars != closes
    ensures r.Some? ==> !r.value.Done?
    ensures r.Some? && r.value.Refused? ==> Reference(rows, tail, feed) == Some(r.value.defect)
    ensures r.None? ==>
              && Reference(rows, tail, feed).None? && bars.Valid() && closes.Valid()
              && bars.Contents() == PackBars(rows) && (feed ==> closes.Contents() == PackCloses(rows))
  {
    bars := new PackedWriter(host);
    closes := new PackedWriter(host);
    var p := PackRows(rows, feed, bars, closes);
    match p {
      case WriteFailed => return Some(OutputFailure), bars, closes;
      case Stopped(defect) => return Some(Refused(defect)), bars, closes;
      case Packed(pending) =>
        if tail.Some? { return Some(Refused(tail.value)), bars, closes; }
        if pending.Some? { return Some(Refused(pending.value)), bars, closes; }
        var last := rows[|rows| - 1];
        if feed && last.closeStamp <= last.stamp { return Some(Refused(CloseTimeInvalid(last.line))), bars, closes; }
    }
    r := None;
  }

  /** Flush a packed file, then give it its name. */
  method Place(disk: Disk, name: Name, w: PackedWriter) returns (ok: bool)
    requires name != Sidecar && CrashSafe(disk.Now()) && Sidecar !in View(disk.durable, disk.pending) && w.Valid()
    requires w.host == disk.host
    modifies disk, w, disk.host
    ensures disk.host.Accounts(ok)
    ensures old(disk.trace) <= disk.trace
    ensures var op := Replace(name, File(Records(old(w.Contents())), true));
            && (CrashSafe(With(old(disk.Now()), op)) ==> SafeSince(disk.trace, |old(disk.trace)|))
            && (Withdrawn(old(disk.Now())) ==> CrashSafe(With(old(disk.Now()), op)))
            && (ok ==> (SafeSince(disk.trace, |old(disk.trace)|) <==> CrashSafe(With(old(disk.Now()), op))))
            && (ok ==> disk.durable == View(old(disk.durable), old(disk.pending))[name := op.file])
    ensures Withdrawn(old(disk.Now())) ==> Withdrawn(disk.Now())
    ensures ok ==> disk.pending == [] && Withdrawn(disk.Now()) && w.hashed == old(w.Contents())
  {
    ghost var file := File(Records(w.Contents()), true);
    if Withdrawn(disk.Now()) {
      StaysWithdrawn(disk.Now(), name, file);
      WithdrawnIsSafe(With(disk.Now(), Replace(name, file)));
    }
    ok := w.Sync();
    if !ok { return; }
    ok := Install(disk, name, File(Records(w.stream.written), w.stream.synced));
  }

  /** The closes of a feed, behind its bars. */
  method PlaceCloses(disk: Disk, closes: PackedWriter, feed: bool) returns (ok: bool)
    requires Withdrawn(disk.Now()) && disk.pending == [] && closes.Valid() && closes.host == disk.host
    modifies disk, closes, disk.host
    ensures disk.host.Accounts(ok)
    ensures old(disk.trace) <= disk.trace && SafeSince(disk.trace, |old(disk.trace)|) && Withdrawn(disk.Now())
    ensures ok ==> disk.pending == [] && Sidecar !in disk.durable
    ensures ok ==> if feed then
                     && disk.durable == old(disk.durable)[CloseFile := File(Records(old(closes.Contents())), true)]
                     && closes.hashed == old(closes.Contents())
                   else disk.durable == old(disk.durable)
  {
    WithdrawnIsSafe(disk.Now());
    assert Keeps(disk.durable, [], disk.durable);
    ok := true;
    if feed {
      ok := Place(disk, CloseFile, closes);
      assert ok ==> Keeps(disk.durable, [], disk.durable);
    }
  }

  /** The bars, as an operation. */
  function NewBars(rows: seq<Row>): Op { Replace(BarFile, File(Records(PackBars(rows)), true)) }

  /** Validate and pack all rows, then place the bars and closes. */
  method BuildFiles(disk: Disk, rows: seq<Row>, tail: Option<Defect>, feed: bool) returns (r: Outcome)
    requires rows != [] && CrashSafe(disk.Now()) && Sidecar !in View(disk.durable, disk.pending)
    modifies disk, disk.host
    ensures disk.host.Accounts(!r.OutputFailure?)
    ensures old(disk.trace) <= disk.trace
    ensures CrashSafe(With(old(disk.Now()), NewBars(rows))) ==> SafeSince(disk.trace, |old(disk.trace)|)
    ensures Withdrawn(old(disk.Now())) ==>
              Withdrawn(disk.Now()) && CrashSafe(With(old(disk.Now()), NewBars(rows)))
    ensures r.Refused? ==> Reference(rows, tail, feed) == Some(r.defect) && disk.Now() == old(disk.Now())
    ensures r.Done? ==>
              && Reference(rows, tail, feed).None? && r.meta == MetaOf(rows, feed)
              && (SafeSince(disk.trace, |old(disk.trace)|) ==> CrashSafe(With(old(disk.Now()), NewBars(rows))))
              && disk.pending == [] && Sidecar !in disk.durable
              && BarFile in disk.durable && disk.durable[BarFile] == NewBars(rows).file
              && (feed ==>
                    CloseFile in disk.durable && disk.durable[CloseFile] == File(Records(PackCloses(rows)), true))
  {
    if Withdrawn(disk.Now()) {
      StaysWithdrawn(disk.Now(), BarFile, NewBars(rows).file);
      WithdrawnIsSafe(With(disk.Now(), NewBars(rows)));
    }
    var refusal, bars, closes := PackFiles(disk.host, rows, tail, feed);
    if refusal.Some? { return refusal.value; }
    var ok := Place(disk, BarFile, bars);
    if !ok { return OutputFailure; }
    assert disk.Now() == Snapshot(disk.durable, []) && Keeps(disk.durable, [], disk.durable);
    ok := PlaceCloses(disk, closes, feed);
    if !ok { return OutputFailure; }
    r := Done(Meta(|rows|, rows[0].stamp, rows[|rows| - 1].stamp, Sha(bars.hashed),
                   if feed then Some(Sha(closes.hashed)) else None));
  }

  /** Everything behind the withdrawal of the old sidecar. */
  method Publish(disk: Disk, rows: seq<Row>, tail: Option<Defect>, feed: bool) returns (r: Outcome)
    requires rows != [] && CrashSafe(disk.Now()) && Sidecar !in View(disk.durable, disk.pending)
    requires forall i | 0 <= i < |rows| :: RowOk(rows[i])
    modifies disk, disk.host
    ensures disk.host.Accounts(!r.OutputFailure?)
    ensures old(disk.trace) <= disk.trace
    ensures CrashSafe(With(old(disk.Now()), NewBars(rows))) ==> SafeSince(disk.trace, |old(disk.trace)|)
    ensures r.Done? && SafeSince(disk.trace, |old(disk.trace)|) ==> CrashSafe(With(old(disk.Now()), NewBars(rows)))
    ensures Withdrawn(old(disk.Now())) ==>
              Startable(disk.Now()) && CrashSafe(With(old(disk.Now()), NewBars(rows)))
    ensures r.Refused? ==> Reference(rows, tail, feed) == Some(r.defect) && disk.Now() == old(disk.Now())
    ensures r.Done? ==>
              && Reference(rows, tail, feed).None? && r.meta == MetaOf(rows, feed)
              && disk.pending == [] && Published(disk.durable) && Holds(disk.durable, rows, feed)
  {
    r := BuildFiles(disk, rows, tail, feed);
    if !r.Done? {
      if Withdrawn(disk.Now()) { WithdrawnIsSafe(disk.Now()); }
      return;
    }
    MetaDescribes(rows, feed);
    var ok := Commit(disk, r.meta);
    if !ok { return OutputFailure; }
  }

  /** The whole conversion in durable mode. Any system call may fail, and a crash may strike
      after any directory operation: whatever it leaves, a sidecar in place describes exactly
      the files in place, if the start was `Startable`; a completed run that saw no old sidecar
      is safe exactly when its bars were. Only a removal that could not be made durable leaves a
      directory where a retry may not start. A refusal names the defect the rows call for, and
      success means that they call for none. */
  method ConvertCsv(disk: Disk, rows: seq<Row>, tail: Option<Defect>, feed: bool) returns (r: Outcome)
    requires CrashSafe(disk.Now())
    requires forall i | 0 <= i < |rows| :: RowOk(rows[i])
    modifies disk, disk.host
    ensures disk.host.Accounts(!r.OutputFailure?)
    ensures old(disk.trace) <= disk.trace
    ensures Startable(old(disk.Now())) ==> SafeSince(disk.trace, |old(disk.trace)|)
    ensures r.Done? && rows != [] && Sidecar !in View(old(disk.durable), old(disk.pending)) ==>
              (SafeSince(disk.trace, |old(disk.trace)|) <==> CrashSafe(With(old(disk.Now()), NewBars(rows))))
    ensures Startable(old(disk.Now())) ==>
              (Startable(disk.Now()) <==>
               !(Sidecar in View(old(disk.durable), old(disk.pending))
                 && disk.Now() == With(old(disk.Now()), Unlink(Sidecar))))
    ensures r.Refused? ==> DefectIs(rows, tail, feed, r.defect)
    ensures rows == [] ==> !r.Done? && disk.Now() == old(disk.Now())
    ensures r.Refused? && rows != [] ==> Sidecar !in View(disk.durable, disk.pending)
    ensures r.Done? ==>
              && 0 < |rows| <= MAX_COUNT && tail.None?
              && (if feed then WellTimed(rows) else StrictlyIncreasing(rows))
              && r.meta.count == |rows| && r.meta.firstStamp == rows[0].stamp
              && r.meta.lastStamp == rows[|rows| - 1].stamp && r.meta.sha == Sha(PackBars(rows))
              && r.meta.closeSha == (if feed then Some(Sha(PackCloses(rows))) else None)
              && disk.pending == [] && Published(disk.durable) && Holds(disk.durable, rows, feed)
  {
    ghost var s, seen := disk.Now(), Sidecar in View(disk.durable, disk.pending);
    if seen { PendingRemovalIsNotStartable(s); }
    var ok := disk.host.Call();               // the output names are regular files
    if !ok { return OutputFailure; }
    if rows == [] { return Refused(if tail.Some? then tail.value else NoBars); }
    ok := disk.host.Call();                   // the directory can be opened
    if !ok { return OutputFailure; }
    ok := Retire(disk);
    if !ok { return OutputFailure; }
    if Withdrawn(disk.Now()) { WithdrawnIsSafe(disk.Now()); }
    r := Publish(disk, rows, tail, feed);
    if r.Refused? { ReferenceIs(rows, tail, feed, r.defect); }
    FeedAcceptance(rows, tail);
    ChartAcceptance(rows, tail);
  }

  predicate Publishable(rows: seq<Row>) {
    (forall i | 0 <= i < |rows| :: RowOk(rows[i])) && Reference(rows, None, false).None?
  }

  lemma {:induction false} SoleIsPublishable(rows: seq<Row>)
    requires |rows| == 1 && RowOk(rows[0])
    ensures Publishable(rows)
  {
  }

  /** One of two sole bars differs from given ones. */
  lemma {:induction false} OtherBars(bars: seq<byte>, a: seq<Row>, b: seq<Row>) returns (rows: seq<Row>)
    requires |a| == |b| == 1 && RowOk(a[0]) && RowOk(b[0]) && a[0].stamp != b[0].stamp
    ensures Publishable(rows) && rows != [] && PackBars(rows) != bars
  {
    SoleIsPublishable(a);
    SoleIsPublishable(b);
    DifferentBars(a, b);
    rows := if PackBars(a) == bars then b else a;
  }

  lemma {:induction false} DifferentBars(a: seq<Row>, b: seq<Row>)
    requires a != [] && b != [] && RowOk(a[0]) && RowOk(b[0]) && a[0].stamp != b[0].stamp
    ensures PackBars(a) != PackBars(b)
  {
    RecordStamp(a, 0);
    RecordStamp(b, 0);
  }

  /** Exactly where a run may start: a crash-safe directory is `Startable` when the old sidecar
      is to be seen, or when all bars that can be published are safe as soon as they are named. */
  lemma {:induction false} StartIsExact(s: Snapshot)
    requires CrashSafe(s)
    ensures Startable(s) <==>
            || Sidecar in View(s.durable, s.pending)
            || forall rows | Publishable(rows) && rows != [] :: CrashSafe(With(s, NewBars(rows)))
  {
    if Withdrawn(s) {
      forall rows | Publishable(rows) && rows != [] ensures CrashSafe(With(s, NewBars(rows))) {
        StaysWithdrawn(s, BarFile, NewBars(rows).file);
        WithdrawnIsSafe(With(s, NewBars(rows)));
      }
    } else {
      var stale: Directory :| Keeps(s.durable, s.pending, stale) && Sidecar in stale;
      SafeHasBars(s, stale);
      var a := Row(0, 0, 0, 0, 0, 0, 1, 0);
      var rows := OtherBars(stale[BarFile].content.bytes, [a], [a.(stamp := 1)]);
      OtherStartsAreUnsafe(s, stale, NewBars(rows).file);
    }
  }
}
