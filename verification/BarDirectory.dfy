/** The output directory of the bar publisher and what a crash may leave of it: a durable part
    plus operations the kernel has not made durable yet; a crash keeps any of those. */
module BarDirectory {
  import opened BarRecords
  import opened Bytes
  import opened Options

  /** SHA-256, taken to be injective. */
  datatype Digest = Sha(bytes: seq<byte>)

  datatype Meta = Meta(count: nat, firstStamp: int, lastStamp: int, sha: Digest, closeSha: Option<Digest>)

  datatype Name = BarFile | CloseFile | Sidecar

  /** A sidecar is one document; anything else in its place is torn. */
  datatype Content = Records(bytes: seq<byte>) | Document(meta: Meta) | Torn

  /** `synced`: an fsync covered all the contents before the file got its name. */
  datatype File = File(content: Content, synced: bool)

  type Directory = map<Name, File>

  /** Directory operations on the three published names. Temporary names carry no meaning for
      a reader, so they are left out. */
  datatype Op = Replace(name: Name, file: File) | Unlink(name: Name)

  datatype Snapshot = Snapshot(durable: Directory, pending: seq<Op>)

  function With(s: Snapshot, op: Op): Snapshot { Snapshot(s.durable, s.pending + [op]) }

  function Apply(d: Directory, op: Op): Directory {
    match op
    case Replace(name, file) => d[name := file]
    case Unlink(name) => d - {name}
  }

  /** The live view: everything applied. */
  function View(d: Directory, ops: seq<Op>): Directory
    decreases ops
  {
    if ops == [] then d else View(Apply(d, ops[0]), ops[1..])
  }

  /** After a crash any subsequence of the pending operations has been kept. */
  ghost predicate Keeps(d: Directory, ops: seq<Op>, after: Directory)
    decreases ops
  {
    if ops == [] then after == d
    else Keeps(d, ops[1..], after) || Keeps(Apply(d, ops[0]), ops[1..], after)
  }

  /** What a reader may find: contents that were not flushed may be anything. */
  ghost predicate MayRead(d: Directory, contents: map<Name, Content>) {
    && contents.Keys == d.Keys
    && forall name | name in d && d[name].synced :: contents[name] == d[name].content
  }

  /** The sidecar names the exact bytes of its files, their number and their first and last time. */
  ghost predicate DescribesBars(meta: Meta, bars: seq<byte>) {
    && meta.count > 0 && |bars| == BAR_SIZE * meta.count && meta.sha == Sha(bars)
    && meta.firstStamp == UnpackBar(bars[..BAR_SIZE]).stamp
    && meta.lastStamp == UnpackBar(bars[BAR_SIZE * (meta.count - 1)..]).stamp
  }

  ghost predicate DescribesCloses(meta: Meta, closes: seq<byte>) {
    |closes| == CLOSE_SIZE * meta.count && meta.closeSha == Some(Sha(closes))
  }

  /** A sidecar in place describes exactly the files in place. */
  ghost predicate Paired(contents: map<Name, Content>) {
    Sidecar in contents ==>
      && contents[Sidecar].Document? && BarFile in contents && contents[BarFile].Records?
      && DescribesBars(contents[Sidecar].meta, contents[BarFile].bytes)
      && (contents[Sidecar].meta.closeSha.Some? ==>
            && CloseFile in contents && contents[CloseFile].Records?
            && DescribesCloses(contents[Sidecar].meta, contents[CloseFile].bytes))
  }

  /** The reader's check of a sidecar against what it found in the files; digests only when it
      computed them. */
  predicate CheckSidecar(meta: Meta, count: nat, first: int, last: int, sha: Option<Digest>, closeSha: Option<Digest>,
                         feed: bool)
  {
    && meta.count == count && meta.firstStamp == first && meta.lastStamp == last
    && (feed ==> meta.closeSha.Some?)
    && (sha.Some? ==> meta.sha == sha.value)
    && (feed && closeSha.Some? ==> meta.closeSha == closeSha)
  }

  /** Where a sidecar describes its files, a reader that never hashes them accepts exactly when
      one that hashes both does, and both accept unless closes are asked of a chart. */
  lemma {:induction false} SidecarOnlyIsEnough(contents: map<Name, Content>, feed: bool)
    requires Paired(contents) && Sidecar in contents
    ensures var meta, bars := contents[Sidecar].meta, contents[BarFile].bytes;
            var count := |bars| / BAR_SIZE;
            && |bars| % BAR_SIZE == 0 && count > 0
            && var first, last := UnpackBar(bars[..BAR_SIZE]).stamp, UnpackBar(bars[BAR_SIZE * (count - 1)..]).stamp;
               var closeSha := if CloseFile in contents && contents[CloseFile].Records?
                               then Some(Sha(contents[CloseFile].bytes)) else None;
               && (CheckSidecar(meta, count, first, last, None, None, feed) <==>
                   CheckSidecar(meta, count, first, last, Some(Sha(bars)), closeSha, feed))
               && (CheckSidecar(meta, count, first, last, None, None, feed) <==> !feed || meta.closeSha.Some?)
  {
    var meta, bars := contents[Sidecar].meta, contents[BarFile].bytes;
    assert |bars| == BAR_SIZE * meta.count && |bars| / BAR_SIZE == meta.count;
  }

  /** The check refuses whatever differs from the files: the number of bars, the first or last time,
      a digest that was computed, and the digest of the closes of a feed even when it is missing. */
  lemma {:induction false} CheckRefusesDifferences(meta: Meta, count: nat, first: int, last: int, sha: Option<Digest>,
                                                   closeSha: Option<Digest>, feed: bool)
    ensures meta.count != count ==> !CheckSidecar(meta, count, first, last, sha, closeSha, feed)
    ensures meta.firstStamp != first ==> !CheckSidecar(meta, count, first, last, sha, closeSha, feed)
    ensures meta.lastStamp != last ==> !CheckSidecar(meta, count, first, last, sha, closeSha, feed)
    ensures sha.Some? && meta.sha != sha.value ==> !CheckSidecar(meta, count, first, last, sha, closeSha, feed)
    ensures feed && meta.closeSha.None? ==> !CheckSidecar(meta, count, first, last, sha, closeSha, feed)
    ensures feed && closeSha.Some? && meta.closeSha != closeSha ==>
              !CheckSidecar(meta, count, first, last, sha, closeSha, feed)
  {
  }

  /** Any bytes of whole bars and closes: a reader that hashes them accepts a sidecar exactly when
      the sidecar describes them. */
  lemma {:induction false} FullCheckIsExact(meta: Meta, bars: seq<byte>, closes: seq<byte>, feed: bool)
    requires bars != [] && |bars| % BAR_SIZE == 0 && (feed ==> |closes| == CLOSE_SIZE * (|bars| / BAR_SIZE))
    ensures var count := |bars| / BAR_SIZE;
            var first, last := UnpackBar(bars[..BAR_SIZE]).stamp, UnpackBar(bars[BAR_SIZE * (count - 1)..]).stamp;
            CheckSidecar(meta, count, first, last, Some(Sha(bars)), Some(Sha(closes)), feed) <==>
            DescribesBars(meta, bars) && (feed ==> DescribesCloses(meta, closes))
  {
    var count := |bars| / BAR_SIZE;
    assert |bars| == BAR_SIZE * count && count > 0;
    if DescribesBars(meta, bars) { assert meta.count == count; }
  }

  ghost predicate CrashSafe(s: Snapshot) {
    forall after, contents | Keeps(s.durable, s.pending, after) && MayRead(after, contents) :: Paired(contents)
  }

  /** A published generation, flushed. */
  ghost predicate Published(d: Directory) {
    Sidecar in d ==>
      && d[Sidecar].synced && d[Sidecar].content.Document?
      && BarFile in d && d[BarFile].synced && d[BarFile].content.Records?
      && DescribesBars(d[Sidecar].content.meta, d[BarFile].content.bytes)
      && (d[Sidecar].content.meta.closeSha.Some? ==>
            && CloseFile in d && d[CloseFile].synced && d[CloseFile].content.Records?
            && DescribesCloses(d[Sidecar].content.meta, d[CloseFile].content.bytes))
  }

  /** With nothing pending, safe and published are the same. */
  lemma {:induction false} PublishedIsSafe(d: Directory)
    ensures CrashSafe(Snapshot(d, [])) <==> Published(d)
  {
    if CrashSafe(Snapshot(d, [])) && Sidecar in d {
      var contents := map name | name in d :: if d[name].synced then d[name].content else Torn;
      assert Keeps(d, [], d) && MayRead(d, contents) && Paired(contents);
    }
  }

  // ----- sequences of pending operations

  lemma {:induction false} ViewMore(d: Directory, ops: seq<Op>, op: Op)
    ensures View(d, ops + [op]) == Apply(View(d, ops), op)
    decreases ops
  {
    if ops == [] {
      assert ([] + [op])[1..] == [] && ([] + [op])[0] == op;
    } else {
      assert (ops + [op])[0] == ops[0] && (ops + [op])[1..] == ops[1..] + [op];
      ViewMore(Apply(d, ops[0]), ops[1..], op);
    }
  }

  lemma {:induction false} KeepsAll(d: Directory, ops: seq<Op>)
    ensures Keeps(d, ops, View(d, ops))
    decreases ops
  {
    if ops != [] { KeepsAll(Apply(d, ops[0]), ops[1..]); }
  }

  /** One more pending operation is kept or lost, whatever becomes of the others. */
  lemma {:induction false} KeepsMore(d: Directory, ops: seq<Op>, op: Op, after: Directory)
    ensures Keeps(d, ops + [op], after) <==>
            Keeps(d, ops, after) || exists before :: Keeps(d, ops, before) && after == Apply(before, op)
    decreases ops
  {
    if ops == [] {
      assert ([] + [op])[1..] == [] && ([] + [op])[0] == op;
      assert Keeps(d, [], d);
    } else {
      assert (ops + [op])[0] == ops[0] && (ops + [op])[1..] == ops[1..] + [op];
      KeepsMore(d, ops[1..], op, after);
      KeepsMore(Apply(d, ops[0]), ops[1..], op, after);
    }
  }

  /** The old commit record may be withdrawn at any time. */
  lemma {:induction false} WithdrawalIsSafe(s: Snapshot)
    requires CrashSafe(s)
    ensures CrashSafe(With(s, Unlink(Sidecar)))
  {
    var op := Unlink(Sidecar);
    forall after, contents | Keeps(s.durable, s.pending + [op], after) && MayRead(after, contents)
      ensures Paired(contents)
    {
      KeepsMore(s.durable, s.pending, op, after);
    }
  }

  /** No crash can bring a sidecar back. */
  ghost predicate Withdrawn(s: Snapshot) {
    forall after | Keeps(s.durable, s.pending, after) :: Sidecar !in after
  }

  lemma {:induction false} WithdrawnIsSafe(s: Snapshot)
    requires Withdrawn(s)
    ensures CrashSafe(s) && Sidecar !in View(s.durable, s.pending)
  {
    KeepsAll(s.durable, s.pending);
  }

  lemma {:induction false} StaysWithdrawn(s: Snapshot, name: Name, file: File)
    requires Withdrawn(s) && name != Sidecar
    ensures Withdrawn(With(s, Replace(name, file)))
  {
    var op := Replace(name, file);
    forall after | Keeps(s.durable, s.pending + [op], after) ensures Sidecar !in after {
      KeepsMore(s.durable, s.pending, op, after);
    }
  }

  /** A pending sidecar that describes the durable files is safe whether or not it is kept. */
  lemma {:induction false} CommitIsSafe(d: Directory, file: File)
    requires Sidecar !in d && Published(d[Sidecar := file])
    ensures CrashSafe(With(Snapshot(d, []), Replace(Sidecar, file)))
    ensures View(d, [] + [Replace(Sidecar, file)]) == d[Sidecar := file]
  {
    var op := Replace(Sidecar, file);
    PublishedIsSafe(d);
    PublishedIsSafe(d[Sidecar := file]);
    ViewMore(d, [], op);
    forall after, contents | Keeps(d, [] + [op], after) && MayRead(after, contents) ensures Paired(contents) {
      KeepsMore(d, [], op, after);
      assert Keeps(d, [], d) && Keeps(d[Sidecar := file], [], d[Sidecar := file]);
    }
  }

  // ----- where a run may start

  /** The run looks for the old sidecar and makes its removal durable only when it sees one. So
      either one is to be seen, or no crash can bring one back. */
  ghost predicate Startable(s: Snapshot) {
    CrashSafe(s) && (Sidecar in View(s.durable, s.pending) || Withdrawn(s))
  }

  lemma {:induction false} PublishedIsStartable(d: Directory)
    requires Published(d)
    ensures Startable(Snapshot(d, []))
  {
    PublishedIsSafe(d);
    if Sidecar !in d {
      forall after | Keeps(d, [], after) ensures Sidecar !in after {}
    }
  }

  /** A sidecar seen and removed, with the removal still pending, is no place to start. */
  lemma {:induction false} PendingRemovalIsNotStartable(s: Snapshot)
    requires Sidecar in View(s.durable, s.pending)
    ensures !Startable(With(s, Unlink(Sidecar)))
  {
    var op := Unlink(Sidecar);
    ViewMore(s.durable, s.pending, op);
    KeepsAll(s.durable, s.pending);
    KeepsMore(s.durable, s.pending, op, View(s.durable, s.pending));
  }

  lemma {:induction false} SafeHasBars(s: Snapshot, after: Directory)
    requires CrashSafe(s) && Keeps(s.durable, s.pending, after) && Sidecar in after
    ensures BarFile in after && after[BarFile].content.Records?
  {
    var contents := map name | name in after :: after[name].content;
    assert MayRead(after, contents) && Paired(contents);
  }

  /** From any other start, bars unlike those of a sidecar that may come back are unsafe as soon
      as they get their name. */
  lemma {:induction false} OtherStartsAreUnsafe(s: Snapshot, stale: Directory, file: File)
    requires CrashSafe(s) && Keeps(s.durable, s.pending, stale) && Sidecar in stale
    requires BarFile in stale && file.content != stale[BarFile].content
    ensures !CrashSafe(With(s, Replace(BarFile, file)))
  {
    var op := Replace(BarFile, file);
    var after := Apply(stale, op);
    KeepsMore(s.durable, s.pending, op, after);
    var found := map name | name in stale :: stale[name].content;
    assert MayRead(stale, found) && Paired(found);
    var contents := map name | name in after :: after[name].content;
    assert contents[Sidecar] == found[Sidecar];
    assert MayRead(after, contents) && !Paired(contents);
  }
}
