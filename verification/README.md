# Verified model of the PineForge run pipeline

PineForge runs a strategy inside a supervised process tree, streams its report through a pipe,
checks it, replays its accounting, converts it to JSON and compares engines on a sampled
population. This project models the Python that does this and proves what it promises:

- **Launcher** (`ProcessTable`, `Supervisor`, `Handshake`, `ProcChildren`): a process table with
  generations and reused numbers, in which the launcher's steps interleave with arbitrary forks,
  exits, reparenting and group changes; the setup/gate handshake as a second transition system.
- **Bar files** (`BarRecords`, `BarFeed`, `BarDirectory`, `BarPublisher`): packing, one-pass
  validation, and publication with a sidecar as commit record, over a directory of durable and
  pending operations with a crash after any of them, and files whose contents are lost unless an
  fsync covered them.
- **Report sink** (`Json`, `JsonGrammar`, `JsonComplete`, `JsonWriter`, `Utf8`, `Lexical`, `SinkFormat`,
  `SinkReader`, `SinkRoundTrip`, `SinkLine`, `SinkAcceptance`): the JSON decoder against the grammar of
  RFC 8259, the line grammar, the fold over lines with counts and a digest trailer, the reader
  object, and which lines and streams are accepted.
- **Finalizer** (`Framing`, `SinkStream`, `RecordOrder`, `RecordMeaning`, `SinkVerify`, `SinkExits`,
  `Finalizer`): capped reads, line bounds, forwarding, spooling, cleanup, receipt and exits, where any
  system call may fail and an interruption may strike between any two steps.
- **Relay** (`Relay`): a bounded copy between channels under a wall and a stall limit.
- **Replay** (`KeyedSums`, `Numbering`, `ReplaySlices`, `ReplayConservation`, `ReplayRecut`,
  `ReplayVerdicts`, `ReplayExact`, `ReplayBound`, `ReplayMeaning`, `ReplayReasons`, `ReplayAcceptance`):
  the companion stream, what exactly is accepted, why the rest is refused, and the accounting
  facts that acceptance implies.
- **Converter** (`TradeSummary`, `ColumnItems`, `ReportColumns`, `ReportWriter`, `ReportMeaning`): trade
  folds, encoded columns, the two routes to one report, and what the report says.
- **Population** (`Allocation`, `QuantileDraw`, `Selection`): largest-remainder slots, quantile
  draws, and the roll of slots with its replacements.

`Bytes`, `Options`, `Arithmetic` and `Machine` hold what several of them share.

## Reading the model

- Money, quantities and times of the clock are exact (`real`, `int`). The validator's ten-digit
  rounding is the identity, and its fixed tolerance is a parameter that may be any non-negative
  number; statements that need it to be zero say so.
- SHA-256 is an injective digest of the bytes, or a parameter where only its use matters.
- What a system call answers is chosen freely within its contract; a failure may come at any call.
  Ghost counters record what failed and what was interrupted, so that an error result is tied to its cause.
- A function that a program and its specification both use has a further lemma that says what it means in
  plain terms: fields, places, numbers and bytes.
- An interruption of the finalizer may strike between any two steps. Where it makes a difference to
  what is left behind, the moments it strikes at are a parameter, so that results can name them.
- Where a process could loop forever on interrupted calls, the world has a patience that bounds
  the calls seen. It is arbitrary, so what is proved holds at every moment of every run.
- Every lemma turns automatic induction off: what is by induction is written out.

## Model

| member | source | states |
|---|---|---|
| `ProcessTable.EventKeeps` | docker/pf_quota_run.py:353-365 | every fork, exit with its reparenting, subreaper change, collection, new session and group change keeps: births before now, distinct numbers, exits recorded, everyone below an older living parent, and membership in the run exactly below the launcher |
| `ProcessTable.ReaperIsAncestor` | docker/pf_quota_run.py:353-365 | the first living subreaper on the way up is an older living ancestor: orphans of the run stay below the launcher, and other orphans never come to it |
| `ProcessTable.EventKeepsGroup` | docker/pf_quota_run.py:1096-1126 | while the leader is unreaped, its number names a group and session held by members of the run only, across reuse of numbers |
| `ProcessTable.NoChildNoMember` | docker/pf_quota_run.py:1128-1145 | when the launcher has no child, no member of the run is left anywhere in the table |
| `ProcChildren.DirectChildren` | docker/pf_quota_run.py:956-977 | however procfs splits the file into reads, exactly the numbers of its whole text are listed, or the same fault |
| `ProcChildren.ListsEveryChild` | docker/pf_quota_run.py:956-977 | reading back the kernel's spelling lists exactly the children, in order |
| `ProcChildren.ListingIsStrict` | docker/pf_quota_run.py:956-977 | no listed number exceeds 2147483647, and any byte but a decimal digit, space, tab or line feed is a fault |
| `ProcChildren.ListsEveryWord` | docker/pf_quota_run.py:956-977 | whatever spaces, tabs and line feeds separate them, exactly the numbers of the words of a text are listed, in order |
| `Supervisor.StepKeeps` | docker/pf_quota_run.py:980-1145 | every step of the launcher and of the rest of the machine keeps the invariant |
| `Supervisor.RunKeeps` | docker/pf_quota_run.py:1016-1145 | the invariant holds in every reachable state |
| `Supervisor.KillsStayInTheRun` | docker/pf_quota_run.py:980-1126 | in every reachable state SIGKILL has only reached generations born into the run, never the launcher; everyone in the group, with the number or pinned when a signal step succeeded is on record from then on; and a kill is reported exactly when one of the three signals of `terminate` succeeded before |
| `Supervisor.KilledIs` | docker/pf_quota_run.py:980-1126 | who is on record is exactly who some earlier successful signal step reached at its own moment |
| `Supervisor.LeaderIsSignalled` | docker/pf_quota_run.py:1096-1126 | `terminate` always finds the leader unreaped and goes on to its signals in their order; a successful last signal reaches the leader, whose number never names nobody |
| `Supervisor.ReapReturnsClean` | docker/pf_quota_run.py:1128-1145 | reap returns only when no process of the run is left, alive or zombie, and with a status; none appears again in any continuation |
| `Supervisor.StatusIsTheLeaders` | docker/pf_quota_run.py:1128-1145 | a recorded raw status is the exit status of the leader's generation and never changes, even when its number is reused |
| `Supervisor.CleanupFaults` | docker/pf_quota_run.py:980-1013 | cleanup never ends without a status, and reports a changed child only if procfs listed a number that was none |
| `Handshake.RunKeeps` | docker/pf_quota_run.py:916-953 | in every reachable state of child, pipes and parent the log is a prefix of the protocol |
| `Handshake.CommandRunsOnlyThroughTheGate` | docker/pf_quota_run.py:1052-1087 | the command runs only after session, dropped privileges, READY, the parent's checks with the deadline open, and the gate byte, in that order |
| `Handshake.GateByteAtMostOnce` | docker/pf_quota_run.py:1052-1087 | the gate byte is written at most once in any run |
| `Handshake.ClosedGateNeverExecutes` | docker/pf_quota_run.py:1280-1295 | once the gate is closed unwritten, no continuation of the run executes the command |
| `Handshake.MarksAreFacts` | docker/pf_quota_run.py:1052-1087 | every mark in the log stands for a step taken when it was due: at the check of the leader the child has its session and has not exited, and at the clearance the deadline is not reached |
| `Handshake.ExpiredNeverExecutes` | docker/pf_quota_run.py:1080-1087 | a run is expired exactly when the deadline had been reached at the check before the gate, and then the gate byte is never written and the command never runs |
| `BarRecords.BarRoundTrip` | docker/pf_bars.py:28-32 | a packed record reads back to every field of its bar, signed time included |
| `BarRecords.BarBytes` | docker/pf_bars.py:28-32 | the value of every byte of a record: open, high, low, close, volume and time in this order, low byte first, negative times in two's complement |
| `BarRecords.FileRoundTrip` | docker/pf_bars.py:230-252 | the i-th record of the bar file and of the close file are those of the i-th row, and the sizes are exact |
| `BarFeed.FeedAcceptance` | docker/pf_bars.py:284-293 | a feed is accepted exactly when every row parsed, none is missing, the count fits, and open_i < close_i <= open_(i+1) for all bars |
| `BarFeed.ChartAcceptance` | docker/pf_bars.py:119-123 | a chart is accepted exactly when every row parsed, one is there, the count fits and times strictly increase |
| `BarFeed.ReferenceIs` | docker/pf_bars.py:284-356 | which defect is reported, by places: too many rows, then the defect of the reading, then the first pair that breaks open < close <= next open, named by the later line if times do not increase and by the earlier line otherwise, then the last close; a chart stops at its first time that does not increase |
| `BarPublisher.PackedWriter.Append` | docker/pf_bars.py:237-242 | the file, the digest input and the buffer together hold the old contents and the record, and the buffer stays within its size |
| `BarPublisher.PackedWriter.Sync` | docker/pf_bars.py:249-252 | the kernel has everything appended, an fsync covered it, and the digest was fed exactly that |
| `BarPublisher.Examine` | docker/pf_bars.py:336-347 | one row of the pass: the deferred defect is the first pair defect so far, and a stop names an unordered chart row or too many bars, as the whole sequence has them |
| `BarPublisher.PackRows` | docker/pf_bars.py:334-351 | the one pass packs exactly the rows, keeps the first pair defect for later, and stops where the whole sequence has its first stopping defect |
| `BarDirectory.PublishedIsSafe` | docker/pf_bars.py:311-376 | with nothing pending, a directory survives a crash exactly when a sidecar in it is flushed, its files are flushed, and it describes them |
| `BarDirectory.CommitIsSafe` | docker/pf_bars.py:370-376 | a flushed sidecar of flushed files is safe while its naming is pending, whether or not the crash keeps it |
| `BarDirectory.WithdrawalIsSafe` | docker/pf_bars.py:320-327 | removing the sidecar is crash safe in every crash-safe directory, whatever else is pending |
| `BarDirectory.PendingRemovalIsNotStartable` | docker/pf_bars.py:320-327 | a directory where a visible sidecar was removed and the removal is still pending is no place to start |
| `BarDirectory.OtherStartsAreUnsafe` | docker/pf_bars.py:320-327 | where a sidecar that is not to be seen may come back, bars unlike its own are unsafe as soon as they get their name |
| `BarPublisher.StartIsExact` | docker/pf_bars.py:311-376 | a crash-safe directory is a place to start exactly when the old sidecar is to be seen or all bars that can be published are safe there as soon as they are named |
| `BarDirectory.SidecarOnlyIsEnough` | docker/pf_bars.py:137-166 | where a sidecar describes its files, the reader's check without digests and the one with digests agree, and both accept unless closes are asked of a chart |
| `BarDirectory.CheckRefusesDifferences` | docker/pf_bars.py:137-166 | the check refuses when the count, first or last time or a computed digest differs, and when a feed's close digest is missing |
| `BarDirectory.FullCheckIsExact` | docker/pf_bars.py:137-166 | with both digests computed, the check accepts exactly the sidecars that describe the files |
| `BarPublisher.Retire` | docker/pf_bars.py:320-327 | a sidecar to be seen is durably gone before it returns well, every state on the way is crash safe from any crash-safe start, and only a failed directory sync leaves the removal pending |
| `BarPublisher.Install` | docker/pf_bars.py:357-363 | a member of the new generation gets its name durably; every state on the way is crash safe if the named file is in the directory at hand, and always if no crash can bring a sidecar back |
| `BarPublisher.Place` | docker/pf_bars.py:357-363 | the file is flushed before it gets its name: what is named is durable and is exactly what was packed |
| `BarPublisher.WriteSidecar` | docker/pf_bars.py:370-374 | the sidecar that is to be named is one whole document and an fsync covered it |
| `BarPublisher.Commit` | docker/pf_bars.py:369-376 | the flushed sidecar gets its name durably, every state on the way crash safe and fit to start from |
| `BarPublisher.ConvertCsv` | docker/pf_bars.py:296-378 | from a place to start, whatever fails and wherever a crash strikes, a sidecar in place describes exactly the files in place; a completed run that saw no old sidecar was safe exactly when its bars were; only a removal that could not be made durable leaves no place to start; a refusal names the defect the rows call for, an output failure means that a system call failed, and success that the rows are well timed and within the count; no first row leaves the old generation untouched; success leaves the packed rows and a sidecar with their number, first and last time and digests |
| `Json.ValueThen` | docker/pineforge_sink_to_json.py:597-627 | a value decoded up to a delimiter or the end is decoded the same whatever follows the delimiter (greedy numbers included) |
| `JsonGrammar.ValueIsRead` | docker/pf_sink.py:168-174 | what the decoder reads is a text of the grammar of RFC 8259, sections 2 to 7, or one of three constants, and spells the value it returns |
| `JsonComplete.ReadingIsExact` | docker/pf_sink.py:168-174 | a text is read whole as a value exactly when it spells that value: escapes, surrogate pairs, numbers and spaces included |
| `JsonWriter.ReadsBack` | docker/pf_sink.py:168-174 | decoding the compact spelling of any value yields the value and consumes all of it |
| `Utf8.DecodeReads` | docker/pf_sink.py:168-174 | strict UTF-8 decoding inverts encoding for all scalar values |
| `Utf8.DecodeIs` | docker/pf_sink.py:168-169 | and bytes are decoded only if they are the encoding of the result |
| `Utf8.EncodeIs` | docker/pf_sink.py:168-169 | the bits of every encoded character, high bits first |
| `Lexical.LexicalWalk` | docker/pf_sink.py:152-167 | the walk, skipped when no byte could be refused, refuses exactly the bodies with a space or control byte outside a string |
| `Lexical.WalkEncoded` | docker/pf_sink.py:152-167 | UTF-8 is invisible to the byte-wise walk |
| `Lexical.EncodePasses` | docker/pf_sink.py:152-167 | the compact spelling of a value passes the walk and contains no control character |
| `SinkFormat.StandardTerminates` | docker/pf_sink.py:141-146 | an unterminated line is an incomplete stream |
| `SinkFormat.TruncatedRun` | docker/pf_sink.py:334-422 | every truncation behind the header yields a prefix of the same records and is refused as incomplete |
| `SinkFormat.ExtendedRun` | docker/pf_sink.py:381-399 | every extension yields the same records and is refused at its trailer |
| `SinkFormat.TruncatedIsIncomplete` | docker/pf_sink.py:334-422 | every truncation of an accepted stream is refused, as incomplete |
| `SinkFormat.ExtendedIsRefused` | docker/pf_sink.py:381-399 | every extension of an accepted stream is refused, for what follows the trailer |
| `SinkFormat.PrefixFree` | docker/pf_sink.py:334-422 | no accepted stream is a proper prefix of another |
| `SinkRoundTrip.LineSpells` | docker/pf_sink.py:141-174 | the compact line of an array or object is one line and parses to that value |
| `SinkRoundTrip.SinkReads` | docker/pf_sink.py:334-422 | lines that spell a header, conforming records and the matching trailer read back to exactly that header, those records, one count per record of each type, and the digest of all bytes before the trailer |
| `SinkRoundTrip.RecordSpells` | docker/pf_sink.py:285-298 | every conforming record has such a line unless it is too long |
| `SinkRoundTrip.TrailerSpells` | docker/pf_sink.py:381-399 | so has every trailer with counts within the exact integer bound |
| `SinkLine.LineIsExact` | docker/pf_sink.py:141-174 | a line is taken for a value exactly when it is at most 1 MiB of UTF-8 with its line feed, spells the value without insignificant space, and everything in the value is in bounds: exact integers, finite doubles, no constants, no key twice |
| `SinkAcceptance.AcceptanceIsExact` | docker/pf_sink.py:334-422 | a stream is accepted exactly when it is a header line, lines of declared rows with fields by kind, and a trailer line with the format's name, version 1, the number of rows of each declared type in order and the digest of every byte before it |
| `SinkAcceptance.SinkIsAccepted` | docker/pf_sink.py:334-422 | such lines are accepted with that header, those rows and that digest |
| `SinkAcceptance.SameTrailerSameSink` | docker/pf_sink.py:381-399 | where the digest tells bytes apart, two accepted streams that end in the same line are equal |
| `SinkReader.CheckLine` | docker/pf_sink.py:141-174 | the line checks in order accept exactly the standard grammar |
| `SinkReader.CheckValues` | docker/pf_sink.py:243-266 | the loop over fields accepts exactly when every value conforms to its column |
| `SinkReader.CheckRecord` | docker/pf_sink.py:285-298 | a record is returned exactly when tag, arity, columns and trade side conform |
| `SinkReader.CheckTrailer` | docker/pf_sink.py:381-391 | the checks accept exactly one value: the trailer of the counts and bytes read, which `SinkAcceptance.TrailerIs` spells out |
| `SinkAcceptance.TrailerIs` | docker/pf_sink.py:381-391 | that value has four members: the format's name, version 1, how often each declared type occurs, in order, and the digest of all bytes before |
| `SinkReader.Reading.Finish` | docker/pf_sink.py:381-399 | completes only on that trailer at the end of the input |
| `SinkReader.Reading.Advance` | docker/pf_sink.py:404-422 | one call takes the step of the line fold, or reports the stream's fault and refuses from then on |
| `SinkReader.OpenSink` | docker/pf_sink.py:337-358 | opens exactly the streams whose first line is a header of the schema |
| `Framing.LineBound` | docker/pineforge_sink_finalize.py:383-395 | stretch by stretch, the same running length or refusal as byte by byte |
| `Framing.LineBoundAll` | docker/pineforge_sink_finalize.py:383-395 | folded over chunks the verdict depends only on the concatenated bytes |
| `Framing.BoundMeaning` | docker/pineforge_sink_finalize.py:383-395 | a stream is refused exactly when some line with its feed exceeds the limit; otherwise the running length is that of the last fragment |
| `SinkStream.Input.Fill` | docker/pineforge_sink_finalize.py:411-424 | never more than one byte behind the cap is read, and that one only after all before it were handed on |
| `SinkStream.Input.ReadLine` | docker/pineforge_sink_finalize.py:398-424 | however reads are split, the next line of the capped stream; overflow only when the first B bytes were handed out up to a part of a line |
| `RecordOrder.CheckMeaning` | docker/pineforge_sink_finalize.py:474-495 | the running checks pass exactly the streams whose equity points are finite and in time, trades numbered from 1 and outputs from 0 without a gap, constants at most once |
| `RecordMeaning.OrderedIs` | docker/pineforge_sink_finalize.py:474-495 | by place: a trade has the number of trades before it plus 1, an output the number of outputs before it, constants come once, an equity point lacks no value and is not before an earlier one |
| `SinkVerify.Output.WriteAll` | docker/pineforge_sink_finalize.py:374-380 | short writes deliver all bytes, and exactly then it completes; a failure or a stop leaves a proper prefix |
| `SinkVerify.ReachedStep` | docker/pineforge_sink_finalize.py:460-506 | one more accepted line extends what the whole run amounts to |
| `SinkVerify.Round` | docker/pineforge_sink_finalize.py:472-498 | one record is read, checked and forwarded, or the run ends, fails or is stopped at any step with what was accepted; part of the last line is missing only when a write failed or was stopped |
| `SinkVerify.Verify` | docker/pineforge_sink_finalize.py:460-506 | zero is a whole verified sink, forwarded whole; always, what was forwarded is whole accepted lines, the last cut short only by a write that failed or was stopped, never by a read; at an overflow the counts are those of the first B bytes; 5 means that a read or write failed and 7 that something stopped the run; any other status is a function of the bytes and the cap alone, unless it is 3 for an overlong line |
| `SinkExits.Exit0IsExact` | docker/pineforge_sink_finalize.py:460-506 | exit 0 is exactly a whole sink with a wanted header and rows in order |
| `SinkExits.ExitsOfSink` | docker/pineforge_sink_finalize.py:329-353 | every truncation of such a sink exits 6, every cap below its length exits 8, and every extension exits 4 |
| `SinkExits.CutExits6` | docker/pineforge_sink_finalize.py:329-353 | a stream cut behind rows in order, at or within a line, exits 6 |
| `SinkExits.WrongTrailerExits4` | docker/pineforge_sink_finalize.py:329-353 | a trailer that is not that of the rows, or is followed by anything, exits 4 |
| `SinkExits.OddLineExits3` | docker/pineforge_sink_finalize.py:448-458 | any other line that is no declared row exits 3 |
| `SinkExits.DisorderExits3` | docker/pineforge_sink_finalize.py:474-495 | rows out of order exit 3, whatever follows them |
| `Finalizer.Receive` | docker/pineforge_sink_finalize.py:427-445 | zero is all input in the spool, within the cap and without an overlong line; at most B+1 bytes are read |
| `Finalizer.SpoolAndPublish` | docker/pineforge_sink_finalize.py:605-633 | zero is the verified input at the path and no spool; a failure before the takeover leaves the path as it was; the spool is left unnoted exactly when an interruption struck between its creation and the note |
| `Finalizer.Cleanup` | docker/pineforge_sink_finalize.py:652-673 | exactly which removals are made, by status, by what is owned and by where an interruption strikes, and what each leaves |
| `Finalizer.Report` | docker/pineforge_sink_finalize.py:692-720 | the status stands only if the receipt was written whole and not interrupted, otherwise the path is taken back unless an interruption prevents that |
| `Finalizer.Finalize` | docker/pineforge_sink_finalize.py:588-720 | exit 0: the whole verified input is delivered and a complete receipt written; stdout holds accepted lines only; what is left of path and spool is known exactly from where interruptions struck and which removals failed, and without either any other exit after the takeover leaves neither; a complete receipt with another exit means an interruption after its last byte; exit 8 tells the cap, B+1 bytes and counts fixed by the first B bytes; 5 means that something failed, 7 or an uncaught exit that something was interrupted, and any other status is a function of bytes, cap and mode, unless it is 3 for an overlong line |
| `Finalizer.InterruptionLeaves` | docker/pineforge_sink_finalize.py:605-720 | where no removal fails, something is left exactly when an interruption struck between the creation of the spool and its note, before the spool's removal, or, once published, before any removal of the path was due |
| `Relay.Deadline.Timeout` | docker/pineforge_report_deadlines.py:143-154 | refuses exactly when a limit in force is reached and names one that is; otherwise a poll of 1 to 50 ms that overshoots no limit by a whole millisecond |
| `Relay.Setup` | docker/pineforge_report_deadlines.py:215-223 | all answers but the last were interruptions, the last decides the result, and an expiry is decided between two calls; the deadline object is not touched |
| `Relay.Wait` | docker/pineforge_report_deadlines.py:262-278 | likewise for interruptions, not ready and empty polls; waiting never touches the deadline |
| `Relay.WriteAll` | docker/pineforge_report_deadlines.py:281-306 | whatever ends it, the count is exactly the bytes taken, and the stall interval was renewed once per send that moved bytes |
| `Relay.ReadSome` | docker/pineforge_report_deadlines.py:309-323 | the next bytes of the source, none exactly at its end, the deadline untouched by retries |
| `Relay.Pump` | docker/pineforge_report_deadlines.py:390-414 | one read and its writes keep the counts exact |
| `Relay.Relay` | docker/pineforge_report_deadlines.py:366-424 | written <= accepted = min(observed, allowance), observed <= allowance + 1, overflow exactly at allowance + 1, delivered are exactly the first `written` bytes, also in failures; a normal return is the whole source or exactly the allowance with the deadline open; any other ends for the reason it gives: a limit that is reached, a peer that went, a call that failed; never for a stall before anything was to be sent; renewals come only from bytes that moved |
| `ReplaySlices.ValidateRow` | docker/pf_sink.py:864-916 | one slice against the two cursors: the same refusals in the same order |
| `ReplaySlices.ValidateParent` | docker/pf_sink.py:851-918 | the loop over a parent's slices gives the verdict of the recursive definition |
| `ReplaySlices.WalkKeeps` | docker/pf_sink.py:864-916 | while a recut goes on: settlements before the cursor are delivered, the open one up to what is left, later ones not at all, and likewise for children |
| `ReplayConservation.AcceptedTransports` | docker/pf_sink.py:838-918 | at acceptance every settlement is delivered and every met child filled, within the tolerance |
| `ReplayConservation.ChildrenAreRuns` | docker/pf_sink.py:876-890 | the slices of one child are contiguous |
| `ReplayConservation.EveryChildIsUsed` | docker/pf_sink.py:838-918 | every child index is met although no line checks it, provided the child is larger than the accumulated tolerance |
| `ReplayConservation.ExactlyFilled` | docker/pf_sink.py:838-918 | in exact arithmetic each child is filled with exactly its transaction quantity |
| `ReplayConservation.ExactlyDelivered` | docker/pf_sink.py:838-918 | in exact arithmetic slices grouped by settlement sum to its whole quantity |
| `ReplayConservation.CommissionsAndProfits` | docker/pf_sink.py:898-914 | at any tolerance, commissions are entry fees in proportion to deliveries plus child fees in proportion to fills, and profit is gross profit in that proportion minus them |
| `ReplayConservation.RecutConserves` | docker/pf_sink.py:838-918 | in exact arithmetic presented commissions sum to the entry parts (nothing without an exit fee, else what the commission exceeds it by) plus the children's fees, and profits to whole gross profit minus those |
| `ReplayConservation.AcceptedRowsShow` | docker/pf_sink.py:898-914 | every row of an accepted recut shows, by its fields, its share of each amount by quantity, its commission from entry part and child fee, and its profit in percent of cost |
| `ReplayExact.RecutIsExact` | docker/pf_sink.py:864-918 | without cursors: a recut is accepted exactly when each row enters a child properly, is cut from the first settlement not yet used up within the tolerance, takes the smaller of what is left there and what the child lacks, and shows its part; and in the end no settlement and not the last child is open |
| `ReplayExact.CrashIs` | docker/pf_sink.py:864-916 | the walk escapes at a row exactly when its entry price is missing and everything compared before is right |
| `ReplayVerdicts.UncutIsExact` | docker/pf_sink.py:866-897 | uncut rows are accepted exactly when each shows the settlement of its child whole and no two name one child |
| `ReplayVerdicts.CoverageReason` | docker/pf_sink.py:868-884 | a parent is refused for its coverage exactly when a child is entered twice before anything else is wrong |
| `ReplayRecut.EveryRecutIsAccepted` | docker/pf_sink.py:838-918 | completeness: in exact arithmetic every greedy recut is accepted, whatever order its children are filled in |
| `ReplayRecut.UncutIsBijection` | docker/pf_sink.py:866-897 | the slices of an accepted uncut parent are in bijection with its settlements, each shown unchanged |
| `ReplayBound.JoinRows` | docker/pf_sink.py:768-799 | the row-by-row join refuses exactly the inconsistent inputs, for the reason of the first row that fails, and collects one original per settlement |
| `ReplayBound.JoinIsExact` | docker/pf_sink.py:768-799 | it succeeds exactly when rows cover trades in order and rows of one settlement agree and share one parent |
| `ReplayBound.GroupIsNumbered` | docker/pf_sink.py:800-805 | the aggregate test on a parent's slices holds exactly when they are numbered 0 to count - 1, once each, with one count and one kind |
| `ReplayBound.CheckGroups` | docker/pf_sink.py:800-805 | accepts exactly when that holds of every parent |
| `ReplayBound.RunningNet` | docker/pf_sink.py:806-813 | accepts exactly the dense settlement numbers, and the sums are those of every prefix |
| `ReplayBound.CheckPoints` | docker/pf_sink.py:817-835 | accepts exactly when every equity point equals the value rebuilt from its basis, and else names the reason of the first that does not |
| `ReplayBound.CheckSlices` | docker/pf_sink.py:850-922 | accepts exactly when the verdict on every parent is acceptance, and else names the reason of the first refused parent in database order |
| `ReplayBound.ValidateBound` | docker/pf_sink.py:765-836 | all stages in order accept exactly the bound companions of the declarative definition, and a refusal names the reason of the first stage that refuses |
| `ReplayBound.ReasonIsExact` | docker/pf_sink.py:765-836 | the staged reasons and the declarative definition agree: no stage refuses exactly when the companion is one to accept |
| `ReplayBound.AcceptedSettlements` | docker/pf_sink.py:765-816 | acceptance implies settlements 0..m-1, each field of which is that of its one unmarked trade or of its marks, shared only by slices of one parent, every row covering its trade, and a net that is the sum of all their profits |
| `ReplayBound.AcceptedEquity` | docker/pf_sink.py:817-835 | acceptance implies that every equity point is capital, the sum of the profits of its own settlement prefix and its term, by its basis |
| `ReplayBound.AcceptedParents` | docker/pf_sink.py:836-918 | acceptance implies that each parent's slices in order are an accepted walk over its own settlements |
| `ReplayMeaning.BoundIsPlain` | docker/pf_sink.py:765-918 | a companion is accepted exactly when there are settlements whose fields its rows and points show and every parent's slices, listed by their numbers, are accepted |
| `ReplayReasons.ReasonIsTrue` | docker/pf_sink.py:765-922 | every reason of a refusal is true of the rows: what lacks, mismatches, is uncovered or unpriced is there |
| `ReplayAcceptance.AcceptedConserves` | docker/pf_sink.py:765-918 | in exact arithmetic, accepting a companion implies for every parent: its rows in order are a walk over exactly the settlements that name it; if recut, slices per settlement and per child sum to their quantities, every child is used, commissions and profits are conserved; if uncut, each settlement is shown by exactly one row, unchanged |
| `TradeSummary.TradeCounts.Fold` | docker/pineforge_sink_to_json.py:177-191 | wins, losses and even trades are counted and the streak fields are the longest contiguous runs of all trades folded so far |
| `TradeSummary.Curve.Fold` | docker/pineforge_sink_to_json.py:273-283 | the maximum drawdown is the least of level_i - level_j over all j <= i, start included; best and worst are extremes |
| `TradeSummary.Summarize` | docker/pineforge_sink_to_json.py:264-293 | one pass gives these meanings for all trades and for each side |
| `TradeSummary.SidesAddUp` | docker/pineforge_sink_to_json.py:275-278 | long and short counts add up to the totals, for trades and for each kind of result |
| `TradeSummary.CountsAre` | docker/pineforge_sink_to_json.py:177-191 | wins are the trades above zero, losses those below, even ones those at zero |
| `TradeSummary.StreaksAre` | docker/pineforge_sink_to_json.py:177-191 | the streak fields are the longest stretches above and below zero |
| `TradeSummary.SideIs` | docker/pineforge_sink_to_json.py:275-278 | each trade's result stands on its own side, in order |
| `ColumnItems.Items` | docker/pineforge_sink_to_json.py:597-627 | for every content and every split into windows, exactly the items and the refusal of the whole column |
| `ColumnItems.SplitsJoined` | docker/pineforge_sink_to_json.py:591-627 | complete texts joined by commas come back as exactly their values, numbers included |
| `ReportMeaning.SplitIs` | docker/pineforge_sink_to_json.py:597-627 | the items of any column are those spelled in it, and the end is where it stops: complete exactly for spellings joined by commas, else behind a last comma, where no value starts, or where something else than a comma follows one |
| `ReportColumns.ColumnStore.Append` | docker/quota_columns.py:435-468 | one comma between items of a stream, the other streams untouched; an append that breaks off leaves a store from which nothing is appended or read again |
| `ReportColumns.ColumnStore.Pieces` | docker/quota_columns.py:470-520 | the pieces join to the stored text, and only of a store that did not fail |
| `ReportColumns.FillColumns` | docker/pineforge_sink_to_json.py:804-820 | one pass leaves in every stream and slot exactly its filtered and projected table, unless an append fails |
| `ReportColumns.StoredItems` | docker/pineforge_sink_to_json.py:591-627 | a stored column decodes to the table it was filled from |
| `ReportWriter.Writer.Write` | docker/pineforge_sink_to_json.py:636-647 | counts every byte; unless only counting, sent and buffered bytes are all bytes written, in order |
| `ReportWriter.CopyColumn` | docker/quota_columns.py:522-531 | splices the stored text between brackets, whatever the pieces |
| `ReportWriter.ReplayTable` | docker/pineforge_sink_to_json.py:655-669 | writes the same text from a replay of the records |
| `ReportWriter.Emit` | docker/pineforge_sink_to_json.py:655-683 | by either route writes exactly the text of the report |
| `ReportWriter.Convert` | docker/pineforge_sink_to_json.py:976-1006 | managed and unmanaged runs send the same bytes, the count taken beforehand is exactly their number, line feed included, and a run that fails is one where a call failed |
| `ReportMeaning.TablesAre` | docker/pineforge_sink_to_json.py:804-820 | item i of each table is that of the i-th record of its tag: the shown trade, point or event, the two times of an output record (values 1 and 2) and its slots |
| `ReportMeaning.ReportReadsBack` | docker/pineforge_sink_to_json.py:655-691 | what is sent is one JSON text that reads back as the document with its tables filled from the records |
| `Allocation.Neediest` | benchmarks/select_population.py:184-186 | the open stratum with the largest remainder, later key first |
| `Allocation.LeastNeedy` | benchmarks/select_population.py:188-190 | the reducible stratum with the smallest remainder, earlier key first |
| `Allocation.Raise` | benchmarks/select_population.py:184-187 | fails exactly when there are more slots than members; otherwise reaches the total fairly |
| `Allocation.Lower` | benchmarks/select_population.py:188-191 | fails exactly when there are fewer slots than strata; otherwise takes slots back only where least is lacking |
| `Allocation.Allocate` | benchmarks/select_population.py:179-192 | succeeds exactly for strata <= total <= members, with the exact total and 1 <= slots <= size; the slots are floors of total * size / n raised to 1, and either the strata with the most left of it got one more, or, where the raised floors overshot, those with the least gave slots back; ties go by key |
| `Allocation.FairRounds` | benchmarks/select_population.py:179-192 | in a fair allocation every quota of at least 1 gets its floor or ceiling and smaller ones get 1 |
| `Allocation.FairIsUnique` | benchmarks/select_population.py:179-192 | extras go to the largest remainders: there is only one fair allocation of a total |
| `Allocation.FrugalIsUnique` | benchmarks/select_population.py:188-191 | nor is there a second frugal one |
| `QuantileDraw.CutFacts` | benchmarks/select_population.py:195-204 | cuts run from 0 to n and bins hold the floor or the ceiling of n/k, at least one member if k <= n |
| `QuantileDraw.CutIs` | benchmarks/select_population.py:195-204 | cut b is the last place at or before the share b/k of the n members |
| `QuantileDraw.DrawAll` | benchmarks/select_population.py:195-208 | fails exactly when members are fewer than bins; otherwise each bin of the members sorted by trades and then key is its pick and its queue |
| `QuantileDraw.BinsPartition` | benchmarks/select_population.py:195-208 | picks and queues together are a permutation of the members |
| `QuantileDraw.PicksDiffer` | benchmarks/select_population.py:195-208 | with distinct keys, picks of different bins have different keys |
| `Selection.DrawStrata` | benchmarks/select_population.py:307-322 | draws every stratum, one pick per bin; fails exactly when a stratum has fewer members than slots |
| `Selection.DrawsDiffer` | benchmarks/select_population.py:307-322 | with globally distinct keys, picks of different homes have different keys |
| `Selection.Enrol` | benchmarks/select_population.py:307-348 | with globally distinct keys the slots are first those of the corpus and then those of the closed set, each by key, numbered by place, no bin twice, one per slot asked for, and a valid roll over the bins they were drawn from |
| `Selection.Roll.Replace` | benchmarks/select_population.py:350-372 | fails exactly when no slot has the number or all its queue is selected, and then changes nothing; otherwise the new slot takes the first unselected key of the lost slot's queue, in its bin, keys stay distinct and every slot stays in its bin |
| `Selection.Roll.ReplaceAll` | benchmarks/select_population.py:350-372 | in any sequence of replacements each new slot is such a replacement of the slot its number named at that time, up to the first that fails, and keys stay distinct and in their bins |
| `Selection.FirstFreeIs` | benchmarks/select_population.py:355 | the replacement is the first key of the queue that is not selected |
| `Selection.RemainingIs` | benchmarks/select_population.py:365 | what remains of a queue keeps its order |
| `Selection.PrefixIs` | benchmarks/select_population.py:354 | a slot is known by the first three digits of its number |

## Left out

- The launcher is a transition system on values, not methods: nothing there promises that a fork storm ends, and a pid file descriptor is the generation it was opened on.
- Kernel rules: a number is free when no process, group or session uses it; orphans go to the first living subreaper above them, or to init; processes put into a process namespace from outside it are not modelled.
- Control groups, credentials, capability calls, worker endpoints and the launcher's own receipt: foreign calls or plumbing.
- Binary64 rounding, ten-digit rounding, the spelling of doubles and the sign of zero: idealised to exact reals, with float tokens kept as text.
- ReplayConservation.EveryChildIsUsed: at a positive tolerance a child no larger than tolerance times the number of settlements is not covered; with tolerance zero every child is.
- The companion's own line format and its SQL tables: rows come as sequences, tables as maps and sequences, and the order the database sorts parents in is given.
- SinkReader.OpenSink: the fixed descriptor tables of a sink header are a parameter, and so is which header the finalizer wants; the theorems hold for any.
- Interruptions of the finalizer inside one system call or before its main stage: they fall between the modelled actions, and before the main stage nothing is done yet.
- The finalizer under a run quota, its typed diagnostics and the check of the profile's name: admission steps and plumbing around the same writes.
- BarPublisher.ConvertCsv: durable mode only; temporary names and the fresh-directory mode, which omits directory syncs, are not modelled, and a refusal keeps only the defect, not its wording.
- CSV text parsing, calendar closes and timeframes: the rows come parsed, with the first parse defect at their end.
- Relay.Relay: descriptor checks before the first call are any number of calls that may fail; the clock is any non-decreasing time.
- The recursion limit of Python's decoder and duplicate keys in presentation metadata: not limits of the grammar.
- The presentation schema, metadata reconciliation and fingerprints of the converter: long and shallow; items and their spelling are parameters.
- The block chains and windows of the column store: it is an append-only text per stream, read back in arbitrary pieces; its admission and the size limits of an append are not modelled.
- Allocation.Allocate: quotas are exact fractions, not doubles.
- The matching kernel in C++, the runner, the comparison scripts and the command lines are not part of this model.
