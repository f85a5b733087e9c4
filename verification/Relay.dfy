/** The bounded relay of the report channel: a deadline with an absolute wall and a stall
    interval, a nonblocking reader and writer, and the loop that copies at most an allowance
    of bytes from a source to a destination (docker/pineforge_report_deadlines.py).
    System calls and the clock are the environment: every reply is nondeterministic. A run may
    also be looked at before it ends: the patience of the world bounds the number of system
    calls, and when it is used up the operation in progress returns `Unfinished` with the
    counts it had. Since the patience is arbitrary, what is proved holds at every moment of
    every run, including runs that never end. */
module Relay {
  import opened Arithmetic
  import opened Bytes
  import opened Options

  const QUEUE_BYTES: nat := 65536
  const POLL_SLICE: nat := 50

  datatype Errno = Interrupted | Again | Closed | OtherError
  datatype Kind = Wall | Stall
  datatype Fault = Expired(kind: Kind) | PeerClosed | TransportError | Unfinished

  /** What a system call answers; `Cut` when the observed run ends here. */
  datatype Reply = Moved(count: nat) | Failed(error: Errno) | Cut

  function IoError(e: Errno): Fault {
    if e == Closed then PeerClosed else TransportError
  }

  /** The bytes the source will ever yield, those handed to the destination, and the clock.
      `cleared` says that the deadline was checked since the last system call: every call
      demands it. */
  class World {
    const source: seq<byte>
    var taken: nat
    var sent: seq<byte>
    var now: real
    var patience: nat
    ghost var cleared: bool
    ghost var sends: nat      // calls that moved bytes out
    ghost var arrivals: nat   // calls that brought bytes in
    ghost var calls: seq<Reply>   // what all other calls answered
    ghost var hangups: nat    // calls that found the peer gone
    ghost var errors: nat     // calls and checks that failed for any other reason than having to wait

    ghost predicate Valid()
      reads this
    {
      taken <= |source|
    }

    method Clock() returns (t: real)
      modifies `now
      ensures t == now && old(now) <= now
    {
      var elapsed: real := *;
      now := now + if elapsed > 0.0 then elapsed else 0.0;
      t := now;
    }

    /** A fault is what happened: the peer went, a call or check failed, or the observed run ended. */
    twostate predicate Explains(new f: Option<Fault>)
      reads this
    {
      && old(hangups) <= hangups && (f == Some(PeerClosed) ==> old(hangups) < hangups)
      && old(errors) <= errors && (f == Some(TransportError) ==> old(errors) < errors)
      && patience <= old(patience) && (f == Some(Unfinished) ==> patience == 0)
    }

    /** `waiting`: the call may be told to wait, which is no error then. */
    method Fail(waiting: bool) returns (r: Reply)
      modifies `hangups, `errors
      ensures r.Failed?
      ensures hangups == old(hangups) + if r.error == Closed then 1 else 0
      ensures errors == old(errors) + if r.error == OtherError || (r.error == Again && !waiting) then 1 else 0
    {
      var e: Errno := *;
      r := Failed(e);
      if e == Closed { hangups := hangups + 1; }
      if e == OtherError || (e == Again && !waiting) { errors := errors + 1; }
    }

    /** Whether a descriptor is as it should be. */
    method Check() returns (ok: bool)
      modifies `errors
      ensures errors == old(errors) + if ok then 0 else 1
    {
      ok := *;
      if !ok { errors := errors + 1; }
    }

    /** What a reply adds to the counts of failures. */
    twostate predicate Adds(new r: Reply, waiting: bool)
      reads this
    {
      && hangups == old(hangups) + (if r == Failed(Closed) then 1 else 0)
      && errors == old(errors) + (if r == Failed(OtherError) || (r == Failed(Again) && !waiting) then 1 else 0)
    }

    method Read(n: nat) returns (r: Reply)
      requires Valid() && n > 0 && cleared
      modifies `taken, `arrivals, `patience, `cleared, `hangups, `errors
      ensures Valid() && !cleared && Adds(r, true)
      ensures if r.Cut? then patience == old(patience) == 0 else patience < old(patience)
      ensures r.Moved? ==>
                && r.count <= n && taken == old(taken) + r.count
                && (r.count == 0 <==> old(taken) == |source|)
      ensures !r.Moved? ==> taken == old(taken)
      ensures arrivals == old(arrivals) + (if r.Moved? && r.count > 0 then 1 else 0)
    {
      cleared := false;
      if patience == 0 { return Cut; }
      patience := patience - 1;
      if * { r := Fail(true); return; }
      var limit := if n < |source| - taken then n else |source| - taken;
      if limit == 0 { return Moved(0); }
      var k: nat :| 1 <= k <= limit;
      taken := taken + k;
      arrivals := arrivals + 1;
      r := Moved(k);
    }

    method Send(piece: seq<byte>) returns (r: Reply)
      requires piece != [] && cleared
      modifies `sent, `sends, `patience, `cleared, `hangups, `errors
      ensures !cleared
      ensures if r == Moved(0) then errors == old(errors) + 1 && hangups == old(hangups) else Adds(r, true)
      ensures if r.Cut? then patience == old(patience) == 0 else patience < old(patience)
      ensures r.Moved? ==> r.count <= |piece| && sent == old(sent) + piece[..r.count]
      ensures !r.Moved? ==> sent == old(sent)
      ensures sends == old(sends) + (if r.Moved? && r.count > 0 then 1 else 0)
    {
      cleared := false;
      if patience == 0 { return Cut; }
      patience := patience - 1;
      if * { r := Fail(true); return; }
      var k: nat :| k <= |piece|;
      sent := sent + piece[..k];
      if k > 0 { sends := sends + 1; } else { errors := errors + 1; }
      r := Moved(k);
    }

    /** Any other call: it moves no bytes. */
    method Call(waiting: bool) returns (r: Reply)
      requires cleared
      modifies `patience, `cleared, `calls, `hangups, `errors
      ensures Adds(r, waiting)
      ensures !cleared && calls == old(calls) + [r]
      ensures if r.Cut? then patience == old(patience) == 0 else patience < old(patience)
    {
      cleared := false;
      r := Cut;
      if patience > 0 {
        patience := patience - 1;
        var k: nat := *;
        r := Moved(k);
        if * { r := Fail(waiting); }
      }
      calls := calls + [r];
    }
  }

  datatype Limit = Unlimited | At(at: real)

  predicate Reached(l: Limit, now: real) { l.At? && l.at <= now }

  /** The limit is reached once the interval has passed since `now`, and never without an interval. */
  ghost predicate StartsAt(l: Limit, now: real, interval: Limit) {
    forall t: real :: Reached(l, t) <==> interval.At? && t - now >= interval.at
  }

  function From(now: real, interval: Limit): (l: Limit)
    ensures StartsAt(l, now, interval)
  {
    if interval.Unlimited? then Unlimited else At(now + interval.at)
  }

  /** Milliseconds of a poll, rounded up and at least one. */
  function Ceiling(x: real): int { -((-x).Floor) }

  class Deadline {
    const wallAt: Limit
    const interval: Limit
    var stallAt: Limit
    ghost var renewals: nat

    constructor (w: World, wall: Limit, interval: Limit)
      modifies w`now
      ensures StartsAt(wallAt, w.now, wall) && this.interval == interval && StartsAt(stallAt, w.now, interval)
      ensures renewals == 0
    {
      var started := w.Clock();
      wallAt := From(started, wall);
      this.interval := interval;
      stallAt := From(started, interval);
      renewals := 0;
    }

    /** A fresh stall interval, for new pending work or bytes that moved. */
    method Renew(w: World)
      modifies w`now, `stallAt, `renewals
      ensures old(w.now) <= w.now && StartsAt(stallAt, w.now, interval) && renewals == old(renewals) + 1
    {
      var t := w.Clock();
      stallAt := From(t, interval);
      renewals := renewals + 1;
    }

    method NoteProgress(w: World, count: nat)
      modifies w`now, `stallAt, `renewals
      ensures old(w.now) <= w.now
      ensures count == 0 ==> stallAt == old(stallAt) && renewals == old(renewals)
      ensures count > 0 ==> StartsAt(stallAt, w.now, interval) && renewals == old(renewals) + 1
    {
      if count > 0 { Renew(w); }
    }

    /** Refuses exactly when a limit in force is reached, naming a limit that is. Otherwise
        grants a poll of 1 to 50 ms that overshoots no limit by a whole millisecond. */
    method Timeout(w: World, useStall: bool) returns (t: nat, f: Option<Fault>)
      modifies w`now, w`cleared
      ensures old(w.now) <= w.now
      ensures f.None? <==> !Reached(wallAt, w.now) && !(useStall && Reached(stallAt, w.now))
      ensures f.Some? ==> || (f == Some(Expired(Wall)) && Reached(wallAt, w.now))
                          || (f == Some(Expired(Stall)) && useStall && Reached(stallAt, w.now))
      ensures f.None? ==> w.cleared && 1 <= t <= POLL_SLICE
      ensures f.None? && wallAt.At? ==> (t - 1) as real < (wallAt.at - w.now) * 1000.0
      ensures f.None? && useStall && stallAt.At? ==> (t - 1) as real < (stallAt.at - w.now) * 1000.0
    {
      var now := w.Clock();
      var expiry, kind := wallAt, Wall;
      if useStall && stallAt.At? && (wallAt.Unlimited? || stallAt.at < wallAt.at) {
        expiry, kind := stallAt, Stall;
      }
      if expiry.Unlimited? {
        w.cleared := true;
        return POLL_SLICE, None;
      }
      var remaining := expiry.at - now;
      if remaining <= 0.0 { return 0, Some(Expired(kind)); }
      w.cleared := true;
      var scaled := if remaining * 1000.0 < POLL_SLICE as real then remaining * 1000.0 else POLL_SLICE as real;
      return Max(1, Ceiling(scaled)), None;
    }
  }

  /** An expiry names a limit that is reached. */
  ghost predicate Late(f: Option<Fault>, d: Deadline, now: real)
    reads d
  {
    && (f == Some(Expired(Wall)) ==> Reached(d.wallAt, now))
    && (f == Some(Expired(Stall)) ==> Reached(d.stallAt, now))
  }

  /** Answers on which a call is made again. */
  predicate Retry(r: Reply, waiting: bool) {
    r == Failed(Interrupted) || (waiting && (r == Failed(Again) || r == Moved(0)))
  }

  /** The answers a repeated call got: only ones to try again on, before the one that decided. An
      expiry is decided between two calls. */
  ghost predicate Decides(answers: seq<Reply>, waiting: bool, f: Option<Fault>) {
    if f.Some? && f.value.Expired? then forall i | 0 <= i < |answers| :: Retry(answers[i], waiting)
    else
      && answers != [] && (forall i | 0 <= i < |answers| - 1 :: Retry(answers[i], waiting))
      && var last := answers[|answers| - 1];
         && !Retry(last, waiting)
         && match last
            case Cut => f == Some(Unfinished)
            case Moved(_) => f.None? || (waiting && f == Some(TransportError))
            case Failed(e) => f == Some(IoError(e))
  }

  /** One call repeated while it is interrupted; the deadline object is never touched. */
  method Setup(w: World, d: Deadline, useStall: bool) returns (f: Option<Fault>)
    modifies w`now, w`patience, w`cleared, w`calls, w`hangups, w`errors
    ensures old(w.calls) <= w.calls && Decides(w.calls[|old(w.calls)|..], false, f)
    ensures w.Explains(f) && Late(f, d, w.now) && (f == Some(Expired(Stall)) ==> useStall)
  {
    while true
      invariant old(w.calls) <= w.calls
      invariant forall i | |old(w.calls)| <= i < |w.calls| :: Retry(w.calls[i], false)
      invariant w.Explains(None)
      decreases w.patience
    {
      var _, expired := d.Timeout(w, useStall);
      if expired.Some? { return expired; }
      var r := w.Call(false);
      match r {
        case Cut => return Some(Unfinished);
        case Moved(_) => return None;
        case Failed(e) => if e != Interrupted { return Some(IoError(e)); }
      }
    }
  }

  /** Descriptor checks and mode changes before the first read or send. */
  method Prepare(w: World, d: Deadline, calls: nat, useStall: bool) returns (f: Option<Fault>)
    modifies w`now, w`patience, w`cleared, w`calls, w`hangups, w`errors
    ensures w.Explains(f) && Late(f, d, w.now) && (f == Some(Expired(Stall)) ==> useStall)
  {
    for i := 0 to calls
      invariant w.Explains(None)
    {
      f := Setup(w, d, useStall);
      if f.Some? { return; }
      var ok := w.Check();                         // the kind of descriptor required
      if !ok { return Some(TransportError); }
    }
    f := None;
  }

  /** Wait for readiness in bounded slices; the deadline object is never touched. */
  method Wait(w: World, d: Deadline, useStall: bool) returns (f: Option<Fault>)
    modifies w`now, w`patience, w`cleared, w`calls, w`hangups, w`errors
    ensures old(w.calls) <= w.calls && Decides(w.calls[|old(w.calls)|..], true, f)
    ensures w.Explains(f) && Late(f, d, w.now) && (f == Some(Expired(Stall)) ==> useStall)
  {
    while true
      invariant old(w.calls) <= w.calls
      invariant forall i | |old(w.calls)| <= i < |w.calls| :: Retry(w.calls[i], true)
      invariant w.Explains(None)
      decreases w.patience
    {
      var timeout, expired := d.Timeout(w, useStall);
      if expired.Some? { return expired; }
      var r := w.Call(true);
      match r {
        case Cut => return Some(Unfinished);
        case Failed(e) => if e != Interrupted && e != Again { return Some(IoError(e)); }
        case Moved(ready) =>
          if ready > 0 {
            var ok := w.Check();                   // the descriptor is open
            return if ok then None else Some(TransportError);
          }
      }
    }
  }

  /** One send, and the wait when it has to. No bytes may have moved without a fault. */
  method SendSome(w: World, d: Deadline, piece: seq<byte>) returns (count: nat, f: Option<Fault>)
    requires piece != []
    modifies w`sent, w`sends, w`now, w`patience, w`cleared, w`calls, w`hangups, w`errors,
             d`stallAt, d`renewals
    ensures count <= |piece| && w.sent == old(w.sent) + piece[..count] && (f.Some? ==> count == 0)
    ensures d.renewals - old(d.renewals) == w.sends - old(w.sends)
    ensures count == 0 ==> d.stallAt == old(d.stallAt)
    ensures w.Explains(f) && Late(f, d, w.now) && (f.None? ==> w.patience < old(w.patience))
  {
    var t;
    count := 0;
    t, f := d.Timeout(w, true);
    if f.Some? { return; }
    var r := w.Send(piece);
    match r {
      case Cut => f := Some(Unfinished);
      case Failed(e) =>
        if e == Again {
          f := Wait(w, d, true);
        } else if e != Interrupted {
          f := Some(IoError(e));
        }
      case Moved(moved) =>
        if moved == 0 { return 0, Some(TransportError); }
        count := moved;
        d.NoteProgress(w, count);
    }
  }

  /** Send all of `data`. Whatever ends the call, `moved` counts exactly the bytes the
      destination took, and the stall interval was renewed once per send that moved bytes. */
  method WriteAll(w: World, d: Deadline, data: seq<byte>) returns (moved: nat, f: Option<Fault>)
    modifies w`sent, w`sends, w`now, w`patience, w`cleared, w`calls, w`hangups, w`errors,
             d`stallAt, d`renewals
    ensures moved <= |data| && w.sent == old(w.sent) + data[..moved]
    ensures f.None? ==> moved == |data| && w.cleared
    ensures d.renewals - old(d.renewals) == w.sends - old(w.sends)
    ensures w.sent == old(w.sent) ==> d.stallAt == old(d.stallAt)
    ensures w.Explains(f) && Late(f, d, w.now)
  {
    moved := 0;
    var t, count;
    while moved < |data|
      invariant moved <= |data| && w.sent == old(w.sent) + data[..moved]
      invariant d.renewals - old(d.renewals) == w.sends - old(w.sends)
      invariant moved == 0 ==> d.stallAt == old(d.stallAt)
      invariant w.Explains(None)
      decreases w.patience
    {
      t, f := d.Timeout(w, true);
      if f.Some? { return; }
      var piece := data[moved..if moved + QUEUE_BYTES < |data| then moved + QUEUE_BYTES else |data|];
      count, f := SendSome(w, d, piece);
      if f.Some? { return; }
      assert data[..moved] + piece[..count] == data[..moved + count];
      moved := moved + count;
    }
    t, f := d.Timeout(w, true);
  }

  /** The next bytes of the source, none exactly at its end; retries leave the deadline alone. */
  method ReadSome(w: World, d: Deadline, nmax: nat, useStall: bool) returns (data: seq<byte>, f: Option<Fault>)
    requires w.Valid() && nmax > 0
    modifies w`taken, w`arrivals, w`now, w`patience, w`cleared, w`calls, w`hangups, w`errors
    ensures w.Valid() && old(w.taken) <= w.taken && data == w.source[old(w.taken)..w.taken]
    ensures |data| <= nmax && (f.Some? ==> data == [])
    ensures f.None? && data == [] ==> w.taken == |w.source|
    ensures w.arrivals == old(w.arrivals) + (if data == [] then 0 else 1)
    ensures w.Explains(f) && Late(f, d, w.now) && (f == Some(Expired(Stall)) ==> useStall)
  {
    data := [];
    var t;
    t, f := d.Timeout(w, useStall);
    if f.Some? { return; }
    while true
      invariant w.taken == old(w.taken) && w.arrivals == old(w.arrivals) && data == []
      invariant w.Explains(None)
      decreases w.patience
    {
      t, f := d.Timeout(w, useStall);
      if f.Some? { return; }
      var r := w.Read(nmax);
      match r {
        case Cut => return data, Some(Unfinished);
        case Moved(count) => return w.source[w.taken - count..w.taken], None;
        case Failed(e) =>
          if e == Again {
            f := Wait(w, d, useStall);
            if f.Some? { return; }
          } else if e != Interrupted {
            return data, Some(IoError(e));
          }
      }
    }
  }

  datatype Counts = Counts(observed: nat, accepted: nat, written: nat, overflow: bool, eof: bool)

  /** What the counts say, at any moment, about a relay that started with `taken` bytes gone. */
  predicate Exact(c: Counts, allowance: nat, source: seq<byte>, taken: nat, now: nat, sent: seq<byte>, was: seq<byte>) {
    && c.written <= c.accepted == Min(c.observed, allowance) && c.observed <= allowance + 1
    && (c.overflow <==> c.observed == allowance + 1)
    && taken + c.observed == now <= |source|
    && sent == was + source[taken..taken + c.written]
    && (c.eof ==> now == |source| && !c.overflow)
  }

  /** New pending work: a fresh stall interval, the endpoint on first use, then the bytes. */
  method Forward(w: World, d: Deadline, data: seq<byte>, ready: bool) returns (moved: nat, f: Option<Fault>)
    modifies w`sent, w`sends, w`now, w`patience, w`cleared, w`calls, w`hangups, w`errors,
             d`stallAt, d`renewals
    ensures moved <= |data| && w.sent == old(w.sent) + data[..moved]
    ensures f.None? ==> moved == |data| && w.cleared
    ensures d.renewals - old(d.renewals) == 1 + w.sends - old(w.sends)
    ensures w.Explains(f) && Late(f, d, w.now)
  {
    d.Renew(w);
    if !ready {
      f := Prepare(w, d, 4, true);
      if f.Some? { return 0, f; }
    }
    moved, f := WriteAll(w, d, data);
  }

  /** The bytes of one chunk extend what was delivered before it. */
  lemma {:induction false} Extends(was: seq<byte>, source: seq<byte>, start: nat, before: nat, approved: nat,
                                   moved: nat, data: seq<byte>)
    requires start <= before && moved <= approved <= |data| && before + |data| <= |source|
    requires data == source[before..before + |data|]
    ensures was + source[start..before] + data[..approved][..moved] == was + source[start..before + moved]
  {
    assert data[..approved][..moved] == data[..moved];
    assert source[before..before + |data|][..moved] == source[before..before + moved];
    assert source[start..before] + source[before..before + moved] == source[start..before + moved];
  }

  /** Between two reads: everything observed was within the allowance and is delivered. */
  predicate Even(c: Counts, allowance: nat) {
    c.written == c.accepted == c.observed <= allowance && !c.overflow && !c.eof
  }

  /** Counts of a chunk that was read, before any of it is written. */
  function Admit(c: Counts, allowance: nat, size: nat): (r: Counts)
    requires Even(c, allowance)
  {
    Counts(c.observed + size, c.accepted + Min(size, allowance - c.accepted), c.written, c.observed
        + size > allowance, false)
  }

  /** A chunk was read: it is counted, and what the allowance lets through is written. */
  method Accept(w: World, d: Deadline, c: Counts, allowance: nat, data: seq<byte>, ready: bool,
                ghost start: nat, ghost was: seq<byte>)
    returns (r: Counts, f: Option<Fault>)
    requires w.Valid() && Even(c, allowance) && data != [] && |data| <= allowance - c.observed + 1
    requires |data| <= w.taken && data == w.source[w.taken - |data|..w.taken]
    requires Exact(c, allowance, w.source, start, w.taken - |data|, w.sent, was)
    modifies w`sent, w`sends, w`now, w`patience, w`cleared, w`calls, w`hangups, w`errors, d`stallAt, d`renewals
    ensures Exact(r, allowance, w.source, start, w.taken, w.sent, was) && !r.eof
    ensures f.None? ==> w.cleared && r.written == r.accepted && (!r.overflow ==> Even(r, allowance))
    ensures d.renewals - old(d.renewals) <= 1 + w.sends - old(w.sends)
    ensures w.Explains(f) && Late(f, d, w.now) && (f == Some(Expired(Stall)) ==> r.accepted > 0)
  {
    var approved := Min(|data|, allowance - c.accepted);
    r := Admit(c, allowance, |data|);
    var t;
    t, f := d.Timeout(w, false);
    if f.Some? { return; }
    if approved > 0 {
      var moved;
      moved, f := Forward(w, d, data[..approved], ready);
      Extends(was, w.source, start, w.taken - |data|, approved, moved, data);
      r := r.(written := c.written + moved);
    }
  }

  /** One read, and the writes of what it brought; done at the end of the source, at an
      overflow, or at a fault. */
  method Pump(w: World, d: Deadline, c: Counts, allowance: nat, window: nat, ready: bool,
              ghost start: nat, ghost was: seq<byte>)
    returns (r: Counts, f: Option<Fault>, done: bool)
    requires w.Valid() && window > 0 && Even(c, allowance)
    requires Exact(c, allowance, w.source, start, w.taken, w.sent, was)
    modifies w`taken, w`sent, w`arrivals, w`sends, w`now, w`patience, w`cleared, w`calls, w`hangups, w`errors,
             d`stallAt, d`renewals
    ensures w.Valid() && Exact(r, allowance, w.source, start, w.taken, w.sent, was)
    ensures !done ==> f.None? && Even(r, allowance) && w.taken > old(w.taken)
    ensures done && f.None? ==> w.cleared && r.written == r.accepted && (r.eof <==> !r.overflow)
    ensures d.renewals - old(d.renewals) <= w.arrivals - old(w.arrivals) + w.sends - old(w.sends)
    ensures w.Explains(f) && Late(f, d, w.now) && (f == Some(Expired(Stall)) ==> r.accepted > 0)
  {
    r, done := c, true;
    var t, data;
    data, f := ReadSome(w, d, Min(window, allowance - c.observed + 1), false);
    if f.Some? { return; }
    if data == [] {
      r := c.(eof := true);
      t, f := d.Timeout(w, false);
      return;
    }
    r, f := Accept(w, d, c, allowance, data, ready, start, was);
    done := f.Some? || r.overflow;
  }

  /** Copy the source to the destination. The counts are exact whatever ends the call. A
      normal return is a source that ended within the allowance and was delivered whole, or an
      overflow with exactly the allowance delivered, and the deadline was still open. Any other
      ends for the reason it gives, and never for a stall before there was anything to send. */
  method Relay(w: World, d: Deadline, allowance: nat, chunk: nat) returns (c: Counts, f: Option<Fault>)
    requires w.Valid() && chunk > 0
    modifies w`taken, w`sent, w`arrivals, w`sends, w`now, w`patience, w`cleared, w`calls, w`hangups, w`errors,
             d`stallAt, d`renewals
    ensures Exact(c, allowance, w.source, old(w.taken), w.taken, w.sent, old(w.sent))
    ensures f.None? ==> w.cleared && c.written == c.accepted && (c.eof <==> !c.overflow)
    ensures f.None? && c.eof ==> w.sent == old(w.sent) + w.source[old(w.taken)..] && c.written <= allowance
    ensures f.None? && c.overflow ==> c.written == allowance
    ensures d.renewals - old(d.renewals) <= w.arrivals - old(w.arrivals) + w.sends - old(w.sends)
    ensures w.Explains(f) && Late(f, d, w.now) && (f == Some(Expired(Stall)) ==> c.accepted > 0)
  {
    var window := Min(chunk, QUEUE_BYTES);
    c := Counts(0, 0, 0, false, false);
    var ready, done := false, false;
    f := Prepare(w, d, 2, false);
    if f.Some? { return; }
    while !done
      invariant w.Valid() && Exact(c, allowance, w.source, old(w.taken), w.taken, w.sent, old(w.sent))
      invariant !done ==> f.None? && Even(c, allowance)
      invariant done && f.None? ==> w.cleared && c.written == c.accepted && (c.eof <==> !c.overflow)
      invariant d.renewals - old(d.renewals) <= w.arrivals - old(w.arrivals) + w.sends - old(w.sends)
      invariant w.Explains(f) && Late(f, d, w.now) && (f == Some(Expired(Stall)) ==> c.accepted > 0)
      decreases !done, |w.source| - w.taken
    {
      c, f, done := Pump(w, d, c, allowance, window, ready, old(w.taken), old(w.sent));
      ready := c.accepted > 0;
    }
  }
}
