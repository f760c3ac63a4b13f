/**
 The stateful splice pump. The kernel side (what is in the pipe, what reached the output, what is still
 to be read) is modelled beside the counters that the program keeps, and the outcome of every `splice`
 call is taken from `outcomes`, which is arbitrary.
 */
module SplicePump {
  import opened Options
  import opened Varint

  const OK := 0
  const EOF := -1
  const EAGAIN := -2
  const NOTSUP := -3
  const ERROR := -4

  const CHUNK := 64 * 1024
  const MAX_PER_EVENT := 4 * 1024 * 1024
  const SIZE_MAX := 0xffff_ffff_ffff_ffff

  /** What one `splice` call does; `Moves(n)` moves at most `n` bytes. */
  datatype Outcome = Moves(n: nat) | Interrupted | WouldBlock | HungUp | Unsupported | Broken

  /** Why a loop ended. */
  datatype Stop = Finished | Blocked | Ended | NoSplice | Failed

  // What the kernel's answers make of a call, in numbers of bytes.

  /** What a loop achieved, and the answers that are left. */
  datatype Ran = Ran(moved: nat, stop: Stop, rest: seq<Outcome>)

  /** Why a call that moved nothing ends the loop. */
  function StopOf(o: Outcome): (s: Stop)
    ensures !s.Finished?
  {
    match o
    case WouldBlock => Blocked
    case Unsupported => NoSplice
    case Broken => Failed
    case _ => Ended
  }

  /**
   Writing `want` bytes out of a pipe that holds `have`. An empty pipe whose other end is open would block;
   a call that moves nothing reports the end.
   */
  function Drained(script: seq<Outcome>, want: nat, have: nat): (r: Ran)
    ensures r.moved <= want && r.moved <= have && (r.stop.Finished? <==> r.moved == want)
  {
    if want == 0 then Ran(0, Finished, script)
    else if script == [] then Ran(0, Blocked, [])
    else
      match script[0]
      case Interrupted => Drained(script[1..], want, have)
      case Moves(n) =>
        var got := Min(n, Min(want, have));
        if got == 0 then Ran(0, if n > 0 then Blocked else Ended, script[1..])
        else
          var r := Drained(script[1..], want - got, have - got);
          r.(moved := r.moved + got)
      case o => Ran(0, StopOf(o), script[1..])
  }

  /** One read of at most `want` bytes where `available` are to be had. */
  function Filled(script: seq<Outcome>, want: nat, available: nat): (r: Ran)
    ensures r.moved <= want && r.moved <= available && (r.stop.Finished? <==> r.moved > 0)
  {
    if script == [] then Ran(0, Blocked, [])
    else
      match script[0]
      case Interrupted => Filled(script[1..], want, available)
      case Moves(n) =>
        var got := Min(n, Min(want, available));
        Ran(got, if got > 0 then Finished else Ended, script[1..])
      case o => Ran(0, StopOf(o), script[1..])
  }

  /** Code for a loop that stopped early after `total` bytes were forwarded. */
  function Code(stop: Stop, total: nat): (ret: int)
  {
    match stop
    case NoSplice => NOTSUP
    case Failed => ERROR
    case Blocked => if total > 0 then total else EAGAIN
    case _ => if total > 0 then total else EOF
  }

  /** Bytes that leave the pipe without being counted: the failure codes return before the update. */
  function Uncounted(d: Ran): (n: nat)
  {
    if d.stop.NoSplice? || d.stop.Failed? then d.moved else 0
  }

  /** A call in numbers: its code, and how many bytes went out, came in and went uncounted. */
  datatype Report = Report(ret: int, out: nat, read: nat, lost: nat)

  function Limit(maxLen: nat): (limit: nat)
  {
    Min(if maxLen > 0 then maxLen else SIZE_MAX, MAX_PER_EVENT)
  }

  /** What is left of the limit after the first phase. */
  function Left(maxLen: nat, total: nat): (left: nat)
    requires maxLen > 0 ==> total < maxLen
    ensures left > 0 && (maxLen > 0 ==> total + left <= maxLen)
  {
    if maxLen > 0 then Min(maxLen - total, MAX_PER_EVENT) else MAX_PER_EVENT
  }

  /** Phases 2 and 3 after `total` bytes of phase 1. */
  function Later(script: seq<Outcome>, total: nat, available: nat, capacity: nat, limit: nat): (a: Report)
    ensures a.ret >= ERROR && total <= a.out <= total + limit && a.out - total <= a.read <= available
    ensures a.ret >= EAGAIN ==> a.lost == 0
  {
    var f := Filled(script, Min(CHUNK, Min(limit, capacity)), available);
    if !f.stop.Finished? then Report(Code(f.stop, total), total, 0, 0)
    else
      var w := Drained(f.rest, f.moved, f.moved);
      if w.stop.Finished? then Report(total + w.moved, total + w.moved, f.moved, 0)
      else Report(Code(w.stop, if w.moved > 0 then total + w.moved else 0), total + w.moved, f.moved, Uncounted(w))
  }

  /** The whole call on a pipe that holds `have` bytes where the program believes in `pending`. */
  function Answer(
      pending: nat, have: nat, available: nat, capacity: nat, maxLen: nat, script: seq<Outcome>): (a: Report)
    ensures a.ret >= ERROR && (a.ret >= EAGAIN ==> a.lost == 0) && (maxLen > 0 ==> a.out <= maxLen)
  {
    if pending == 0 then Later(script, 0, available, capacity, Limit(maxLen))
    else
      var d := Drained(script, Min(pending, Limit(maxLen)), have);
      if !d.stop.Finished? then Report(Code(d.stop, d.moved), d.moved, 0, Uncounted(d))
      else if d.moved < pending || d.moved == maxLen then Report(d.moved, d.moved, 0, 0)
      else Later(d.rest, d.moved, available, capacity, Left(maxLen, d.moved))
  }

  /** The kernel writes out all that is pending: the first phase runs to its end within the limit. */
  ghost predicate PipeEmptied(pending: nat, have: nat, maxLen: nat, script: seq<Outcome>)
  {
    0 < pending <= Limit(maxLen) && pending != maxLen && Drained(script, pending, have).stop.Finished?
  }

  /** What the write of phase 3 achieves, if phase 2 reads something. */
  ghost function Write(script: seq<Outcome>, available: nat, capacity: nat, limit: nat): (w: Option<Ran>)
  {
    var f := Filled(script, Min(CHUNK, Min(limit, capacity)), available);
    if f.moved > 0 then Some(Drained(f.rest, f.moved, f.moved)) else None
  }

  /** The write that ends a call: that of phase 3 if the call gets there, else that of phase 1. */
  ghost function LastWrite(
      pending: nat, have: nat, available: nat, capacity: nat, maxLen: nat, script: seq<Outcome>): (w: Option<Ran>)
  {
    if pending == 0 then Write(script, available, capacity, Limit(maxLen))
    else if PipeEmptied(pending, have, maxLen, script)
    then Write(Drained(script, pending, have).rest, available, capacity, Left(maxLen, pending))
    else Some(Drained(script, Min(pending, Limit(maxLen)), have))
  }

  /**
   EAGAIN and EOF although bytes were forwarded: exactly when the first phase emptied the pipe, input was read, and
   the write would block or hangs up before its first byte.
   */
  lemma SilentIff(pending: nat, have: nat, available: nat, capacity: nat, maxLen: nat, script: seq<Outcome>)
    ensures var a := Answer(pending, have, available, capacity, maxLen, script);
            var w := LastWrite(pending, have, available, capacity, maxLen, script);
            a.ret in {EAGAIN, EOF} && a.out > 0 <==>
              && PipeEmptied(pending, have, maxLen, script)
              && w.Some? && w.value.moved == 0 && w.value.stop in {Blocked, Ended}
  {
  }

  /** A caller that finds nothing pending learns of every byte that is forwarded. */
  lemma NothingPendingNothingSilent(
      have: nat, available: nat, capacity: nat, maxLen: nat, script: seq<Outcome>)
    ensures var a := Answer(0, have, available, capacity, maxLen, script);
            a.ret in {EAGAIN, EOF} ==> a.out == 0
  {
  }

  /** The failing family, with concrete answers: phase 1 writes all, the read works, the write blocks. */
  lemma SilentForward(pending: nat, available: nat, capacity: nat)
    requires 0 < pending <= MAX_PER_EVENT && available > 0 && capacity > 0
    ensures var a := Answer(pending, pending, available, capacity, 0, [Moves(pending), Moves(available), WouldBlock]);
            a.ret == EAGAIN && a.out == pending && a.read > 0 && a.lost == 0
  {
    var script := [Moves(pending), Moves(available), WouldBlock];
    var n := Min(CHUNK, Min(MAX_PER_EVENT, capacity));
    assert script[1..] == [Moves(available), WouldBlock] && script[1..][1..] == [WouldBlock];
    assert Drained(script, pending, pending) == Ran(pending, Finished, script[1..]);
    assert Filled(script[1..], n, available) == Ran(Min(n, available), Finished, [WouldBlock]);
    assert Drained([WouldBlock], Min(n, available), Min(n, available)).moved == 0;
  }

  /** Bytes go uncounted exactly when the last write fails for good after it had moved some, and those do. */
  lemma LostIff(pending: nat, have: nat, available: nat, capacity: nat, maxLen: nat, script: seq<Outcome>)
    ensures var a := Answer(pending, have, available, capacity, maxLen, script);
            var w := LastWrite(pending, have, available, capacity, maxLen, script);
            a.lost == if w.Some? && w.value.stop in {NoSplice, Failed} then w.value.moved else 0
  {
  }

  lemma CountLost(pending: nat, moved: nat, available: nat, capacity: nat)
    requires 0 < moved < pending <= MAX_PER_EVENT
    ensures Answer(pending, pending, available, capacity, 0, [Moves(moved), Broken]) == Report(ERROR, moved, 0, moved)
  {
    var script := [Moves(moved), Broken];
    assert script[1..] == [Broken];
    assert Drained([Broken], pending - moved, pending - moved) == Ran(0, Failed, [Broken][1..]);
    assert Drained(script, pending, pending).moved == moved;
  }

  /** What the numbers of a call say when the program believes in at least what is there. */
  lemma AnswerFacts(pending: nat, have: nat, available: nat, capacity: nat, maxLen: nat, script: seq<Outcome>)
    requires have <= pending
    ensures var a := Answer(pending, have, available, capacity, maxLen, script);
            && (a.ret >= OK ==> a.out == a.ret)
            && (a.read > 0 ==> have == pending <= a.out)
            && (a.ret in {EOF, EAGAIN} ==> a.out == if a.read > 0 then pending else 0)
  {
    hide Drained, Filled;
    DrainedFacts(script, Min(pending, Limit(maxLen)), have);
    var d := Drained(script, Min(pending, Limit(maxLen)), have);
    if d.stop.Finished? && d.moved == pending && pending != maxLen {
      LaterFacts(d.rest, d.moved, available, capacity, Left(maxLen, d.moved));
    }
    LaterFacts(script, 0, available, capacity, Limit(maxLen));
  }

  lemma DrainedFacts(script: seq<Outcome>, want: nat, have: nat)
    ensures var r := Drained(script, want, have);
            r.moved <= want && r.moved <= have && (r.stop.Finished? <==> r.moved == want)
  {
  }

  lemma LaterFacts(script: seq<Outcome>, total: nat, available: nat, capacity: nat, limit: nat)
    ensures var a := Later(script, total, available, capacity, limit);
            && a.out >= total && (a.ret >= OK ==> a.out == a.ret)
            && (a.ret in {EOF, EAGAIN} ==> a.out == total && (a.read > 0 || total == 0))
  {
  }

  lemma AnswerBounds(pending: nat, have: nat, available: nat, capacity: nat, maxLen: nat, script: seq<Outcome>)
    ensures var a := Answer(pending, have, available, capacity, maxLen, script);
            a.ret >= ERROR && (a.ret >= EAGAIN ==> a.lost == 0) && (maxLen > 0 ==> a.out <= maxLen)
  {
  }

  // What each answer of the kernel means. An interruption means nothing.

  lemma InterruptionsDoNotMatter(script: seq<Outcome>, want: nat, have: nat)
    requires want > 0
    ensures Drained([Interrupted] + script, want, have) == Drained(script, want, have)
    ensures Filled([Interrupted] + script, want, have) == Filled(script, want, have)
  {
    assert ([Interrupted] + script)[1..] == script;
  }

  predicate MovesNothing(o: Outcome)
  {
    o in {WouldBlock, HungUp, Unsupported, Broken, Moves(0)}
  }

  /** The code for an answer that moves nothing, when `total` bytes have been forwarded. */
  ghost predicate CodeFor(o: Outcome, total: nat, ret: int)
  {
    && (o == WouldBlock ==> ret == if total > 0 then total else -2)
    && (o == HungUp || o == Moves(0) ==> ret == if total > 0 then total else -1)
    && (o == Unsupported ==> ret == -3)
    && (o == Broken ==> ret == -4)
  }

  /** The answer to the read, with nothing pending. */
  lemma ReadAnswer(o: Outcome, rest: seq<Outcome>, available: nat, capacity: nat, maxLen: nat)
    requires MovesNothing(o)
    ensures var a := Answer(0, 0, available, capacity, maxLen, [o] + rest);
            CodeFor(o, 0, a.ret) && a.out == 0 && a.read == 0 && a.lost == 0
  {
    assert ([o] + rest)[1..] == rest;
  }

  /** The answer to the read after the first phase has written all that was pending. */
  lemma ReadAnswerAfterDrain(
      o: Outcome, rest: seq<Outcome>, pending: nat, available: nat, capacity: nat, maxLen: nat)
    requires MovesNothing(o) && 0 < pending <= MAX_PER_EVENT
    requires maxLen == 0 || maxLen > pending
    ensures var a := Answer(pending, pending, available, capacity, maxLen, [Moves(pending), o] + rest);
            CodeFor(o, pending, a.ret) && a.out == pending && a.read == 0 && a.lost == 0
  {
    var script := [Moves(pending), o] + rest;
    assert script[1..] == [o] + rest && ([o] + rest)[1..] == rest;
    assert Drained(script, pending, pending) == Ran(pending, Finished, [o] + rest);
  }

  /** The first answer to the write of what is pending, and the one after a part has been written. */
  lemma FirstWriteAnswer(
      o: Outcome, rest: seq<Outcome>, pending: nat, part: nat, available: nat, capacity: nat, maxLen: nat)
    requires MovesNothing(o) && part < pending && part < Limit(maxLen)
    ensures var script := if part == 0 then [o] + rest else [Moves(part), o] + rest;
            var a := Answer(pending, pending, available, capacity, maxLen, script);
            && CodeFor(o, part, a.ret) && a.out == part && a.read == 0
            && a.lost == if o in {Unsupported, Broken} then part else 0
  {
    var want := Min(pending, Limit(maxLen));
    assert ([o] + rest)[1..] == rest;
    assert Drained([o] + rest, want - part, pending - part) == Ran(0, StopOf(o), rest);
    if part > 0 {
      var script := [Moves(part), o] + rest;
      assert script[1..] == [o] + rest;
      assert Drained(script, want, pending) == Ran(part, StopOf(o), rest);
    }
  }

  /** Whatever the call is for, a first answer that moves nothing decides it. */
  lemma FirstAnswer(pending: nat, available: nat, capacity: nat, maxLen: nat, script: seq<Outcome>)
    ensures script != [] && MovesNothing(script[0]) ==>
              var a := Answer(pending, pending, available, capacity, maxLen, script);
              CodeFor(script[0], 0, a.ret) && a.out == 0 && a.read == 0 && a.lost == 0
  {
    if script != [] && MovesNothing(script[0]) {
      assert script == [script[0]] + script[1..];
      if pending == 0 {
        ReadAnswer(script[0], script[1..], available, capacity, maxLen);
      } else {
        FirstWriteAnswer(script[0], script[1..], pending, 0, available, capacity, maxLen);
      }
    }
  }

  /** The answers to the write of what was just read. */
  lemma SecondWriteAnswer(
      o: Outcome, rest: seq<Outcome>, n: nat, part: nat, available: nat, capacity: nat, maxLen: nat)
    requires MovesNothing(o)
    requires part < n <= Min(CHUNK, Min(Limit(maxLen), capacity)) && n <= available
    ensures var script := if part == 0 then [Moves(n), o] + rest else [Moves(n), Moves(part), o] + rest;
            var a := Answer(0, 0, available, capacity, maxLen, script);
            && CodeFor(o, part, a.ret) && a.out == part && a.read == n
            && a.lost == if o in {Unsupported, Broken} then part else 0
  {
    assert ([o] + rest)[1..] == rest;
    assert Drained([o] + rest, n - part, n - part) == Ran(0, StopOf(o), rest);
    var tail := if part == 0 then [o] + rest else [Moves(part), o] + rest;
    assert ([Moves(n)] + tail)[1..] == tail;
    if part > 0 {
      assert tail[1..] == [o] + rest;
      assert Drained(tail, n, n) == Ran(part, StopOf(o), rest);
    }
    assert [Moves(n)] + tail == if part == 0 then [Moves(n), o] + rest else [Moves(n), Moves(part), o] + rest;
    assert Filled([Moves(n)] + tail, Min(CHUNK, Min(Limit(maxLen), capacity)), available) == Ran(n, Finished, tail);
  }

  /** Everything goes through, up to the limit: what is pending, and what is read and written. */
  lemma AllForwarded(pending: nat, n: nat, available: nat, capacity: nat, maxLen: nat, rest: seq<Outcome>)
    requires 0 < pending <= MAX_PER_EVENT && 0 < n <= Min(CHUNK, capacity) && n <= available
    requires maxLen == 0 || pending + n <= maxLen
    ensures Answer(pending, pending, available, capacity, maxLen, [Moves(pending), Moves(n), Moves(n)] + rest)
         == Report(pending + n, pending + n, n, 0)
  {
    var script := [Moves(pending), Moves(n), Moves(n)] + rest;
    assert script[1..] == [Moves(n), Moves(n)] + rest && script[1..][1..] == [Moves(n)] + rest;
    assert script[1..][1..][1..] == rest;
    assert Drained(script, pending, pending) == Ran(pending, Finished, script[1..]);
    var want := Min(CHUNK, Min(Left(maxLen, pending), capacity));
    assert Filled(script[1..], want, available) == Ran(n, Finished, [Moves(n)] + rest);
    assert Drained([Moves(n)] + rest, n, n) == Ran(n, Finished, rest);
  }

  /** A limit is never overstepped, and nothing is read beyond it. */
  lemma LimitKept(pending: nat, have: nat, available: nat, capacity: nat, maxLen: nat, script: seq<Outcome>)
    requires maxLen > 0
    ensures var a := Answer(pending, have, available, capacity, maxLen, script);
            a.out <= maxLen && (a.read > 0 ==> pending + a.read <= maxLen)
  {
  }

  // The pump.

  class Pump {
    // splice_state_t
    var initialized: bool
    var pending: nat
    var capacity: nat
    var bytesIn: nat
    var bytesOut: nat
    // the kernel
    var pipe: seq<Byte>
    var incoming: seq<Byte>
    var consumed: seq<Byte>
    var output: seq<Byte>
    var outcomes: seq<Outcome>
    ghost var lost: nat                    // bytes that left the pipe uncounted

    /** No byte is lost, duplicated or reordered between input, pipe and output. */
    predicate Conserved()
      reads this
    {
      output + pipe == consumed && |pipe| <= capacity
    }

    /** The counters agree with the kernel up to the lost bytes. */
    ghost predicate Tracked()
      reads this
    {
      Conserved() && |output| == bytesOut + lost && pending == |pipe| + lost && bytesIn == |consumed|
    }

    /** The counters agree with the kernel: the debug assertions of the pump. */
    predicate Counted()
      reads this
    {
      && pending == |pipe| && bytesOut == |output| && bytesIn == |consumed|
      && bytesIn == bytesOut + pending && pending <= capacity
    }

    predicate Valid()
      reads this
    {
      Conserved() && Counted()
    }

    /** `atpd_splice_state_init` on a fresh pipe, with the size the kernel grants. */
    constructor (granted: nat, source: seq<Byte>, kernel: seq<Outcome>)
      ensures Valid() && Tracked() && lost == 0 && initialized && capacity == granted
      ensures incoming == source && consumed == [] && output == [] && outcomes == kernel
    {
      initialized, pending, capacity, bytesIn, bytesOut, lost := true, 0, granted, 0, 0, 0;
      pipe, incoming, consumed, output, outcomes := [], source, [], [], kernel;
    }

    /** Bytes leave the front of the pipe for the output. */
    method MoveOut(n: nat)
      requires n <= |pipe|
      modifies this`pipe, this`output
      ensures output == old(output) + old(pipe)[..n] && pipe == old(pipe)[n..]
      ensures output + pipe == old(output + pipe)
    {
      assert pipe == pipe[..n] + pipe[n..];
      output, pipe := output + pipe[..n], pipe[n..];
    }

    /** Bytes of the input enter the back of the pipe. */
    method MoveIn(n: nat)
      requires n <= |incoming| && output + pipe == consumed
      modifies this`pipe, this`incoming, this`consumed
      ensures pipe == old(pipe) + old(incoming)[..n] && incoming == old(incoming)[n..]
      ensures consumed == old(consumed) + old(incoming)[..n]
      ensures output + pipe == consumed && consumed + incoming == old(consumed + incoming)
    {
      MovedIn(output, pipe, consumed, incoming, n);
      pipe, consumed, incoming := pipe + incoming[..n], consumed + incoming[..n], incoming[n..];
    }

    /**
     The loop `while (drained < to_drain)` that phases 1 and 3 share. The counters are the caller's
     business: here bytes only move from the front of the pipe to the output.
     */
    method Drain(want: nat) returns (moved: nat, stop: Stop)
      modifies this`outcomes, this`pipe, this`output
      ensures Ran(moved, stop, outcomes) == Drained(old(outcomes), want, |old(pipe)|)
      ensures |pipe| == |old(pipe)| - moved && |output| == |old(output)| + moved
      ensures output + pipe == old(output + pipe) && old(output) <= output
    {
      moved := 0;
      while moved < want
        invariant moved <= want && |pipe| == |old(pipe)| - moved && |output| == |old(output)| + moved
        invariant output + pipe == old(output + pipe) && old(output) <= output
        invariant var r := Drained(outcomes, want - moved, |pipe|);
                  Drained(old(outcomes), want, |old(pipe)|) == r.(moved := r.moved + moved)
        decreases |outcomes|, want - moved
      {
        if outcomes == [] { stop := Blocked; return; }
        var o := outcomes[0];
        outcomes := outcomes[1..];
        match o {
          case Interrupted =>
          case Moves(n) =>
            var got := Min(n, Min(want - moved, |pipe|));
            if got == 0 { stop := if n > 0 then Blocked else Ended; return; }
            MoveOut(got);
            moved := moved + got;
          case _ => stop := StopOf(o); return;
        }
      }
      stop := Finished;
    }

    /** The `do ... while (EINTR)` read of phase 2. */
    method Fill(want: nat) returns (n: nat, stop: Stop)
      requires output + pipe == consumed
      modifies this`outcomes, this`pipe, this`incoming, this`consumed
      ensures Ran(n, stop, outcomes) == Filled(old(outcomes), want, |old(incoming)|)
      ensures |pipe| == |old(pipe)| + n && |consumed| == |old(consumed)| + n
      ensures output + pipe == consumed && old(consumed) <= consumed
      ensures consumed + incoming == old(consumed + incoming)
    {
      n := 0;
      while outcomes != [] && outcomes[0] == Interrupted
        invariant Filled(outcomes, want, |incoming|) == Filled(old(outcomes), want, |incoming|)
        invariant pipe == old(pipe) && incoming == old(incoming) && consumed == old(consumed) && output == old(output)
        decreases |outcomes|
      {
        outcomes := outcomes[1..];
      }
      if outcomes == [] { return 0, Blocked; }
      var o := outcomes[0];
      outcomes := outcomes[1..];
      if o.Moves? {
        n := Min(o.n, Min(want, |incoming|));
        stop := if n > 0 then Finished else Ended;
        MoveIn(n);
      } else {
        stop := StopOf(o);
      }
    }

    /** The two places that write the pipe out. */
    method DrainCounted(want: nat) returns (moved: nat, stop: Stop)
      requires Tracked() && want <= pending
      modifies this`outcomes, this`pipe, this`output, this`pending, this`bytesOut, this`lost
      ensures Tracked() && old(output) <= output
      ensures Ran(moved, stop, outcomes) == Drained(old(outcomes), want, |old(pipe)|)
      ensures |output| == |old(output)| + moved && lost == old(lost) + Uncounted(Ran(moved, stop, outcomes))
      ensures stop.Finished? ==> pending == old(pending) - want
    {
      moved, stop := Drain(want);
      if stop.NoSplice? || stop.Failed? {
        lost := lost + moved;
      } else {
        pending, bytesOut := pending - moved, bytesOut + moved;
      }
    }

    /**
     Phase 1: drain what is pending. Either the call ends here with a code, or the pipe is empty and
     `left` bytes of the limit remain.
     */
    method DrainPending(maxLen: nat, limit: nat) returns (ret: Option<int>, total: nat, left: nat)
      requires Tracked() && pending > 0 && limit == Limit(maxLen)
      modifies this`outcomes, this`pipe, this`output, this`pending, this`bytesOut, this`lost
      ensures Tracked() && old(output) <= output && |output| == |old(output)| + total
      ensures var d := Drained(old(outcomes), Min(old(pending), limit), |old(pipe)|);
              && total == d.moved && outcomes == d.rest && lost == old(lost) + Uncounted(d)
              && (ret.None? <==> d.stop.Finished? && total == old(pending) && total != maxLen)
              && (ret.None? ==> pending == 0 && left == Left(maxLen, total))
              && (ret.Some? ==> ret.value == if d.stop.Finished? then total else Code(d.stop, total))
    {
      var stop;
      left := limit;
      total, stop := DrainCounted(Min(pending, limit));
      if !stop.Finished? { return Some(Code(stop, total)), total, left; }
      if maxLen > 0 && total >= maxLen { return Some(total), total, left; }
      if maxLen > 0 { left := maxLen - total; }
      left := Min(left, MAX_PER_EVENT);
      if pending > 0 { return Some(total), total, left; }
      ret := None;
    }

    /** Phases 2 and 3: fill the empty pipe, then write it out, after `total` bytes of phase 1. */
    method ReadThenWrite(total: nat, limit: nat) returns (ret: int)
      requires Tracked() && pending == 0 && limit > 0
      modifies this`outcomes, this`pipe, this`incoming, this`consumed, this`output,
               this`pending, this`bytesIn, this`bytesOut, this`lost
      ensures Tracked() && old(output) <= output && old(consumed) <= consumed
      ensures consumed + incoming == old(consumed + incoming)
      ensures Report(ret, |output| - |old(output)| + total, |consumed| - |old(consumed)|, lost - old(lost))
           == Later(old(outcomes), total, |old(incoming)|, capacity, limit)
    {
      hide Drained, Filled;
      var n, stop := Fill(Min(CHUNK, Min(limit, capacity)));
      if !stop.Finished? { return Code(stop, total); }
      pending, bytesIn := pending + n, bytesIn + n;
      var written;
      written, stop := DrainCounted(Min(pending, limit));
      if !stop.Finished? && written == 0 { return Code(stop, 0); }
      if !stop.Finished? { return Code(stop, total + written); }
      return if total + written > 0 then total + written else OK;
    }

    /** `atpd_bridge_splice_stateful`, in any state that earlier calls can have left. */
    method Forward(fdIn: int, fdOut: int, maxLen: nat) returns (ret: int)
      requires Tracked()
      modifies this
      // byte sequences: FIFO, nothing lost, whatever is returned
      ensures Tracked() && capacity == old(capacity) && initialized == old(initialized)
      ensures old(output) <= output && old(consumed) <= consumed
      ensures consumed + incoming == old(consumed + incoming)
      // counters: exact as long as no call failed after partial progress
      ensures Valid() <==> lost == 0
      ensures lost >= old(lost) && (ret >= EAGAIN ==> lost == old(lost))
      // the returned count
      ensures ret >= ERROR
      ensures ret >= OK ==> bytesOut == old(bytesOut) + ret
      ensures maxLen > 0 ==> |output| <= |old(output)| + maxLen
      // input is read only once the pipe has been emptied, and never again once bytes went uncounted
      ensures |consumed| > |old(consumed)| ==> |output| >= |old(consumed)| && old(lost) == 0
      // EOF and EAGAIN: bytes counted in this call are exactly a completed first phase
      ensures ret in {EOF, EAGAIN} ==>
                bytesOut == old(bytesOut) + if bytesIn > old(bytesIn) then old(pending) else 0
      ensures ret in {EOF, EAGAIN} && old(pending) == 0 ==> bytesOut == old(bytesOut)
      // an answer that moves nothing decides the call at once
      ensures old(initialized) && fdIn >= 0 && fdOut >= 0 && old(lost) == 0 && old(outcomes) != []
              && MovesNothing(old(outcomes)[0]) ==>
                CodeFor(old(outcomes)[0], 0, ret) && output == old(output) && pending == old(pending)
      // and all of it from the kernel's answers
      ensures old(initialized) && fdIn >= 0 && fdOut >= 0 ==>
                Report(ret, |output| - |old(output)|, |consumed| - |old(consumed)|, lost - old(lost))
                == Answer(old(pending), |old(pipe)|, |old(incoming)|, capacity, maxLen, old(outcomes))
      ensures !(old(initialized) && fdIn >= 0 && fdOut >= 0) ==>
                ret == ERROR && pending == old(pending) && pipe == old(pipe)
    {
      if !initialized || fdIn < 0 || fdOut < 0 { return ERROR; }
      AnswerFacts(pending, |pipe|, |incoming|, capacity, maxLen, outcomes);
      AnswerBounds(pending, |pipe|, |incoming|, capacity, maxLen, outcomes);
      if lost == 0 { FirstAnswer(pending, |incoming|, capacity, maxLen, outcomes); }
      hide Answer, MovesNothing, CodeFor;
      ret := Phases(maxLen);
    }

    /** The three phases. */
    method Phases(maxLen: nat) returns (ret: int)
      requires Tracked()
      modifies this`outcomes, this`pipe, this`incoming, this`consumed, this`output,
               this`pending, this`bytesIn, this`bytesOut, this`lost
      ensures Tracked() && old(output) <= output && old(consumed) <= consumed && lost >= old(lost)
      ensures consumed + incoming == old(consumed + incoming)
      ensures Report(ret, |output| - |old(output)|, |consumed| - |old(consumed)|, lost - old(lost))
           == Answer(old(pending), |old(pipe)|, |old(incoming)|, capacity, maxLen, old(outcomes))
    {
      hide Drained, Filled, Later, Code;
      var total: nat := 0;
      var limit := Min(if maxLen > 0 then maxLen else SIZE_MAX, MAX_PER_EVENT);
      if pending > 0 {
        var code;
        code, total, limit := DrainPending(maxLen, limit);
        if code.Some? { return code.value; }
      }
      ret := ReadThenWrite(total, limit);
    }

    /** Calls the pump again and again, as the event loop does. */
    method ForwardAll(fdIn: int, fdOut: int, limits: seq<nat>) returns (rets: seq<int>)
      requires Tracked()
      modifies this
      ensures |rets| == |limits| && Tracked() && old(output) <= output && output <= old(consumed + incoming)
      ensures old(lost) == 0 && (forall i :: 0 <= i < |rets| ==> rets[i] >= EAGAIN) ==> Valid()
      ensures old(lost) > 0 ==> consumed == old(consumed)
    {
      rets := [];
      ghost var stream := consumed + incoming;
      for i := 0 to |limits|
        invariant |rets| == i && Tracked() && consumed + incoming == stream && old(output) <= output
        invariant old(lost) == 0 && (forall j :: 0 <= j < |rets| ==> rets[j] >= EAGAIN) ==> lost == 0
        invariant old(lost) > 0 ==> lost > 0 && consumed == old(consumed)
      {
        var r := Forward(fdIn, fdOut, limits[i]);
        ghost var before := rets;
        rets := rets + [r];
        assert forall j :: 0 <= j < |before| ==> rets[j] == before[j];
        assert rets[i] == r;
      }
    }
  }

  lemma MovedIn(output: seq<Byte>, pipe: seq<Byte>, consumed: seq<Byte>, incoming: seq<Byte>, n: nat)
    requires n <= |incoming| && output + pipe == consumed
    ensures output + (pipe + incoming[..n]) == consumed + incoming[..n]
    ensures consumed + incoming[..n] + incoming[n..] == consumed + incoming
  {
    assert incoming == incoming[..n] + incoming[n..];
  }
}
