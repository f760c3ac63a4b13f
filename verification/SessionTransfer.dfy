/**
 What the kernel's answers make of a session's transfers, in numbers of bytes: the drain of a dirty pipe and the
 pump of the input callback. A positive answer moves that many bytes at most; at the end of the script a call
 reports the end of its input.
 */
module SessionTransfer {
  import opened Options
  import opened SessionTables
  import opened SessionRuns

  const EAGAIN := -11
  const EINTR := -4
  const EPIPE := -32
  const ECONNRESET := -104
  const EINVAL := -22

  const SPLICE_OK := 0
  const SPLICE_EOF := -1
  const SPLICE_NOTSUP := -3
  const SPLICE_ERROR := -4
  const SPLICE_VPN_NOT_READY := -5
  const PIPE_SIZE := 65536

  /** The next answer, at most `limit`. */
  function Head(script: seq<int>, limit: nat): (n: int)
    ensures n <= limit && (script == [] ==> n == 0)
  {
    if script == [] then 0 else if script[0] > limit then limit else script[0]
  }

  function Tail(script: seq<int>): (rest: seq<int>)
    ensures |rest| <= |script| && (script != [] ==> |rest| < |script|)
  {
    if script == [] then [] else script[1..]
  }

  /** Why a loop of writes ended. */
  datatype Stop = AllSent | Blocked | HungUp | AtEnd | Broken | NotReady

  datatype Loop = Loop(sent: nat, stop: Stop, rest: seq<int>)

  /** The loop of `atpd_session_drain_pipe` on `want` bytes. */
  function Drains(script: seq<int>, want: nat): (r: Loop)
    ensures r.sent <= want && |r.rest| <= |script| && (r.stop.AllSent? <==> r.sent == want)
    ensures r.stop in {AllSent, Blocked, AtEnd, Broken}
    decreases |script|, want
  {
    var n, rest := Head(script, want), Tail(script);
    if want == 0 then Loop(0, AllSent, script)
    else if n == EAGAIN then Loop(0, Blocked, rest)
    else if n == EINTR then Drains(rest, want)
    else if n < 0 then Loop(0, Broken, rest)
    else if n == 0 then Loop(0, AtEnd, rest)
    else
      var r := Drains(rest, want - n);
      r.(sent := r.sent + n)
  }

  /** Bytes offered by the answers. */
  ghost function Offered(script: seq<int>): (n: nat)
  {
    if script == [] then 0 else Offered(script[1..]) + if script[0] > 0 then script[0] else 0
  }

  lemma OfferedMore(n: int, script: seq<int>)
    ensures Offered([n] + script) == Offered(script) + if n > 0 then n else 0
  {
    assert ([n] + script)[1..] == script;
  }

  /** The answers that a drain uses up. */
  ghost function Used(script: seq<int>, want: nat): (used: seq<int>)
  {
    script[..|script| - |Drains(script, want).rest|]
  }

  /** Why a drain that is not finished stops, by the last answer it used. */
  ghost predicate StopsFor(r: Loop, used: seq<int>)
  {
    if used == [] then r.stop.AtEnd? && r.rest == []
    else
      var last := used[|used| - 1];
      && (r.stop.Blocked? <==> last == -11)
      && (r.stop.Broken? <==> last < 0 && last !in {-4, -11})
      && (r.stop.AtEnd? <==> last == 0 || (r.rest == [] && (last == -4 || last > 0)))
  }

  /**
   The drain without its loop: it uses up a beginning of the script in which every answer but the last offers bytes
   or is an interruption, sends what that beginning offers, and stops for what the last answer says.
   */
  lemma {:induction false} DrainLaw(script: seq<int>, want: nat)
    ensures var r, used := Drains(script, want), Used(script, want);
            && r.sent == Min(want, Offered(used)) && (r.sent < want ==> StopsFor(r, used))
            && (forall i :: 0 <= i < |used| - 1 ==> used[i] == -4 || used[i] > 0)
    decreases |script|
  {
    if want > 0 && script != [] {
      UsedStep(script, want);
      var n, rest := Head(script, want), Tail(script);
      if n == EINTR || n > 0 {
        var next := if n > 0 then want - n else want;
        DrainLaw(rest, next);
        hide Used, Offered;
        StopsLater(Drains(rest, next), Used(rest, next), script[0], Drains(script, want));
      }
    }
  }

  lemma StopsLater(r: Loop, used: seq<int>, first: int, r': Loop)
    requires r'.stop == r.stop && r'.rest == r.rest && (first == -4 || first > 0)
    ensures StopsFor(r, used) ==> StopsFor(r', [first] + used)
  {
  }

  /** How the first answer extends what is used. */
  lemma UsedStep(script: seq<int>, want: nat)
    requires want > 0 && script != []
    ensures var n, rest := Head(script, want), Tail(script);
            var next := if n > 0 then want - n else want;
            if n == -4 || n > 0
            then Used(script, want) == [script[0]] + Used(rest, next)
                 && Offered(Used(script, want)) == Offered(Used(rest, next)) + if n > 0 then script[0] else 0
            else Used(script, want) == [script[0]] && Offered(Used(script, want)) == 0
  {
    var n, rest := Head(script, want), Tail(script);
    var next := if n > 0 then want - n else want;
    if n == -4 || n > 0 {
      assert Used(script, want) == [script[0]] + Used(rest, next);
      OfferedMore(script[0], Used(rest, next));
    } else {
      assert Used(script, want) == [script[0]] + [];
      OfferedMore(script[0], []);
    }
  }

  /** The inner loop of the pump: each write is preceded by a look at the VPN. */
  function Sends(script: seq<int>, want: nat): (r: Loop)
    ensures r.sent <= want && |r.rest| <= |script| && (r.stop.AllSent? <==> r.sent == want)
    decreases |script|, want
  {
    var answers := Tail(script);
    var n, rest := Head(answers, want), Tail(answers);
    if want == 0 then Loop(0, AllSent, script)
    else if Head(script, 1) <= 0 then Loop(0, NotReady, answers)
    else if n == EAGAIN then Loop(0, Blocked, rest)
    else if n == EPIPE || n == ECONNRESET then Loop(0, HungUp, rest)
    else if n == EINTR then Sends(rest, want)
    else if n < 0 then Loop(0, Broken, rest)
    else if n == 0 then Loop(0, AtEnd, rest)
    else
      var r := Sends(rest, want - n);
      r.(sent := r.sent + n)
  }

  lemma SendBounds(script: seq<int>, want: nat)
    ensures var r := Sends(script, want);
            r.sent <= want && |r.rest| <= |script| && (r.stop.AllSent? <==> r.sent == want)
  {
  }

  /** What each pair of answers means to the inner loop. */
  lemma SendAnswers(ready: int, n: int, rest: seq<int>, want: nat)
    requires want > 0
    ensures var r := Sends([ready, n] + rest, want);
            && (ready <= 0 ==> r == Loop(0, NotReady, [n] + rest))
            && (ready > 0 && n == -11 ==> r == Loop(0, Blocked, rest))
            && (ready > 0 && n in {-32, -104} ==> r == Loop(0, HungUp, rest))
            && (ready > 0 && n == -4 ==> r == Sends(rest, want))
            && (ready > 0 && n < 0 && n !in {-4, -11, -32, -104} ==> r == Loop(0, Broken, rest))
            && (ready > 0 && n == 0 ==> r == Loop(0, AtEnd, rest))
            && (ready > 0 && n >= want ==> r == Loop(want, AllSent, rest))
            && (ready > 0 && 0 < n < want ==> r.sent == n + Sends(rest, want - n).sent)
  {
    var script := [ready, n] + rest;
    assert script[1..] == [n] + rest && script[1..][1..] == rest;
  }

  /** How a pump leaves its session. */
  datatype End =
    | Quiet                                // as it was
    | Stalled(left: nat, wait: bool)       // dirty with bytes pending; `wait` for the output to take more
    | Abandoned                            // closed, and what is in the pipe given up

  datatype Pumped = Pumped(ret: int, read: nat, sent: nat, end: End, rest: seq<int>)

  function Count(total: nat, otherwise: int): (ret: int)
  {
    if total > 0 then total else otherwise
  }

  /** A pump that ends with a write of `n` bytes that stopped, after `total` bytes. */
  function Ends(w: Loop, n: nat, total: nat): (p: Pumped)
    requires w.sent < n && !w.stop.AllSent?
    ensures p.rest == w.rest && p.read == n && p.sent == w.sent && p.ret <= total + n
  {
    match w.stop
    case NotReady => Pumped(Count(total, SPLICE_VPN_NOT_READY), n, w.sent, Abandoned, w.rest)
    case Blocked => Pumped(total + w.sent, n, w.sent, Stalled(n - w.sent, true), w.rest)
    case HungUp => Pumped(Count(total + w.sent, SPLICE_EOF), n, w.sent, Stalled(n - w.sent, false), w.rest)
    case Broken => Pumped(SPLICE_ERROR, n, w.sent, Quiet, w.rest)
    case AtEnd => Pumped(Count(total + w.sent, SPLICE_EOF), n, w.sent, Quiet, w.rest)
  }

  /** The loops of `atpd_session_splice_pump` after `total` bytes, up to the change of the reactor's interest. */
  function Pumps(script: seq<int>, maxLen: nat, total: nat): (p: Pumped)
    requires total <= maxLen
    ensures p.ret <= maxLen && p.sent <= p.read <= maxLen - total && |p.rest| <= |script|
    decreases |script|, maxLen - total
  {
    var n, rest := Head(script, maxLen - total), Tail(script);
    if total == maxLen then Pumped(Count(total, SPLICE_OK), 0, 0, Quiet, script)
    else if n == EAGAIN then Pumped(Count(total, SPLICE_OK), 0, 0, Quiet, rest)
    else if n == EINTR then Pumps(rest, maxLen, total)
    else if n == EPIPE || n == ECONNRESET || n == 0 then Pumped(Count(total, SPLICE_EOF), 0, 0, Quiet, rest)
    else if n < 0 then Pumped(if n == EINVAL then SPLICE_NOTSUP else SPLICE_ERROR, 0, 0, Quiet, rest)
    else
      var w := Sends(rest, n);
      if w.stop.AllSent? then
        var p := Pumps(w.rest, maxLen, total + n);
        p.(read := p.read + n, sent := p.sent + n)
      else Ends(w, n, total)
  }

  /**
   Conservation: what a stalled pump leaves pending is what it read and did not send, and a count is what it sent,
   except that a pump that gives up counts only what it had sent before its last read.
   */
  ghost predicate Lawful(p: Pumped, total: nat)
  {
    && (p.end.Stalled? ==> p.read == p.sent + p.end.left && p.end.left > 0)
    && (p.ret >= 0 && !p.end.Abandoned? ==> p.ret == total + p.sent)
    && (p.ret >= 0 && p.end.Abandoned? ==> 0 < p.ret <= total + p.sent && p.read > 0)
    && (p.ret in {SPLICE_EOF, SPLICE_VPN_NOT_READY} ==> total == 0 && (p.sent == 0 || p.end.Abandoned?))
    && (p.ret < 0 ==> p.ret in {-1, -3, -4, -5})
    && (p.ret == SPLICE_VPN_NOT_READY ==> p.end.Abandoned?)
  }

  lemma EndsLaw(w: Loop, n: nat, total: nat)
    requires w.sent < n && !w.stop.AllSent?
    ensures Lawful(Ends(w, n, total), total)
  {
  }

  lemma {:induction false} PumpLaw(script: seq<int>, maxLen: nat, total: nat)
    requires total <= maxLen
    ensures Lawful(Pumps(script, maxLen, total), total)
    decreases |script|, maxLen - total
  {
    var n, rest := Head(script, maxLen - total), Tail(script);
    if total < maxLen && n == EINTR {
      PumpLaw(rest, maxLen, total);
    } else if total < maxLen && n > 0 {
      var w := Sends(rest, n);
      SendBounds(rest, n);
      hide Sends;
      if w.stop.AllSent? {
        PumpLaw(w.rest, maxLen, total + n);
      } else {
        EndsLaw(w, n, total);
        hide Ends;
      }
    }
  }

  /** One turn of the outer loop. */
  lemma PumpTurn(script: seq<int>, maxLen: nat, total: nat)
    requires total <= maxLen
    ensures var p, n, rest := Pumps(script, maxLen, total), Head(script, maxLen - total), Tail(script);
            && (total == maxLen ==> p == Pumped(Count(total, SPLICE_OK), 0, 0, Quiet, script))
            && (total < maxLen && n == EAGAIN ==> p == Pumped(Count(total, SPLICE_OK), 0, 0, Quiet, rest))
            && (total < maxLen && n == EINTR ==> p == Pumps(rest, maxLen, total))
            && (total < maxLen && n in {EPIPE, ECONNRESET, 0} ==>
                  p == Pumped(Count(total, SPLICE_EOF), 0, 0, Quiet, rest))
            && (total < maxLen && n < 0 && n !in {EAGAIN, EINTR, EPIPE, ECONNRESET} ==>
                  p == Pumped(if n == EINVAL then SPLICE_NOTSUP else SPLICE_ERROR, 0, 0, Quiet, rest))
            && (total < maxLen && n > 0 ==>
                  var w := Sends(rest, n);
                  if !w.stop.AllSent? then p == Ends(w, n, total)
                  else Continues(p, Pumps(w.rest, maxLen, total + n), n))
  {
  }

  /** What the answer to the read means to the pump. */
  lemma ReadAnswers(n: int, rest: seq<int>, maxLen: nat, total: nat)
    requires total < maxLen
    ensures var p := Pumps([n] + rest, maxLen, total);
            && (n == -11 ==> p == Pumped(total, 0, 0, Quiet, rest))
            && (n == -4 ==> p == Pumps(rest, maxLen, total))
            && (n in {0, -32, -104} ==> p == Pumped(if total > 0 then total else -1, 0, 0, Quiet, rest))
            && (n == -22 ==> p == Pumped(-3, 0, 0, Quiet, rest))
            && (n < 0 && n !in {-4, -11, -22, -32, -104} ==> p == Pumped(-4, 0, 0, Quiet, rest))
  {
    assert ([n] + rest)[1..] == rest;
  }

  /** What the end of the writes means to the pump. */
  lemma WriteAnswers(n: nat, rest: seq<int>, maxLen: nat, total: nat)
    requires 0 < n <= maxLen - total
    ensures var p, w := Pumps([n] + rest, maxLen, total), Sends(rest, n);
            && (w.stop.AllSent? ==>
                  p.sent == n + Pumps(w.rest, maxLen, total + n).sent && p.ret == Pumps(w.rest, maxLen, total + n).ret)
            && (w.stop.Blocked? ==> p == Pumped(total + w.sent, n, w.sent, Stalled(n - w.sent, true), w.rest))
            && (w.stop.HungUp? ==> p.end == Stalled(n - w.sent, false) && p.sent == w.sent)
            && (w.stop.Broken? ==> p == Pumped(-4, n, w.sent, Quiet, w.rest))
            && (w.stop.AtEnd? ==> p.end.Quiet? && p.sent == w.sent && p.ret == Count(total + w.sent, -1))
            && (w.stop.NotReady? ==> p == Pumped(Count(total, -5), n, w.sent, Abandoned, w.rest))
  {
    assert ([n as int] + rest)[1..] == rest;
  }

  /** A hundred bytes that the kernel takes at once: a hundred bytes are forwarded. */
  lemma HundredBytes()
    ensures Pumps([100, 1, 100, -11], PIPE_SIZE, 0) == Pumped(100, 100, 100, Quiet, [])
  {
    var script := [100, 1, 100, -11];
    assert script[1..] == [1, 100] + [-11];
    SendAnswers(1, 100, [-11], 100);
    assert Pumps([-11] + [], PIPE_SIZE, 100) == Pumped(100, 0, 0, Quiet, []) by {
      ReadAnswers(-11, [], PIPE_SIZE, 100);
    }
    assert [-11] + [] == [-11];
  }

  // What the callbacks make of a session.

  /** The pump itself: `r` is returned, and the reactor may refuse to wait for the output. */
  ghost predicate Settles(s: Session, p: Pumped, r: int, s': Session, rest: seq<int>)
  {
    if p.end.Stalled? && p.end.wait then
      || (r == p.ret && rest == Tail(p.rest) && SameBody(s.(state := PIPE_DIRTY, pending := p.end.left), s'))
      || (r == SPLICE_ERROR && rest in {p.rest, Tail(p.rest)} && s'.state >= CLOSING)
    else
      && r == p.ret && rest == p.rest
      && (p.end.Quiet? ==> SameBody(s, s'))
      && (p.end.Abandoned? ==> s'.state >= CLOSING && s'.drained && !s'.pipeOpen && s'.pending == 0)
      && (p.end.Stalled? ==> SameBody(s.(state := PIPE_DIRTY, pending := p.end.left), s'))
  }

  /** `whole` is `part` with `total` bytes before it. */
  ghost predicate Continues(whole: Pumped, part: Pumped, total: nat)
  {
    whole == part.(read := part.read + total, sent := part.sent + total)
  }

  lemma EndsQuiet(s: Session, w: Loop, n: nat, total: nat)
    requires w.sent < n && w.stop in {Broken, AtEnd}
    ensures var p := Ends(w, n, total);
            && p.ret == (if w.stop.Broken? then SPLICE_ERROR else Count(total + w.sent, SPLICE_EOF))
            && Settles(s, p, p.ret, s, w.rest)
  {
  }

  lemma EndsAbandoned(s: Session, w: Loop, n: nat, total: nat, s': Session)
    requires w.sent < n && w.stop.NotReady? && s'.state >= CLOSING && s'.drained && !s'.pipeOpen && s'.pending == 0
    ensures Settles(s, Ends(w, n, total), Count(total, SPLICE_VPN_NOT_READY), s', w.rest)
  {
  }

  /** What becomes of the session when `left` bytes stay in the pipe. */
  ghost predicate StallsTo(
      s: Session, left: nat, forwarded: nat, wait: bool, r: int, s': Session, now: seq<int>, rest: seq<int>)
  {
    if wait then
      || (r == forwarded && rest == Tail(now) && s' == s.(state := PIPE_DIRTY, pending := left))
      || (r == SPLICE_ERROR && rest in {now, Tail(now)} && s'.state >= CLOSING)
    else r == Count(forwarded, SPLICE_EOF) && rest == now && s' == s.(state := PIPE_DIRTY, pending := left)
  }

  lemma EndsStalled(s: Session, w: Loop, n: nat, total: nat, r: int, s': Session, rest: seq<int>)
    requires w.sent < n && w.stop in {Blocked, HungUp}
    requires StallsTo(s, n - w.sent, total + w.sent, w.stop.Blocked?, r, s', w.rest, rest)
    ensures Settles(s, Ends(w, n, total), r, s', rest)
  {
  }

  lemma SettlesQuiet(s: Session, whole: Pumped, part: Pumped, total: nat)
    requires Continues(whole, part, total) && part.end.Quiet?
    ensures Settles(s, whole, part.ret, s, part.rest)
  {
  }

  lemma SettlesWhole(s: Session, whole: Pumped, part: Pumped, total: nat, r: int, s': Session, rest: seq<int>)
    requires Continues(whole, part, total) && Settles(s, part, r, s', rest)
    ensures Settles(s, whole, r, s', rest)
  {
  }

  /** The session after a pump that got as far as `p`; a refused change of interest closes it. */
  ghost predicate AfterPump(s: Session, p: Pumped, s': Session)
  {
    if p.end.Abandoned? then s'.state >= CLOSING && s'.drained && !s'.pipeOpen && s'.pending == 0
    else if p.ret < 0 then s'.state >= CLOSING
    else if p.end.Quiet? then SameBody(s, s')
    else (p.end.wait && s'.state >= CLOSING) || SameBody(s.(state := PIPE_DIRTY, pending := p.end.left), s')
  }

  /**
   The input callback on an open session without an error: nothing but a drain of a dirty pipe that stays dirty, or
   (after a drain) a pump; `sent` bytes reach the output, and a failing pump closes the session.
   */
  ghost predicate InEffect(s: Session, script: seq<int>, s': Session, rest: seq<int>, sent: nat)
  {
    if s.state == PIPE_DIRTY && s.pending > 0 then DrainThenPump(s, script, s', rest, sent)
    else if s.state == PIPE_DIRTY then SameBody(s, s') && rest == script && sent == 0
    else PumpOnly(s, script, s', rest, sent)
  }

  ghost predicate PumpOnly(s: Session, script: seq<int>, s': Session, rest: seq<int>, sent: nat)
  {
    if Head(script, 1) <= 0 then s'.state >= CLOSING && rest == Tail(script) && sent == 0
    else
      var p := Pumps(Tail(script), PIPE_SIZE, 0);
      && sent == p.sent && AfterPump(s, p, s')
      && (if !p.end.Stalled? || !p.end.wait then rest == p.rest
          else if s'.state < CLOSING then rest == Tail(p.rest) else rest in {p.rest, Tail(p.rest)})
  }

  ghost predicate DrainThenPump(s: Session, script: seq<int>, s': Session, rest: seq<int>, sent: nat)
  {
    var d := Drains(script, s.pending);
    if d.stop.Blocked? then SameBody(s.(pending := s.pending - d.sent), s') && rest == d.rest && sent == d.sent
    else if d.stop.Broken? then SameBody(s, s') && rest == d.rest && sent == d.sent
    else
      || (s'.state >= CLOSING && sent == d.sent)
      || (sent >= d.sent && PumpOnly(s.(state := ACTIVE, pending := 0), Tail(d.rest), s', rest, sent - d.sent))
  }

  /**
   The output callback on an open session without an error: nothing unless the pipe is dirty; else a drain, after
   which the session is dirty with the rest, active with nothing pending, or closing.
   */
  ghost predicate OutEffect(s: Session, script: seq<int>, s': Session, rest: seq<int>, sent: nat)
  {
    if s.state != PIPE_DIRTY || s.pending == 0 then SameBody(s, s') && rest == script && sent == 0
    else
      var d := Drains(script, s.pending);
      && sent == d.sent
      && (if d.stop.Blocked? then SameBody(s.(pending := s.pending - d.sent), s') && rest == d.rest
          else if d.stop.Broken? then s'.state >= CLOSING && rest == d.rest
          else s'.state >= CLOSING || (SameBody(s.(state := ACTIVE, pending := 0), s') && rest == Tail(d.rest)))
  }

  lemma BodyIgnoresRefs(s: Session, s': Session, n: nat, n': nat)
    ensures SameBody(s.(refs := n), s') ==> SameBody(s, s'.(refs := n'))
  {
  }

  lemma PumpIgnoresRefs(s: Session, script: seq<int>, s': Session, rest: seq<int>, sent: nat, n: nat, n': nat)
    ensures PumpOnly(s.(refs := n), script, s', rest, sent) ==> PumpOnly(s, script, s'.(refs := n'), rest, sent)
  {
    var p := Pumps(Tail(script), PIPE_SIZE, 0);
    hide Pumps, SameBody;
    BodyIgnoresRefs(s, s', n, n');
    if p.end.Stalled? { BodyIgnoresRefs(s.(state := PIPE_DIRTY, pending := p.end.left), s', n, n'); }
  }

  /** The reference count of the session does not matter to what its callbacks do. */
  lemma EffectIgnoresRefs(s: Session, script: seq<int>, s': Session, rest: seq<int>, sent: nat, n: nat, n': nat)
    ensures InEffect(s.(refs := n), script, s', rest, sent) ==> InEffect(s, script, s'.(refs := n'), rest, sent)
    ensures OutEffect(s.(refs := n), script, s', rest, sent) ==> OutEffect(s, script, s'.(refs := n'), rest, sent)
  {
    var d := Drains(script, s.pending);
    DrainBounds(script, s.pending);
    hide Pumps, Drains, SameBody, PumpOnly;
    BodyIgnoresRefs(s, s', n, n');
    BodyIgnoresRefs(s.(pending := s.pending - d.sent), s', n, n');
    BodyIgnoresRefs(s.(state := ACTIVE, pending := 0), s', n, n');
    PumpIgnoresRefs(s, script, s', rest, sent, n, n');
    if sent >= d.sent {
      PumpIgnoresRefs(s.(state := ACTIVE, pending := 0), Tail(d.rest), s', rest, sent - d.sent, n, n');
    }
  }

  lemma DrainBounds(script: seq<int>, want: nat)
    ensures var r := Drains(script, want);
            r.sent <= want && |r.rest| <= |script| && r.stop in {AllSent, Blocked, AtEnd, Broken}
  {
  }

  /** What a callback of the session does. */
  ghost predicate CallbackEffect(
      s: Session, script: seq<int>, input: bool, failed: bool, s': Session, rest: seq<int>, sent: nat)
  {
    if s.state >= CLOSING then SameBody(s, s') && rest == script && sent == 0
    else if failed then s'.state >= CLOSING && rest == script && sent == 0
    else if input then InEffect(s, script, s', rest, sent)
    else OutEffect(s, script, s', rest, sent)
  }

  /** What an event on a descriptor does: a callback of the owner of its slot, or nothing. */
  ghost predicate DispatchEffect(
      t: Tables, script: seq<int>, fd: int, failed: bool, t': Tables, rest: seq<int>, sent: nat)
  {
    if 0 <= fd < MAX_FD && fd in t.handlers && t.handlers[fd].callback != OtherCallback && t.handlers[fd].owner.Some?
    then
      var id := t.handlers[fd].owner.value;
      && id in t.sessions && id in t'.sessions && BodiesKept(t, t', Some(id))
      && CallbackEffect(t.sessions[id], script, t.handlers[fd].callback == InCallback, failed,
                        t'.sessions[id], rest, sent)
    else t' == t && rest == script && sent == 0
  }

  /** An output event on a session whose pipe is clean does nothing. */
  lemma CleanOutputIsIdle(s: Session, script: seq<int>, s': Session, rest: seq<int>, sent: nat)
    requires CallbackEffect(s, script, false, false, s', rest, sent) && s.state < CLOSING && s.state != PIPE_DIRTY
    ensures SameBody(s, s') && rest == script && sent == 0
  {
  }

  /** An input event on an active session asks the kernel, and forwards what it offers. */
  lemma ActiveInputPumps(s: Session, script: seq<int>, s': Session, rest: seq<int>, sent: nat)
    requires CallbackEffect(s, script, true, false, s', rest, sent) && s.state == ACTIVE && script != []
    ensures |rest| < |script|
    ensures script == [1, 100, 1, 100, -11] ==> sent == 100 && SameBody(s, s') && rest == []
    ensures script[0] <= 0 ==> s'.state >= CLOSING
    ensures script[0] > 0 && |script| > 1 && script[1] in {0, -32, -104} ==> s'.state >= CLOSING
    ensures script[0] > 0 && |script| > 1 && script[1] == -11 ==> SameBody(s, s') && sent == 0
  {
    HundredBytes();
    if script[0] > 0 && |script| > 1 {
      assert script[1..] == [script[1]] + script[2..];
      ReadAnswers(script[1], script[2..], PIPE_SIZE, 0);
    }
    if script == [1, 100, 1, 100, -11] { assert script[1..] == [100, 1, 100, -11]; }
    var p := Pumps(Tail(script), PIPE_SIZE, 0);
    assert |p.rest| <= |Tail(script)|;
    hide Pumps;
  }

  /** What a callback makes of a session is one of the flows. */
  lemma EffectFlows(s: Session, script: seq<int>, input: bool, failed: bool, s': Session, rest: seq<int>, sent: nat)
    requires CallbackEffect(s, script, input, failed, s', rest, sent)
    ensures Flows(s, s')
  {
    PumpLaw(Tail(script), PIPE_SIZE, 0);
    if s.state == PIPE_DIRTY && s.pending > 0 { PumpLaw(Tail(Tail(Drains(script, s.pending).rest)), PIPE_SIZE, 0); }
    hide Pumps, Drains;
  }
}
