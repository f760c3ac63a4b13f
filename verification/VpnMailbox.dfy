/**
 The VPN mode mailbox: the reactor thread overwrites a one-slot request, the worker thread takes it, asks
 sing-box for its modes, may change the mode, and puts the request back when anything failed. Every mutex
 section and every remote call is one step, and the steps of the two threads interleave freely.
 */
module VpnMailbox {
  import opened Options

  const NAME_MAX := 63
  const MODES_MAX := 32

  /** A mode name as it fits the daemon's buffers. */
  function Seen(mode: string): (r: string)
    ensures |r| <= NAME_MAX && (|mode| <= NAME_MAX ==> r == mode)
  {
    if |mode| > NAME_MAX then mode[..NAME_MAX] else mode
  }

  /** The mode list as `parse_clash_mode_status` delivers it. */
  function SeenModes(modes: seq<string>): (r: seq<string>)
  {
    SeenAll(if |modes| > MODES_MAX then modes[..MODES_MAX] else modes)
  }

  function SeenAll(modes: seq<string>): (r: seq<string>)
    ensures |r| == |modes| && forall i :: 0 <= i < |r| ==> r[i] == Seen(modes[i])
  {
    if modes == [] then [] else [Seen(modes[0])] + SeenAll(modes[1..])
  }

  function Or(mode: string, otherwise: string): (r: string)
  {
    if mode == "" then otherwise else mode
  }

  predicate Supported(names: seq<string>, mode: string)
  {
    mode != "" && mode in names
  }

  /** A submission, numbered in the order in which the reactor made them. */
  datatype Request = Request(number: nat, ready: bool, target: string, fallback: string)

  datatype Worker =
    | AtTop
    | Reading(req: Request)
    | Setting(req: Request, mode: string, names: seq<string>)
    | Failed(req: Request)
    | Stopped

  /** What has happened. */
  datatype Fact =
    | Tried(number: nat)
    | SawReady(mode: string)                            // live mode at the successful read of a READY request
    | Done(req: Request, live: string, saved: string, names: seq<string>)

  datatype System = System(
    mailbox: Option<Request>, stopping: bool, submitted: nat,
    worker: Worker, saved: string,
    live: string, modes: seq<string>,                   // sing-box
    history: seq<Fact>)

  datatype Step =
    | Submit(ready: bool, target: string, fallback: string)
    | Take
    | ReadFails
    | ReadWorks
    | SetWorks
    | SetFails(tookEffect: bool)
    | PutBack
    | Quit                                              // the worker's poll fails for good
    | Outside(mode: string, modes: seq<string>)
    | Stop

  function Initial(live: string, modes: seq<string>): (s: System)
  {
    System(None, false, 0, AtTop, "", live, modes, [])
  }

  function Complete(s: System, r: Request, names: seq<string>): (s': System)
  {
    s.(worker := AtTop, saved := if r.ready then s.saved else "",
       history := s.history + [Done(r, s.live, s.saved, names)])
  }

  /** The mode that an IDLE request restores. */
  function Restore(saved: string, fallback: string, names: seq<string>): (m: Option<string>)
  {
    if Supported(names, saved) then Some(saved) else if Supported(names, fallback) then Some(fallback) else None
  }

  /** `api_apply_vpn_mode` after a successful read, up to the point where it changes the mode. */
  function Decide(s: System, r: Request): (s': System)
  {
    var seen, names := Seen(s.live), SeenModes(s.modes);
    if !r.ready then
      if s.saved == "" then Complete(s, r, names)
      else
        match Restore(s.saved, r.fallback, names)
        case None => s.(worker := Failed(r))
        case Some(m) => if seen == m then Complete(s, r, names) else s.(worker := Setting(r, m, names))
    else
      var s1 := s.(saved := if s.saved == "" then seen else s.saved, history := s.history + [SawReady(s.live)]);
      if !Supported(names, r.target) then s1.(worker := Failed(r))
      else if seen == r.target then Complete(s1, r, names)
      else s1.(worker := Setting(r, r.target, names))
  }

  /** One step; a step that is not enabled changes nothing. */
  function Apply(s: System, step: Step): (s': System)
  {
    match step
    case Submit(ready, target, fallback) =>
      s.(mailbox := Some(Request(s.submitted + 1, ready, Seen(Or(target, "Google VPN")), Seen(Or(fallback, "Rule")))),
         submitted := s.submitted + 1)
    case Take =>
      if !s.worker.AtTop? then s
      else if s.stopping then s.(mailbox := None, worker := Stopped)
      else if s.mailbox.None? then s
      else s.(mailbox := None, worker := Reading(s.mailbox.value),
              history := s.history + [Tried(s.mailbox.value.number)])
    case ReadFails => if s.worker.Reading? then s.(worker := Failed(s.worker.req)) else s
    case ReadWorks =>
      if !s.worker.Reading? then s
      else if s.live == "" then s.(worker := Failed(s.worker.req))
      else Decide(s, s.worker.req)
    case SetWorks =>
      if s.worker.Setting? then Complete(s.(live := s.worker.mode), s.worker.req, s.worker.names) else s
    case SetFails(tookEffect) =>
      if s.worker.Setting?
      then s.(live := if tookEffect then s.worker.mode else s.live, worker := Failed(s.worker.req)) else s
    case PutBack =>
      if s.worker.Failed?
      then s.(worker := AtTop, mailbox := if s.mailbox.None? && !s.stopping then Some(s.worker.req) else s.mailbox)
      else s
    case Quit => if s.worker.AtTop? then s.(worker := Stopped) else s
    case Outside(mode, modes) => s.(live := mode, modes := modes)
    case Stop => s.(stopping := true)
  }

  function Run(s: System, steps: seq<Step>): (s': System)
    decreases |steps|
  {
    if steps == [] then s else Apply(Run(s, steps[..|steps| - 1]), steps[|steps| - 1])
  }

  lemma {:induction false} RunAppend(s: System, a: seq<Step>, b: seq<Step>)
    ensures Run(s, a + b) == Run(Run(s, a), b)
    decreases |b|
  {
    if b == [] {
      assert a + b == a;
    } else {
      var rest := b[..|b| - 1];
      RunAppend(s, a, rest);
      assert (a + b)[..|a + b| - 1] == a + rest && (a + b)[|a + b| - 1] == b[|b| - 1];
    }
  }

  // No submission is lost, none is applied out of order.

  ghost predicate InFlight(w: Worker)
  {
    w.Reading? || w.Setting? || w.Failed?
  }

  /** Nothing tried or done so far is newer than submission `n`. */
  ghost predicate UpTo(h: seq<Fact>, n: nat)
  {
    && (forall i :: 0 <= i < |h| && h[i].Tried? ==> h[i].number <= n)
    && (forall i :: 0 <= i < |h| && h[i].Done? ==> h[i].req.number <= n)
  }

  ghost predicate NotDone(h: seq<Fact>, n: nat)
  {
    forall i :: 0 <= i < |h| && h[i].Done? ==> h[i].req.number < n
  }

  /** Attempts never go back to an older submission, and each submission completes at most once. */
  ghost predicate InOrder(h: seq<Fact>)
  {
    && (forall i, j :: 0 <= i < j < |h| && h[i].Tried? && h[j].Tried? ==> h[i].number <= h[j].number)
    && (forall i, j :: 0 <= i < j < |h| && h[i].Done? && h[j].Done? ==> h[i].req.number < h[j].req.number)
  }

  ghost predicate IsDone(h: seq<Fact>, n: nat)
  {
    exists i :: 0 <= i < |h| && h[i].Done? && h[i].req.number == n
  }

  /** The newest submission waits, is being worked on, or has been applied. */
  ghost predicate NewestKept(s: System)
  {
    || s.submitted == 0
    || (s.mailbox.Some? && s.mailbox.value.number == s.submitted)
    || (InFlight(s.worker) && s.worker.req.number == s.submitted)
    || IsDone(s.history, s.submitted)
  }

  ghost predicate Ordered(s: System)
  {
    && (s.mailbox.Some? ==> s.mailbox.value.number == s.submitted && NotDone(s.history, s.submitted))
    && (InFlight(s.worker) ==>
          && UpTo(s.history, s.worker.req.number) && NotDone(s.history, s.worker.req.number)
          && (if s.mailbox.Some? then s.worker.req.number < s.submitted else s.worker.req.number == s.submitted))
    && UpTo(s.history, s.submitted) && InOrder(s.history)
    && (s.stopping || NewestKept(s))
  }

  lemma UpToMore(h: seq<Fact>, n: nat, m: nat)
    requires UpTo(h, n) && n <= m
    ensures UpTo(h, m) && (n < m ==> NotDone(h, m))
  {
  }

  lemma AddTried(h: seq<Fact>, n: nat)
    requires UpTo(h, n) && InOrder(h) && NotDone(h, n)
    ensures var h' := h + [Tried(n)]; UpTo(h', n) && InOrder(h') && NotDone(h', n)
  {
  }

  lemma AddSaw(h: seq<Fact>, mode: string, n: nat)
    requires UpTo(h, n) && InOrder(h) && NotDone(h, n)
    ensures var h' := h + [SawReady(mode)]; UpTo(h', n) && InOrder(h') && NotDone(h', n)
  {
  }

  lemma AddDone(h: seq<Fact>, f: Fact)
    requires f.Done? && UpTo(h, f.req.number) && InOrder(h) && NotDone(h, f.req.number)
    ensures var h' := h + [f]; UpTo(h', f.req.number) && InOrder(h') && IsDone(h', f.req.number)
  {
    assert (h + [f])[|h|] == f;
  }

  lemma CompleteOrdered(s: System, r: Request, names: seq<string>)
    requires InFlight(s.worker) && s.worker.req == r && Ordered(s)
    ensures Ordered(Complete(s, r, names))
  {
    hide UpTo, InOrder, NotDone, IsDone;
    var f := Done(r, s.live, s.saved, names);
    AddDone(s.history, f);
    UpToMore(s.history + [f], r.number, s.submitted);
  }

  lemma OrderedStep(s: System, step: Step)
    requires Ordered(s)
    ensures Ordered(Apply(s, step))
  {
    hide UpTo, InOrder, NotDone, IsDone;
    match step
    case Submit(_, _, _) => UpToMore(s.history, s.submitted, s.submitted + 1);
    case Take => if s.mailbox.Some? { AddTried(s.history, s.submitted); }
    case ReadWorks => if s.worker.Reading? && s.live != "" { DecideOrdered(s, s.worker.req); }
    case SetWorks => if s.worker.Setting? { CompleteOrdered(s.(live := s.worker.mode), s.worker.req, s.worker.names); }
    case _ =>
  }

  lemma DecideOrdered(s: System, r: Request)
    requires s.worker == Reading(r) && Ordered(s)
    ensures Ordered(Decide(s, r))
  {
    hide UpTo, InOrder, NotDone, IsDone;
    var seen, names := Seen(s.live), SeenModes(s.modes);
    hide Seen, SeenModes;
    if r.ready {
      AddSaw(s.history, s.live, r.number);
      UpToMore(s.history + [SawReady(s.live)], r.number, s.submitted);
      var s1 := s.(saved := if s.saved == "" then seen else s.saved, history := s.history + [SawReady(s.live)]);
      SawOrdered(s, s1);
      CompleteOrdered(s1, r, names);
    } else {
      CompleteOrdered(s, r, names);
    }
  }

  lemma SawOrdered(s: System, s1: System)
    requires Ordered(s) && InFlight(s.worker)
    requires s1 == s.(saved := s1.saved, history := s.history + [SawReady(s.live)])
    ensures Ordered(s1)
  {
  }

  /**
   For every interleaving: attempts never go back to an older submission, no submission completes twice, and up
   to the stop the newest submission waits, is being worked on, or has been applied.
   */
  lemma {:induction false} NewestNeverLost(live: string, modes: seq<string>, steps: seq<Step>)
    ensures var s := Run(Initial(live, modes), steps);
            Ordered(s) && InOrder(s.history) && (s.stopping || NewestKept(s))
    decreases |steps|
  {
    if steps != [] {
      NewestNeverLost(live, modes, steps[..|steps| - 1]);
      OrderedStep(Run(Initial(live, modes), steps[..|steps| - 1]), steps[|steps| - 1]);
    }
  }

  // The saved mode.

  ghost predicate Restored(f: Fact)
  {
    f.Done? && !f.req.ready
  }

  /** `h[i]` is the first READY read since the last completed restore. */
  ghost predicate FirstReady(h: seq<Fact>, i: nat)
  {
    && i < |h| && h[i].SawReady?
    && (forall j :: i < j < |h| ==> !Restored(h[j]))
    && (forall j :: 0 <= j < i && h[j].SawReady? ==> RestoredBetween(h, j, i))
  }

  ghost predicate RestoredBetween(h: seq<Fact>, j: int, i: int)
  {
    exists k :: 0 <= j < k < i <= |h| && Restored(h[k])
  }

  /** Every READY read has been followed by a completed restore. */
  ghost predicate AllRestored(h: seq<Fact>)
  {
    forall j :: 0 <= j < |h| && h[j].SawReady? ==> RestoredBetween(h, j, |h|)
  }

  ghost predicate SavedIsFirst(h: seq<Fact>, saved: string)
  {
    if saved == "" then AllRestored(h) else exists i: nat :: FirstReady(h, i) && saved == Seen(h[i].mode)
  }

  /** What a completed request left behind: the target mode, or the saved mode or its fallback. */
  ghost predicate GoodOutcome(f: Fact)
  {
    f.Done? ==>
      && (f.req.ready ==> Seen(f.live) == f.req.target && f.req.target in f.names)
      && (!f.req.ready && f.saved != "" ==>
            if f.saved in f.names then Seen(f.live) == f.saved
            else Seen(f.live) == f.req.fallback && f.req.fallback in f.names)
  }

  /** Each completed request had that outcome, with the saved mode of its time. */
  ghost predicate OutcomesGood(h: seq<Fact>)
  {
    forall i :: 0 <= i < |h| && h[i].Done? ==> GoodOutcome(h[i]) && SavedIsFirst(h[..i], h[i].saved)
  }

  /** A request that is about to change the mode has chosen it as it should. */
  ghost predicate GoodChoice(s: System)
  {
    s.worker.Setting? ==>
      var r, m, names := s.worker.req, s.worker.mode, s.worker.names;
      |m| <= NAME_MAX && m in names && s.saved != ""
      && if r.ready then m == r.target else m == if s.saved in names then s.saved else r.fallback
  }

  ghost predicate Faithful(s: System)
  {
    && |s.saved| <= NAME_MAX && SavedIsFirst(s.history, s.saved) && OutcomesGood(s.history) && GoodChoice(s)
    && (s.mailbox.Some? ==> |s.mailbox.value.target| <= NAME_MAX && |s.mailbox.value.fallback| <= NAME_MAX)
    && (InFlight(s.worker) ==> |s.worker.req.target| <= NAME_MAX && |s.worker.req.fallback| <= NAME_MAX)
  }

  lemma MoreBetween(h: seq<Fact>, f: Fact, j: int, i: int)
    requires RestoredBetween(h, j, i)
    ensures RestoredBetween(h + [f], j, i) && RestoredBetween(h + [f], j, i + 1)
  {
    var k :| 0 <= j < k < i <= |h| && Restored(h[k]);
    assert Restored((h + [f])[k]);
  }

  /** A fact that is neither a READY read nor a completed restore does not matter. */
  lemma FirstKept(h: seq<Fact>, f: Fact, saved: string)
    requires SavedIsFirst(h, saved) && !Restored(f) && (f.SawReady? ==> saved != "")
    ensures SavedIsFirst(h + [f], saved)
  {
    var h' := h + [f];
    if saved == "" {
      forall j | 0 <= j < |h'| && h'[j].SawReady?
        ensures RestoredBetween(h', j, |h'|)
      {
        MoreBetween(h, f, j, |h|);
      }
    } else {
      var i: nat :| FirstReady(h, i) && saved == Seen(h[i].mode);
      forall j | 0 <= j < i && h'[j].SawReady?
        ensures RestoredBetween(h', j, i)
      {
        MoreBetween(h, f, j, i);
      }
      assert FirstReady(h', i);
    }
  }

  lemma FirstFound(h: seq<Fact>, mode: string)
    requires SavedIsFirst(h, "") && Seen(mode) != ""
    ensures SavedIsFirst(h + [SawReady(mode)], Seen(mode))
  {
    var h' := h + [SawReady(mode)];
    forall j | 0 <= j < |h| && h'[j].SawReady?
      ensures RestoredBetween(h', j, |h|)
    {
      MoreBetween(h, SawReady(mode), j, |h|);
    }
    assert FirstReady(h', |h|) && h'[|h|].mode == mode;
  }

  lemma FirstCleared(h: seq<Fact>, f: Fact)
    requires Restored(f)
    ensures SavedIsFirst(h + [f], "")
  {
    var h' := h + [f];
    forall j | 0 <= j < |h'| && h'[j].SawReady?
      ensures RestoredBetween(h', j, |h'|)
    {
      assert Restored(h'[|h|]);
    }
  }

  lemma OutcomeAdded(h: seq<Fact>, f: Fact)
    requires OutcomesGood(h) && (f.Done? ==> GoodOutcome(f) && SavedIsFirst(h, f.saved))
    ensures OutcomesGood(h + [f])
  {
    var h' := h + [f];
    forall i | 0 <= i < |h'| && h'[i].Done?
      ensures GoodOutcome(h'[i]) && SavedIsFirst(h'[..i], h'[i].saved)
    {
      assert i < |h| ==> h'[..i] == h[..i];
      assert i == |h| ==> h'[..i] == h;
    }
  }

  lemma CompleteFaithful(s: System, r: Request, names: seq<string>)
    requires Faithful(s.(worker := Reading(r))) && GoodOutcome(Done(r, s.live, s.saved, names))
    ensures Faithful(Complete(s, r, names))
  {
    var f := Done(r, s.live, s.saved, names);
    hide SavedIsFirst, OutcomesGood, GoodOutcome;
    OutcomeAdded(s.history, f);
    if r.ready { FirstKept(s.history, f, s.saved); } else { FirstCleared(s.history, f); }
  }

  lemma DecideFaithful(s: System, r: Request)
    requires Faithful(s) && s.worker == Reading(r) && s.live != ""
    ensures Faithful(Decide(s, r))
  {
    var seen, names := Seen(s.live), SeenModes(s.modes);
    hide SavedIsFirst, OutcomesGood, SeenModes;
    if !r.ready {
      if GoodOutcome(Done(r, s.live, s.saved, names)) { CompleteFaithful(s, r, names); }
    } else {
      var f := SawReady(s.live);
      OutcomeAdded(s.history, f);
      if s.saved == "" { FirstFound(s.history, s.live); } else { FirstKept(s.history, f, s.saved); }
      var s1 := s.(saved := if s.saved == "" then seen else s.saved, history := s.history + [f]);
      if Supported(names, r.target) && seen == r.target { CompleteFaithful(s1, r, names); }
    }
  }

  lemma FaithfulStep(s: System, step: Step)
    requires Faithful(s)
    ensures Faithful(Apply(s, step))
  {
    hide SavedIsFirst, OutcomesGood, SeenModes;
    match step
    case Take =>
      if s.mailbox.Some? {
        var f := Tried(s.mailbox.value.number);
        OutcomeAdded(s.history, f);
        FirstKept(s.history, f, s.saved);
      }
    case ReadWorks => if s.worker.Reading? && s.live != "" { DecideFaithful(s, s.worker.req); }
    case SetWorks =>
      if s.worker.Setting? { CompleteFaithful(s.(live := s.worker.mode), s.worker.req, s.worker.names); }
    case _ =>
  }

  /**
   For every interleaving, however requests are coalesced, retried or superseded and however calls fail: the saved
   mode is the one that was live at the first READY read since the last completed restore, and each completed
   request left sing-box in the mode it should.
   */
  lemma {:induction false} SavedModeIsFirst(live: string, modes: seq<string>, steps: seq<Step>)
    ensures var s := Run(Initial(live, modes), steps);
            Faithful(s) && SavedIsFirst(s.history, s.saved) && OutcomesGood(s.history)
    decreases |steps|
  {
    if steps != [] {
      SavedModeIsFirst(live, modes, steps[..|steps| - 1]);
      FaithfulStep(Run(Initial(live, modes), steps[..|steps| - 1]), steps[|steps| - 1]);
    }
  }

  // The undo law.

  /** Nobody else changes the mode, and the mode to come back to is `home`. */
  ghost predicate Undoable(s: System, home: string)
  {
    && |home| <= NAME_MAX && home != "" && home in SeenModes(s.modes) && s.live != "" && |s.live| <= NAME_MAX
    && (s.mailbox.Some? ==> |s.mailbox.value.target| <= NAME_MAX)
    && (InFlight(s.worker) ==> |s.worker.req.target| <= NAME_MAX)
    && (s.worker.Setting? ==> |s.worker.mode| <= NAME_MAX)
    && s.saved in {"", home}
    && (s.saved == "" ==> s.live == home)
    && (s.worker.Setting? ==> s.saved == home && s.worker.mode != "" && (s.worker.req.ready || s.worker.mode == home))
  }

  lemma UndoStep(s: System, step: Step, home: string)
    requires Undoable(s, home) && !step.Outside?
    ensures Undoable(Apply(s, step), home)
  {
    hide SeenModes;
  }

  /**
   Without outside mode changes, whatever READY and IDLE requests came and however they failed: as long as no
   mode is saved, and so after every completed IDLE request, sing-box is in the mode it started in.
   */
  lemma {:induction false} IdleUndoesReady(home: string, modes: seq<string>, steps: seq<Step>)
    requires home != "" && |home| <= NAME_MAX && home in SeenModes(modes)
    requires forall i :: 0 <= i < |steps| ==> !steps[i].Outside?
    ensures var s := Run(Initial(home, modes), steps); Undoable(s, home) && (s.saved == "" ==> s.live == home)
    decreases |steps|
  {
    if steps != [] {
      IdleUndoesReady(home, modes, steps[..|steps| - 1]);
      UndoStep(Run(Initial(home, modes), steps[..|steps| - 1]), steps[|steps| - 1], home);
    }
  }

  lemma RunLast(s: System, steps: seq<Step>, step: Step)
    ensures Run(s, steps + [step]) == Apply(Run(s, steps), step)
  {
    assert (steps + [step])[..|steps + [step]| - 1] == steps;
  }

  /** A request that is taken, read and carried out without a failure. */
  ghost function Served(submit: Step): (steps: seq<Step>) { [submit, Take, ReadWorks, SetWorks] }

  lemma RunRound(s: System, submit: Step)
    ensures Run(s, Served(submit)) == Apply(Apply(Apply(Apply(s, submit), Take), ReadWorks), SetWorks)
  {
    hide Apply;
    assert Served(submit) == [] + [submit] + [Take] + [ReadWorks] + [SetWorks];
    RunLast(s, [], submit);
    RunLast(s, [] + [submit], Take);
    RunLast(s, [] + [submit] + [Take], ReadWorks);
    RunLast(s, [] + [submit] + [Take] + [ReadWorks], SetWorks);
  }

  lemma AllInside(submit: Step)
    requires !submit.Outside?
    ensures forall i :: 0 <= i < |Served(submit)| ==> !Served(submit)[i].Outside?
  {
  }

  /** What the callback asks for when the configuration names no mode. */
  function Wanted(target: string): (mode: string)
    ensures mode != ""
  {
    if target == "" then "Google VPN" else Seen(target)
  }

  function Fallback(fallback: string): (mode: string)
    ensures mode != ""
  {
    if fallback == "" then "Rule" else Seen(fallback)
  }

  /** A READY request that is served without a failure leaves sing-box in the target mode of the request. */
  lemma ReadyServed(s: System, target: string, fallback: string)
    requires s.worker.AtTop? && !s.stopping && s.live != "" && Wanted(target) in SeenModes(s.modes)
    ensures var s' := Run(s, Served(Submit(true, target, fallback)));
            && s'.live == (if Seen(s.live) == Wanted(target) then s.live else Wanted(target))
            && s'.saved == (if s.saved == "" then Seen(s.live) else s.saved)
            && s'.worker.AtTop? && s'.mailbox.None?
  {
    RunRound(s, Submit(true, target, fallback));
    hide SeenModes, Run;
  }

  /**
   An IDLE request that is served without a failure restores the saved mode, or the fallback of the request if that
   mode is not listed, and forgets it; with neither listed it fails and changes nothing.
   */
  lemma IdleServed(s: System, target: string, fallback: string)
    requires s.worker.AtTop? && !s.stopping && s.live != "" && |s.saved| <= NAME_MAX
    ensures var s', names := Run(s, Served(Submit(false, target, fallback))), SeenModes(s.modes);
            && (s.saved == "" ==> s'.live == s.live && s'.saved == "" && s'.worker.AtTop?)
            && (s.saved != "" && s.saved in names ==>
                  s'.live == (if Seen(s.live) == s.saved then s.live else s.saved) && s'.saved == "")
            && (s.saved != "" && s.saved !in names && Fallback(fallback) in names ==>
                  && s'.live == (if Seen(s.live) == Fallback(fallback) then s.live else Fallback(fallback))
                  && s'.saved == "")
            && (s.saved != "" && s.saved !in names && Fallback(fallback) !in names ==>
                  s'.live == s.live && s'.saved == s.saved && s'.worker.Failed?)
  {
    RunRound(s, Submit(false, target, fallback));
    hide SeenModes, Run;
  }

  lemma ReadyRound(home: string, modes: seq<string>, s: System)
    requires home != "" && Seen(home) != "Rule" && "Rule" in SeenModes(modes)
    requires s == Apply(Apply(Apply(Apply(Initial(home, modes), Submit(true, "Rule", "")), Take), ReadWorks), SetWorks)
    ensures s.live == "Rule" && s.saved == Seen(home) && s.worker.AtTop? && s.mailbox.None? && !s.stopping
    ensures s.modes == modes
  {
    hide SeenModes;
  }

  lemma IdleRound(s: System, s': System)
    requires s.live == "Rule" && s.saved !in {"", "Rule"} && s.worker.AtTop? && s.mailbox.None? && !s.stopping
    requires "Rule" in SeenModes(s.modes)
    requires s' == Apply(Apply(Apply(Apply(s, Submit(false, "Rule", "")), Take), ReadWorks), SetWorks)
    ensures s'.saved == "" && s'.worker.AtTop? && s'.live == if s.saved in SeenModes(s.modes) then s.saved else "Rule"
  {
    hide SeenModes;
  }

  /** A READY request for "Rule" and an IDLE request, both carried out without a failure. */
  lemma ReadyThenIdle(home: string, modes: seq<string>) returns (steps: seq<Step>)
    requires home != "" && Seen(home) != "Rule" && "Rule" in SeenModes(modes)
    ensures forall i :: 0 <= i < |steps| ==> !steps[i].Outside?
    ensures var s := Run(Initial(home, modes), steps);
            && s.saved == "" && s.worker.AtTop?
            && s.live == if Seen(home) in SeenModes(modes) then Seen(home) else "Rule"
  {
    var s, ready, idle := Initial(home, modes), Submit(true, "Rule", ""), Submit(false, "Rule", "");
    assert Seen(home) != "";
    hide *;
    steps := Served(ready) + Served(idle);
    AllInside(ready);
    AllInside(idle);
    RunAppend(s, Served(ready), Served(idle));
    RunRound(s, ready);
    var s4 := Run(s, Served(ready));
    ReadyRound(home, modes, s4);
    RunRound(s4, idle);
    IdleRound(s4, Run(s4, Served(idle)));
  }

  /** The law needs a name that fits the buffers: a longer one is saved, and comes back, cut. */
  lemma LongNamesAreCut(home: string, modes: seq<string>) returns (steps: seq<Step>)
    requires |home| > NAME_MAX && Seen(home) in SeenModes(modes) && "Rule" in SeenModes(modes)
    ensures forall i :: 0 <= i < |steps| ==> !steps[i].Outside?
    ensures var s := Run(Initial(home, modes), steps); s.saved == "" && s.worker.AtTop? && s.live == Seen(home) != home
  {
    hide SeenModes, Run;
    steps := ReadyThenIdle(home, modes);
  }

  /** And one of the first 32 modes: a later one is taken for unsupported, and the fallback comes back. */
  lemma LateModesAreLost(home: string, modes: seq<string>) returns (steps: seq<Step>)
    requires 0 < |home| <= NAME_MAX && home in modes && home !in SeenModes(modes) && "Rule" in SeenModes(modes)
    ensures forall i :: 0 <= i < |steps| ==> !steps[i].Outside?
    ensures var s := Run(Initial(home, modes), steps); s.saved == "" && s.worker.AtTop? && s.live == "Rule" != home
  {
    hide SeenModes, Run;
    steps := ReadyThenIdle(home, modes);
  }

  /** The undo law for a mode: without outside changes, whenever nothing is saved sing-box is in it. */
  ghost predicate Undone(home: string, modes: seq<string>)
  {
    forall steps: seq<Step> :: (forall i :: 0 <= i < |steps| ==> !steps[i].Outside?) ==>
      var s := Run(Initial(home, modes), steps); s.saved == "" ==> s.live == home
  }

  /** The law holds exactly for the modes that fit the buffers and are among the first 32. */
  lemma UndoneIff(home: string, modes: seq<string>)
    requires home in modes && home !in {"", "Rule"} && "Rule" in SeenModes(modes)
    ensures Undone(home, modes) <==> |home| <= NAME_MAX && home in SeenModes(modes)
  {
    hide SeenModes, Run;
    if |home| <= NAME_MAX && home in SeenModes(modes) {
      forall steps: seq<Step> | forall i :: 0 <= i < |steps| ==> !steps[i].Outside?
        ensures var s := Run(Initial(home, modes), steps); s.saved == "" ==> s.live == home
      {
        IdleUndoesReady(home, modes, steps);
      }
    } else {
      var steps := ReadyThenIdle(home, modes);
      assert Run(Initial(home, modes), steps).live != home;
    }
  }

  // The two threads' code.

  /** `is_clash_mode_supported`. */
  method IsClashModeSupported(names: seq<string>, mode: string) returns (r: bool)
    ensures r <==> Supported(names, mode)
  {
    if mode == "" { return false; }
    var i := 0;
    while i < |names|
      invariant 0 <= i <= |names| && mode !in names[..i]
    {
      if names[i] == mode { return true; }
      i := i + 1;
    }
    r := false;
  }

  const VPN_IDLE := 0
  const VPN_READY := 2

  /** A step that is not the worker's. */
  predicate FromOutside(step: Step)
  {
    step.Submit? || step.Outside? || step.Stop?
  }

  /** What a successful read leads to: nothing to do, a mode to set, or a failure. */
  ghost predicate Decided(s: System, s': System)
    requires s.worker.Reading?
  {
    var r, names, seen := s.worker.req, SeenModes(s.modes), Seen(s.live);
    var mode := if r.ready then r.target else if s.saved in names then s.saved else r.fallback;
    if !r.ready && s.saved == "" then s'.worker.AtTop? && s'.saved == ""
    else if mode == "" || mode !in names then
      s'.worker == Failed(r) && s'.saved == if r.ready && s.saved == "" then seen else s.saved
    else if seen == mode then
      s'.worker.AtTop? && s'.saved == if !r.ready then "" else if s.saved == "" then seen else s.saved
    else s'.worker == Setting(r, mode, names) && s'.saved == if r.ready && s.saved == "" then seen else s.saved
  }

  /**
   The steps of a round on `s`: take, and if there was something to take, read, set if `sets`, and put back if `fails`,
   with the steps of the others in between.
   */
  ghost predicate Planned(
      s: System, answered: bool, reported: bool, tookEffect: bool, during: seq<Step>, between: seq<Step>,
      after: seq<Step>, steps: seq<Step>, sets: bool, fails: bool)
  {
    if s.mailbox.None? || s.stopping then steps == [Take]
    else
      var read := [Take] + during + [if answered then ReadWorks else ReadFails];
      var done := if sets then read + between + [if reported then SetWorks else SetFails(tookEffect)] else read;
      steps == (if fails then done + after + [PutBack] else done) && (fails && sets ==> !reported)
  }

  class Api {
    var s: System

    constructor (live: string, modes: seq<string>)
      ensures s == Initial(live, modes) && Ordered(s) && Faithful(s)
      ensures live != "" && |live| <= NAME_MAX && live in SeenModes(modes) ==> Undoable(s, live)
    {
      s := Initial(live, modes);
    }

    /** `api_vpn_mode_callback`, on the reactor thread. */
    method VpnModeCallback(autoMode: bool, state: int, target: string, fallback: string)
      modifies this
      ensures s == if autoMode && state in {VPN_READY, VPN_IDLE}
                   then Apply(old(s), Submit(state == VPN_READY, target, fallback)) else old(s)
      ensures autoMode && state in {VPN_READY, VPN_IDLE} ==>
                && s == old(s).(mailbox := s.mailbox, submitted := old(s).submitted + 1)
                && s.mailbox == Some(Request(s.submitted, state == VPN_READY, Wanted(target), Fallback(fallback)))
    {
      if !autoMode { return; }
      if state != VPN_READY && state != VPN_IDLE { return; }
      var number := s.submitted + 1;
      var request := Request(number, state == VPN_READY,
                             Seen(if target != "" then target else "Google VPN"),
                             Seen(if fallback != "" then fallback else "Rule"));
      s := s.(mailbox := Some(request), submitted := number);
    }

    /** The worker's first section: what was pending is taken, and the slot is free again. */
    method TakeRequest()
      requires s.worker.AtTop?
      modifies this
      ensures s == Apply(old(s), Take)
      ensures s.mailbox.None? && s.live == old(s).live && s.saved == old(s).saved
      ensures s.worker == if old(s).stopping then Stopped
                          else if old(s).mailbox.Some? then Reading(old(s).mailbox.value) else AtTop
    {
      var pending := s.mailbox;
      s := s.(mailbox := None);
      if s.stopping {
        s := s.(worker := Stopped);
      } else if pending.Some? {
        s := s.(worker := Reading(pending.value), history := s.history + [Tried(pending.value.number)]);
      }
    }

    /** `api_apply_vpn_mode` up to the call that sets the mode. */
    method ReadStatus(answered: bool)
      requires s.worker.Reading?
      modifies this
      ensures s == Apply(old(s), if answered then ReadWorks else ReadFails)
      ensures s.live == old(s).live && s.mailbox == old(s).mailbox
      ensures !answered || s.live == "" ==> s == old(s).(worker := Failed(old(s).worker.req))
      ensures answered && s.live != "" ==> Decided(old(s), s)
    {
      var r := s.worker.req;
      if !answered || s.live == "" { s := s.(worker := Failed(r)); return; }
      var current, names := Seen(s.live), SeenModes(s.modes);
      if !r.ready {
        if s.saved == "" { s := Complete(s, r, names); return; }
        var restore := s.saved;
        var supported := IsClashModeSupported(names, restore);
        if !supported {
          supported := IsClashModeSupported(names, r.fallback);
          if !supported { s := s.(worker := Failed(r)); return; }
          restore := r.fallback;
        }
        if current == restore { s := Complete(s, r, names); } else { s := s.(worker := Setting(r, restore, names)); }
        return;
      }
      s := s.(history := s.history + [SawReady(s.live)]);
      if s.saved == "" { s := s.(saved := current); }
      var supported := IsClashModeSupported(names, r.target);
      if !supported { s := s.(worker := Failed(r)); return; }
      if current == r.target { s := Complete(s, r, names); } else { s := s.(worker := Setting(r, r.target, names)); }
    }

    /** The call that sets the mode; it may take effect and still report failure. */
    method SetMode(reported: bool, tookEffect: bool)
      requires s.worker.Setting?
      modifies this
      ensures s == Apply(old(s), if reported then SetWorks else SetFails(tookEffect))
      ensures s.live == if reported || tookEffect then old(s).worker.mode else old(s).live
      ensures s.worker == if reported then AtTop else Failed(old(s).worker.req)
      ensures s.saved == if reported && !old(s).worker.req.ready then "" else old(s).saved
      ensures s.mailbox == old(s).mailbox
    {
      var r, names := s.worker.req, s.worker.names;
      if reported || tookEffect { s := s.(live := s.worker.mode); }
      if reported { s := Complete(s, r, names); } else { s := s.(worker := Failed(r)); }
    }

    /** The worker's second section: retry in the next round, unless a newer request has arrived. */
    method PutRequestBack()
      requires s.worker.Failed?
      modifies this
      ensures s == Apply(old(s), PutBack)
      ensures s == old(s).(worker := AtTop, mailbox := s.mailbox)
      ensures s.mailbox == if old(s).mailbox.Some? || old(s).stopping then old(s).mailbox else Some(old(s).worker.req)
    {
      if s.mailbox.None? && !s.stopping { s := s.(mailbox := Some(s.worker.req)); }
      s := s.(worker := AtTop);
    }

    /** The other thread and the outside world get their turn. */
    method Interfere(steps: seq<Step>)
      requires forall i :: 0 <= i < |steps| ==> FromOutside(steps[i])
      modifies this
      ensures s == Run(old(s), steps) && s.worker == old(s).worker
    {
      ghost var s0 := s;
      for i := 0 to |steps|
        invariant s == Run(s0, steps[..i]) && s.worker == s0.worker
      {
        assert steps[..i + 1] == steps[..i] + [steps[i]];
        RunLast(s0, steps[..i], steps[i]);
        s := Apply(s, steps[i]);
      }
      assert steps[..|steps|] == steps;
    }

    /** The worker leaves its loop because poll fails for good. */
    method GiveUp()
      requires s.worker.AtTop?
      modifies this
      ensures s == Apply(old(s), Quit) && s.worker.Stopped? && s.mailbox == old(s).mailbox
    {
      s := s.(worker := Stopped);
    }

    /**
     A round of `api_refresh_worker`, with anything happening between its sections: it is a run of the step
     system, so that all that is proved of runs holds of the worker. What is pending when the poll fails stays pending.
     */
    method Round(answered: bool, reported: bool, tookEffect: bool, pollFails: bool,
                 during: seq<Step>, between: seq<Step>, after: seq<Step>)
      returns (ghost steps: seq<Step>, ghost sets: bool, ghost fails: bool)
      requires s.worker.AtTop?
      requires forall i :: 0 <= i < |during| ==> FromOutside(during[i])
      requires forall i :: 0 <= i < |between| ==> FromOutside(between[i])
      requires forall i :: 0 <= i < |after| ==> FromOutside(after[i])
      modifies this
      ensures s == Run(old(s), steps) && (s.worker.AtTop? || s.worker.Stopped?)
      ensures s.worker.Stopped? <==> old(s).stopping || pollFails
      ensures var quits := pollFails && !old(s).stopping;
              && (quits ==> steps != [] && steps[|steps| - 1] == Quit)
              && Planned(old(s), answered, reported, tookEffect, during, between, after,
                         if quits && steps != [] then steps[..|steps| - 1] else steps, sets, fails)
    {
      hide Run, Apply;
      ghost var s0 := s;
      steps, sets, fails := Serve(answered, reported, tookEffect, during, between, after);
      if pollFails && s.worker.AtTop? {
        RunLast(s0, steps, Quit);
        GiveUp();
        steps := steps + [Quit];
        assert steps[..|steps| - 1] + [Quit] == steps;
      }
    }

    /**
     The callback and a round of the worker that nothing disturbs: sing-box is in the target mode after READY, and in
     the saved mode or the fallback after IDLE.
     */
    method Follow(state: int, target: string, fallback: string)
      requires s.worker.AtTop? && !s.stopping && s.live != "" && state in {VPN_READY, VPN_IDLE} && |s.saved| <= NAME_MAX
      modifies this
      ensures state == VPN_READY && Wanted(target) in SeenModes(old(s).modes) ==> Seen(s.live) == Wanted(target)
      ensures state == VPN_IDLE && old(s).saved != "" && old(s).saved in SeenModes(old(s).modes) ==>
                Seen(s.live) == old(s).saved && s.saved == ""
      ensures state == VPN_IDLE && old(s).saved != "" && old(s).saved !in SeenModes(old(s).modes)
              && Fallback(fallback) in SeenModes(old(s).modes) ==>
                Seen(s.live) == Fallback(fallback) && s.saved == ""
    {
      hide SeenModes;
      VpnModeCallback(true, state, target, fallback);
      TakeRequest();
      ReadStatus(true);
      if s.worker.Setting? { SetMode(true, true); }
      if s.worker.Failed? { PutRequestBack(); }
    }

    /** The part of a round that serves a request. */
    method Serve(
        answered: bool, reported: bool, tookEffect: bool, during: seq<Step>, between: seq<Step>, after: seq<Step>)
      returns (ghost steps: seq<Step>, ghost sets: bool, ghost fails: bool)
      requires s.worker.AtTop?
      requires forall i :: 0 <= i < |during| ==> FromOutside(during[i])
      requires forall i :: 0 <= i < |between| ==> FromOutside(between[i])
      requires forall i :: 0 <= i < |after| ==> FromOutside(after[i])
      modifies this
      ensures s == Run(old(s), steps) && (s.worker.AtTop? || s.worker.Stopped?)
      ensures s.worker.Stopped? <==> old(s).stopping
      ensures Planned(old(s), answered, reported, tookEffect, during, between, after, steps, sets, fails)
    {
      hide Run, Apply;
      ghost var s0 := s;
      assert [] + [Take] == [Take];
      RunLast(s0, [], Take);
      EmptyRun(s0);
      TakeOutcome(s0);
      TakeRequest();
      steps, sets, fails := [Take], false, false;
      if !s.worker.Reading? { return; }
      Interfere(during);
      RunAppend(s0, steps, during);
      steps := steps + during;
      ReadOutcome(s, answered);
      RunLast(s0, steps, if answered then ReadWorks else ReadFails);
      ReadStatus(answered);
      steps := steps + [if answered then ReadWorks else ReadFails];
      if s.worker.Setting? {
        sets := true;
        Interfere(between);
        RunAppend(s0, steps, between);
        steps := steps + between;
        SetOutcome(s, reported, tookEffect);
        RunLast(s0, steps, if reported then SetWorks else SetFails(tookEffect));
        SetMode(reported, tookEffect);
        steps := steps + [if reported then SetWorks else SetFails(tookEffect)];
      }
      if s.worker.Failed? {
        fails := true;
        Interfere(after);
        RunAppend(s0, steps, after);
        steps := steps + after;
        PutOutcome(s);
        RunLast(s0, steps, PutBack);
        PutRequestBack();
        steps := steps + [PutBack];
      }
    }
  }

  lemma EmptyRun(s: System)
    ensures Run(s, []) == s
  {
  }

  lemma TakeOutcome(s: System)
    requires s.worker.AtTop?
    ensures var w := Apply(s, Take).worker; (w.Stopped? <==> s.stopping) && (w.AtTop? || w.Reading? || w.Stopped?)
  {
  }

  lemma ReadOutcome(s: System, answered: bool)
    requires s.worker.Reading?
    ensures var w := Apply(s, if answered then ReadWorks else ReadFails).worker; w.AtTop? || w.Setting? || w.Failed?
  {
  }

  lemma SetOutcome(s: System, reported: bool, tookEffect: bool)
    requires s.worker.Setting?
    ensures var w := Apply(s, if reported then SetWorks else SetFails(tookEffect)).worker; w.AtTop? || w.Failed?
  {
  }

  lemma PutOutcome(s: System)
    requires s.worker.Failed?
    ensures Apply(s, PutBack).worker.AtTop?
  {
  }
}
