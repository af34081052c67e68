/** Recovery in the midst of everything else: how often a camera that should record is sent a start, over any run
    of the events of Lifecycle.dfy. */
module Recovery {
  import opened Base
  import opened QueryResponses
  import opened Cameras
  import opened StartGuard
  import opened Lifecycle

  /** Start writes in a history. */
  function Starts(trace: seq<Mark>): nat {
    if trace == [] then 0
    else Starts(trace[..|trace| - 1]) + if trace[|trace| - 1].StartSent? then 1 else 0
  }

  /** The event does not end the recovery of slot i: no stop call, no status response that sees it recording, and
      its link, slot and discovered handles stay as they are.  Anything may happen to the other slots. */
  predicate LeavesAlone(w: World, e: Event, i: nat)
    requires Sized(w.mgr) && i < MAX_BONDS
  {
    var h := w.mgr.cams[i].slot.handle;
    match e
    case Unlink(g) => g != h
    case Discovered(g, _, _) => g != h
    case StatusResponse(g, flags) => g == h ==> true !in flags
    case Remove(j) => j != i
    case LoggingChanged(state, _) => w.mgr.autoControl ==> !state.NotLogging?
    case ShutterAllCmd(on, _) => on
    case ShutterSlotCmd(j, on, _) => j == i ==> on
    case _ => true
  }

  /** The event has slot i started, if it needs a start, and the write queue would take the write. */
  predicate Offers(w: World, e: Event, i: nat) {
    match e
    case TickTimer(accept) => accept(i)
    case LoggingChanged(state, accept) => w.mgr.autoControl && state.LoggingOn? && accept(i)
    case ShutterAllCmd(on, accept) => on && accept(i)
    case ShutterSlotCmd(j, on, ok) => j == i && on && ok
    case _ => false
  }

  /** What one event does to the slot: nothing that matters, or one start write if none is in flight. */
  ghost predicate Progresses(before: Camera, offered: bool, after: Camera) {
    && NeedsStart(after.slot)
    && after.slot.handle == before.slot.handle
    && Starts(after.trace) == Starts(before.trace) + (if offered && !InFlight(before.trace) then 1 else 0)
    && (InFlight(after.trace) <==> InFlight(before.trace) || offered)
  }

  lemma StartsSnoc(trace: seq<Mark>, m: Mark)
    ensures Starts(trace + [m]) == Starts(trace) + if m.StartSent? then 1 else 0
    ensures InFlight(trace + [m]) == (m.StartSent? || (!Closes(m) && InFlight(trace)))
  {
    assert (trace + [m])[..|trace|] == trace;
  }

  lemma StartProgresses(c: Camera, accept: bool)
    requires Guarded(c) && NeedsStart(c.slot)
    ensures Progresses(c, accept, StartOne(c, accept)) && TickOne(c, accept) == StartOne(c, accept)
  {
    StartsSnoc(c.trace, StartSent);
  }

  /** A response that does not see the camera recording leaves status and guard as good as they were. */
  lemma {:induction false} IdleFlags(trace: seq<Mark>, p: Progress, flags: seq<bool>)
    requires p.status != Active && true !in flags
    ensures var q := ObserveAll(p, flags); q.status != Active && q.startPending == p.startPending
    ensures var t := trace + ChangeMarks(p, flags); Starts(t) == Starts(trace) && InFlight(t) == InFlight(trace)
    decreases |flags|
  {
    if flags == [] {
      assert trace + ChangeMarks(p, flags) == trace;
    } else {
      assert !flags[0];
      var q := Observe(p, flags[0]);
      if q.status == p.status {
        assert ChangeMarks(p, flags) == ChangeMarks(q, flags[1..]);
        IdleFlags(trace, q, flags[1..]);
      } else {
        var m := Changed(p.status, q.status);
        StartsSnoc(trace, m);
        IdleFlags(trace + [m], q, flags[1..]);
        assert trace + ChangeMarks(p, flags) == (trace + [m]) + ChangeMarks(q, flags[1..]);
      }
    }
  }

  /** Events of other connections pass the slot by. */
  lemma OthersPassBy(w: World, e: Event, i: nat)
    requires Inv(w) && Enabled(w, e) && i < MAX_BONDS && NeedsStart(w.mgr.cams[i].slot)
    requires LeavesAlone(w, e, i) && (e.Link? || e.Encrypted? || e.Unlink? || e.Discovered?)
    ensures Step(w, e).mgr.cams[i] == w.mgr.cams[i]
  {
    if e.Link? {
      LinkPassesBy(w, e.h, e.a, i);
    } else if e.Encrypted? {
      EncryptionPassesBy(w, e.h, i);
    }
  }

  lemma LinkPassesBy(w: World, h: nat, a: Addr, i: nat)
    requires Inv(w) && Enabled(w, Link(h, a)) && i < MAX_BONDS && w.mgr.cams[i].slot.handle != HANDLE_NONE
    ensures Step(w, Link(h, a)).mgr.cams[i] == w.mgr.cams[i]
  {
    assert Consistent(w.mgr.cams[i].slot, w.links);
  }

  /** A known peer that gets encrypted is connected already. */
  lemma EncryptionPassesBy(w: World, h: nat, i: nat)
    requires Inv(w) && h in w.links && i < MAX_BONDS && w.mgr.cams[i].slot.handle != HANDLE_NONE
    ensures Step(w, Encrypted(h)).mgr.cams[i] == w.mgr.cams[i]
  {
    var s := w.mgr.cams[i].slot;
    assert Consistent(s, w.links);
    assert HasAddr(s, w.links[h]) ==> s.handle == h;
  }

  lemma ResponseProgresses(w: World, h: nat, flags: seq<bool>, i: nat)
    requires Inv(w) && h in w.links && i < MAX_BONDS && NeedsStart(w.mgr.cams[i].slot)
    requires h == w.mgr.cams[i].slot.handle ==> true !in flags
    ensures Progresses(w.mgr.cams[i], false, Step(w, StatusResponse(h, flags)).mgr.cams[i])
  {
    if h == w.mgr.cams[i].slot.handle {
      IdleProgresses(w.mgr.cams[i], flags);
    }
  }

  lemma IdleProgresses(c: Camera, flags: seq<bool>)
    requires NeedsStart(c.slot) && true !in flags
    ensures Progresses(c, false, StatusOne(c, flags))
  {
    var g := c.slot.ctx.value;
    IdleFlags(c.trace, Progress(g.status, g.startPending), flags);
  }

  /** Switching every camera on starts slot i like a start on it alone. */
  lemma SwitchOnIsStart(m: Manager, accept: nat -> bool, i: nat)
    requires Sized(m) && i < MAX_BONDS && m.cams[i].slot.desired
    ensures ShutterAll(m, true, accept).cams[i] == StartOne(m.cams[i], accept(i))
  {
    var d := m.cams[i].(slot := m.cams[i].slot.(desired := true));
    assert d == m.cams[i] && SetDesired(m, true).cams[i] == d;
  }

  lemma CommandProgresses(w: World, e: Event, i: nat)
    requires Inv(w) && Enabled(w, e) && i < MAX_BONDS && NeedsStart(w.mgr.cams[i].slot) && LeavesAlone(w, e, i)
    requires e.TickTimer? || e.LoggingChanged? || e.ShutterAllCmd?
    ensures Progresses(w.mgr.cams[i], Offers(w, e, i), Step(w, e).mgr.cams[i])
  {
    var c := w.mgr.cams[i];
    assert Guarded(c);
    StartProgresses(c, e.accept(i));
    SwitchOnIsStart(w.mgr, e.accept, i);
  }

  lemma SlotCommandProgresses(w: World, j: nat, on: bool, ok: bool, i: nat)
    requires Inv(w) && j < MAX_BONDS && i < MAX_BONDS && NeedsStart(w.mgr.cams[i].slot) && (j == i ==> on)
    ensures Progresses(w.mgr.cams[i], j == i && ok, Step(w, ShutterSlotCmd(j, on, ok)).mgr.cams[i])
  {
    var c := w.mgr.cams[i];
    assert Guarded(c);
    assert c.(slot := c.slot.(desired := true)) == c;
    StartProgresses(c, ok);
  }

  /** One event of any kind. */
  lemma StepProgresses(w: World, e: Event, i: nat)
    requires Inv(w) && Enabled(w, e) && i < MAX_BONDS && NeedsStart(w.mgr.cams[i].slot) && LeavesAlone(w, e, i)
    ensures Progresses(w.mgr.cams[i], Offers(w, e, i), Step(w, e).mgr.cams[i])
  {
    if e.Link? || e.Encrypted? || e.Unlink? || e.Discovered? {
      OthersPassBy(w, e, i);
    } else if e.StatusResponse? {
      ResponseProgresses(w, e.h, e.flags, i);
    } else if e.ShutterSlotCmd? {
      SlotCommandProgresses(w, e.i, e.on, e.ok, i);
    } else if e.TickTimer? || e.LoggingChanged? || e.ShutterAllCmd? {
      CommandProgresses(w, e, i);
    }
  }

  // ---- Whole runs ----------------------------------------------------------------------------

  /** Every event of the run leaves the recovery of slot i alone. */
  predicate AllLeaveAlone(w: World, run: seq<Event>, i: nat)
    requires Sized(w.mgr) && ValidRun(w, run) && i < MAX_BONDS
    decreases |run|
  {
    run == [] || (LeavesAlone(w, run[0], i) && AllLeaveAlone(Step(w, run[0]), run[1..], i))
  }

  /** Some event of the run offers slot i a start. */
  predicate SomeOffer(w: World, run: seq<Event>, i: nat)
    requires Sized(w.mgr) && ValidRun(w, run)
    decreases |run|
  {
    run != [] && (Offers(w, run[0], i) || SomeOffer(Step(w, run[0]), run[1..], i))
  }

  lemma {:induction false} RunProgresses(w: World, run: seq<Event>, i: nat)
    requires Inv(w) && ValidRun(w, run) && i < MAX_BONDS
    requires NeedsStart(w.mgr.cams[i].slot) && AllLeaveAlone(w, run, i)
    ensures Progresses(w.mgr.cams[i], SomeOffer(w, run, i), After(w, run).mgr.cams[i])
    decreases |run|
  {
    if run == [] {
    } else {
      StepKeeps(w, run[0]);
      StepProgresses(w, run[0], i);
      RunProgresses(Step(w, run[0]), run[1..], i);
    }
  }

  /** Main result: while a camera needs a start and none is in flight, any run of ticks, CAN callbacks, web
      commands, status responses and events on other cameras sends it exactly one start if some tick or start call
      has its write accepted, and none otherwise. */
  lemma SendsExactlyOne(w: World, run: seq<Event>, i: nat)
    requires Inv(w) && ValidRun(w, run) && i < MAX_BONDS
    requires NeedsStart(w.mgr.cams[i].slot) && !InFlight(w.mgr.cams[i].trace) && AllLeaveAlone(w, run, i)
    ensures Starts(After(w, run).mgr.cams[i].trace)
         == Starts(w.mgr.cams[i].trace) + (if SomeOffer(w, run, i) then 1 else 0)
  {
    RunProgresses(w, run, i);
  }

  /** Whatever it saw in between, a response after which a camera counts as not recording, having counted as
      recording before or having had the guard down, leaves the guard down. */
  lemma {:induction false} LeavingLowersGuard(p: Progress, flags: seq<bool>)
    requires p.status == Active || !p.startPending
    ensures var q := ObserveAll(p, flags); q.status == Active || !q.startPending
    decreases |flags|
  {
    if flags == [] {
    } else {
      LeavingLowersGuard(Observe(p, flags[0]), flags[1..]);
    }
  }

  /** The status walk sends nothing. */
  lemma {:induction false} WalkSendsNothing(trace: seq<Mark>, p: Progress, flags: seq<bool>)
    ensures Starts(trace + ChangeMarks(p, flags)) == Starts(trace)
    decreases |flags|
  {
    if flags == [] {
      assert trace + ChangeMarks(p, flags) == trace;
    } else {
      var q := Observe(p, flags[0]);
      if q.status == p.status {
        assert ChangeMarks(p, flags) == ChangeMarks(q, flags[1..]);
        WalkSendsNothing(trace, q, flags[1..]);
      } else {
        var m := Changed(p.status, q.status);
        StartsSnoc(trace, m);
        WalkSendsNothing(trace + [m], q, flags[1..]);
        assert trace + ChangeMarks(p, flags) == (trace + [m]) + ChangeMarks(q, flags[1..]);
      }
    }
  }

  /** A connected, ready camera with a command handle, wanted and counting as recording. */
  predicate RecordsAsWanted(s: Slot) {
    Reachable(s) && s.desired && HandleOf(s.ctx.value.gatt, GP_CMD) != 0 && s.ctx.value.status == Active
  }

  /** A response whose flags end in "not encoding" makes such a camera need a start, with none in flight. */
  lemma StopSeenNeedsStart(w: World, h: nat, flags: seq<bool>)
    requires Inv(w) && h in w.links && FindByHandle(w.mgr.cams, h) >= 0
    requires RecordsAsWanted(w.mgr.cams[FindByHandle(w.mgr.cams, h)].slot)
    requires flags != [] && !flags[|flags| - 1]
    ensures var i := FindByHandle(w.mgr.cams, h); var c := Step(w, StatusResponse(h, flags)).mgr.cams[i];
      NeedsStart(c.slot) && !InFlight(c.trace) && Starts(c.trace) == Starts(w.mgr.cams[i].trace)
  {
    var i := FindByHandle(w.mgr.cams, h);
    var c := w.mgr.cams[i];
    var p := Progress(c.slot.ctx.value.status, c.slot.ctx.value.startPending);
    assert Guarded(c);
    LeavingLowersGuard(p, flags);
    LastFlagDecides(p, flags);
    WalkSendsNothing(c.trace, p, flags);
    StatusKeeps(c, flags);
  }

  lemma {:induction false} LastFlagDecides(p: Progress, flags: seq<bool>)
    requires flags != []
    ensures ObserveAll(p, flags).status == if flags[|flags| - 1] then Active else Idle
    decreases |flags|
  {
    if |flags| == 1 {
      assert flags[1..] == [];
    } else {
      LastFlagDecides(Observe(p, flags[0]), flags[1..]);
    }
  }

  /** Recovery: when a camera that records as wanted is seen to have stopped, any run that follows sends it exactly
      one start as soon as one tick or start call has its write accepted, and no second one. */
  lemma Recovers(w: World, h: nat, flags: seq<bool>, run: seq<Event>)
    requires Inv(w) && h in w.links && FindByHandle(w.mgr.cams, h) >= 0
    requires RecordsAsWanted(w.mgr.cams[FindByHandle(w.mgr.cams, h)].slot)
    requires flags != [] && !flags[|flags| - 1]
    requires var w1 := Step(w, StatusResponse(h, flags));
      ValidRun(w1, run) && AllLeaveAlone(w1, run, FindByHandle(w.mgr.cams, h))
    ensures var i := FindByHandle(w.mgr.cams, h); var w1 := Step(w, StatusResponse(h, flags));
      Starts(After(w1, run).mgr.cams[i].trace)
        == Starts(w.mgr.cams[i].trace) + (if SomeOffer(w1, run, i) then 1 else 0)
  {
    StopSeenNeedsStart(w, h, flags);
    StepKeeps(w, StatusResponse(h, flags));
    SendsExactlyOne(Step(w, StatusResponse(h, flags)), run, FindByHandle(w.mgr.cams, h));
  }
}
