/** The CAN side (can_manager.c) and the glue of main.c: the logging state as a function of the frames received,
    and recording wanted on every camera as a function of the logging state. */
module CanManager {
  import opened Base
  import opened Cameras
  import opened Lifecycle
  import SlotEffects

  const CAN_ID_RC_COMMAND: nat := 0x600
  const CAN_ID_RC_UTC: nat := 0x602
  const LOGGING_TIMEOUT_US: int := 5_000_000
  const TWO_64: nat := 0x1_0000_0000_0000_0000
  const JAN_2020_MS: nat := 1_577_836_800_000

  /** can_frame_t; |data| is data_len. */
  datatype Frame = Frame(id: nat, extended: bool, data: seq<byte>)

  /** One turn of the can_rx_task loop: the frame dequeued, if any, and the clock when it is handled and when
      the timeout is checked. */
  datatype Turn = Turn(frame: Option<Frame>, handled: int, checked: int)

  /** A valid 0x600 frame as it was received. */
  datatype Command = Command(at: int, logging: bool)

  /** A valid 0x602 frame as it was received. */
  datatype Utc = Utc(epochMs: nat, at: int)

  function IsCommand(f: Option<Frame>): bool {
    f.Some? && f.value.id == CAN_ID_RC_COMMAND && !f.value.extended && |f.value.data| >= 1
  }

  function LittleEndian(s: seq<byte>): nat {
    if s == [] then 0 else s[0] + 0x100 * LittleEndian(s[1..])
  }

  function IsUtc(f: Option<Frame>): bool {
    && f.Some? && f.value.id == CAN_ID_RC_UTC && !f.value.extended && |f.value.data| >= 8
    && LittleEndian(f.value.data[..8]) >= JAN_2020_MS
  }

  // ---- The task's state ----------------------------------------------------------------------

  /** s_logging_state, s_last_cmd_rx_us, the UTC pair, and the callbacks made so far. */
  datatype Can = Can(state: Logging, lastRx: int, utc: Option<Utc>, calls: seq<Logging>, utcCalls: nat)

  /** The state when the task starts at time `now`. */
  function Started(now: int): Can { Can(LoggingUnknown, now, None, [], 0) }

  /** Assign the logging state; the callback fires on change only. */
  function SetState(c: Can, s: Logging): Can {
    if s == c.state then c else c.(state := s, calls := c.calls + [s])
  }

  function AsLogging(on: bool): Logging { if on then LoggingOn else NotLogging }

  /** handle_rc_command and handle_rc_utc. */
  function HandleFrame(c: Can, f: Option<Frame>, now: int): Can {
    if IsCommand(f) then SetState(c.(lastRx := now), AsLogging(f.value.data[0] != 0))
    else if IsUtc(f) then
      c.(utc := Some(Utc(LittleEndian(f.value.data[..8]), now)),
         utcCalls := if c.utc.None? then c.utcCalls + 1 else c.utcCalls)
    else c
  }

  /** The timeout part of the loop. */
  function CheckTimeout(c: Can, now: int): Can {
    if c.state != LoggingUnknown && now - c.lastRx > LOGGING_TIMEOUT_US then SetState(c, LoggingUnknown) else c
  }

  function TurnOnce(c: Can, t: Turn): Can { CheckTimeout(HandleFrame(c, t.frame, t.handled), t.checked) }

  function TurnAll(c: Can, turns: seq<Turn>): Can
    decreases |turns|
  {
    if turns == [] then c else TurnOnce(TurnAll(c, turns[..|turns| - 1]), turns[|turns| - 1])
  }

  // ---- What the state means ------------------------------------------------------------------

  /** The valid commands received, in order. */
  function Commands(turns: seq<Turn>): seq<Command> {
    if turns == [] then []
    else
      var t := turns[|turns| - 1];
      Commands(turns[..|turns| - 1]) + CommandOf(t)
  }

  /** The last valid UTC frame received. */
  function LastUtc(turns: seq<Turn>): Option<Utc> {
    if turns == [] then None
    else
      var t := turns[|turns| - 1];
      if IsUtc(t.frame) then Some(Utc(LittleEndian(t.frame.value.data[..8]), t.handled))
      else LastUtc(turns[..|turns| - 1])
  }

  /** The logging state a history of commands means at time `now`. */
  function Meaning(cmds: seq<Command>, now: int): Logging {
    if cmds == [] || now - cmds[|cmds| - 1].at > LOGGING_TIMEOUT_US then LoggingUnknown
    else AsLogging(cmds[|cmds| - 1].logging)
  }

  /** The value of the last command, however long ago. */
  function LastWord(cmds: seq<Command>): Logging {
    if cmds == [] then LoggingUnknown else AsLogging(cmds[|cmds| - 1].logging)
  }

  /** The meaning sampled after every valid command and at every timeout check. */
  function Samples(turns: seq<Turn>): seq<Logging> {
    if turns == [] then []
    else
      var t, cmds := turns[|turns| - 1], Commands(turns);
      Samples(turns[..|turns| - 1]) + (if IsCommand(t.frame) then [Meaning(cmds, t.handled)] else [])
        + [Meaning(cmds, t.checked)]
  }

  function Latest(s: seq<Logging>): Logging { if s == [] then LoggingUnknown else s[|s| - 1] }

  /** The changes in a sequence of states that starts from unknown. */
  function Changes(s: seq<Logging>): seq<Logging> {
    if s == [] then []
    else
      var before := s[..|s| - 1];
      Changes(before) + if Latest(before) == Latest(s) then [] else [Latest(s)]
  }

  /** The last state that was not unknown. */
  function LastKnown(calls: seq<Logging>): Logging {
    if calls == [] then LoggingUnknown
    else if calls[|calls| - 1] != LoggingUnknown then calls[|calls| - 1] else LastKnown(calls[..|calls| - 1])
  }

  /** The clock never goes back. */
  ghost predicate Clocked(turns: seq<Turn>) {
    && (forall i | 0 <= i < |turns| :: turns[i].handled <= turns[i].checked)
    && (forall i | 0 < i < |turns| :: turns[i - 1].checked <= turns[i].handled)
  }

  lemma ChangesSnoc(s: seq<Logging>, x: Logging)
    ensures Changes(s + [x]) == Changes(s) + (if Latest(s) == x then [] else [x])
    ensures Latest(s + [x]) == x
  {
    assert (s + [x])[..|s|] == s;
  }

  /** The task's state and its frames agree at time `now`. */
  ghost predicate Agrees(c: Can, cmds: seq<Command>, now: int) {
    && c.state == Meaning(cmds, now)
    && (cmds != [] ==> c.lastRx == cmds[|cmds| - 1].at <= now)
  }

  /** The commands of a turn. */
  function CommandOf(t: Turn): seq<Command> {
    if IsCommand(t.frame) then [Command(t.handled, t.frame.value.data[0] != 0)] else []
  }

  /** Handling a frame at `t.handled`: from there on the state is what the frames mean. */
  lemma FrameAgrees(c: Can, cmds: seq<Command>, t: Turn, now: int)
    requires c.state == LoggingUnknown || (cmds != [] && c.state == LastWord(cmds))
    requires cmds != [] ==> c.lastRx == cmds[|cmds| - 1].at <= now
    requires c.state == LoggingUnknown && cmds != [] ==> now - c.lastRx > LOGGING_TIMEOUT_US
    requires now <= t.handled <= t.checked
    ensures var c1 := HandleFrame(c, t.frame, t.handled); var cmds1 := cmds + CommandOf(t);
      && (IsCommand(t.frame) ==> c1.state == Meaning(cmds1, t.handled))
      && (!IsCommand(t.frame) ==> c1.state == c.state)
      && c1.calls == c.calls + (if c1.state == c.state then [] else [c1.state])
      && Agrees(CheckTimeout(c1, t.checked), cmds1, t.checked)
      && CheckTimeout(c1, t.checked).calls
           == c1.calls + (if CheckTimeout(c1, t.checked).state == c1.state then [] else [Meaning(cmds1, t.checked)])
  {
    if !IsCommand(t.frame) {
      assert cmds + CommandOf(t) == cmds;
    }
  }

  /** One turn: state, callbacks and samples move together. */
  lemma TurnRefines(c: Can, cmds: seq<Command>, samples: seq<Logging>, t: Turn, now: int)
    requires c.state == Latest(samples) && c.calls == Changes(samples)
    requires c.state == LoggingUnknown || (cmds != [] && c.state == LastWord(cmds))
    requires cmds != [] ==> c.lastRx == cmds[|cmds| - 1].at <= now
    requires c.state == LoggingUnknown && cmds != [] ==> now - c.lastRx > LOGGING_TIMEOUT_US
    requires now <= t.handled <= t.checked
    ensures var cmds1 := cmds + CommandOf(t);
      var samples1 := (samples + (if IsCommand(t.frame) then [Meaning(cmds1, t.handled)] else []))
                      + [Meaning(cmds1, t.checked)];
      && TurnOnce(c, t).state == Latest(samples1) && TurnOnce(c, t).calls == Changes(samples1)
      && Agrees(TurnOnce(c, t), cmds1, t.checked)
  {
    FrameAgrees(c, cmds, t, now);
    var cmds1 := cmds + CommandOf(t);
    var mid := samples + if IsCommand(t.frame) then [Meaning(cmds1, t.handled)] else [];
    if IsCommand(t.frame) {
      ChangesSnoc(samples, Meaning(cmds1, t.handled));
    } else {
      assert mid == samples;
    }
    ChangesSnoc(mid, Meaning(cmds1, t.checked));
  }

  /** Main result: after every turn the logging state is what the frames mean at that moment, and the callbacks
      made are exactly the changes of that meaning, without repetitions. */
  lemma {:induction false} LoggingRefinesHistory(start: int, turns: seq<Turn>)
    requires Clocked(turns)
    ensures var c := TurnAll(Started(start), turns);
      && c.state == Latest(Samples(turns))
      && (turns != [] ==> Agrees(c, Commands(turns), turns[|turns| - 1].checked))
      && c.calls == Changes(Samples(turns))
    decreases |turns|
  {
    if turns == [] {
    } else {
      var before, t := turns[..|turns| - 1], turns[|turns| - 1];
      assert turns == before + [t];
      LoggingRefinesHistory(start, before);
      var c, cmds := TurnAll(Started(start), before), Commands(before);
      var now := if before == [] then t.handled else before[|before| - 1].checked;
      assert before != [] ==> before[|before| - 1] == turns[|turns| - 2];
      TurnRefines(c, cmds, Samples(before), t, now);
      SamplesSnoc(before, t);
      TurnAllSnoc(Started(start), before, t);
    }
  }

  lemma SamplesSnoc(before: seq<Turn>, t: Turn)
    ensures var cmds := Commands(before) + CommandOf(t);
      && Commands(before + [t]) == cmds
      && Samples(before + [t]) == (Samples(before) + (if IsCommand(t.frame) then [Meaning(cmds, t.handled)] else []))
        + [Meaning(cmds, t.checked)]
  {
    assert (before + [t])[..|before|] == before;
    assert Commands(before + [t]) == Commands(before) + CommandOf(t);
  }

  // ---- Frame by frame ------------------------------------------------------------------------

  /** A logging state, and the callback exactly if it is a change. */
  predicate Assigned(before: Can, after: Can, s: Logging) {
    after.state == s && after.calls == before.calls + if s == before.state then [] else [s]
  }

  /** What silence of more than five seconds makes of the logging state. */
  function Expired(c: Can, lastRx: int, now: int): Logging {
    if now - lastRx > 5_000_000 then LoggingUnknown else c.state
  }

  /** A standard 0x600 frame with at least one byte: not zero says logging, zero says not, at once and until five
      seconds of silence. */
  lemma CommandIsTaken(c: Can, data: seq<byte>, handled: int, checked: int)
    requires |data| >= 1 && checked - handled <= 5_000_000
    ensures var r := TurnOnce(c, Turn(Some(Frame(0x600, false, data)), handled, checked));
      && Assigned(c, r, if data[0] != 0 then LoggingOn else NotLogging)
      && r.lastRx == handled && r.utc == c.utc && r.utcCalls == c.utcCalls
  {
    assert c.calls + [] == c.calls;
  }

  /** Every other frame, and none, leaves the logging state to the timeout. */
  lemma OthersAreNoCommands(c: Can, t: Turn)
    requires t.frame.None? || t.frame.value.id != 0x600 || t.frame.value.extended || |t.frame.value.data| == 0
    ensures Assigned(c, TurnOnce(c, t), Expired(c, c.lastRx, t.checked)) && TurnOnce(c, t).lastRx == c.lastRx
  {
    assert c.calls + [] == c.calls;
  }

  /** The number eight bytes spell, the first one lowest. */
  function EightBytes(d: seq<byte>): nat
    requires |d| >= 8
  {
    FourBytes(d[0], d[1], d[2], d[3]) + 0x1_0000_0000 * FourBytes(d[4], d[5], d[6], d[7])
  }

  function FourBytes(a: byte, b: byte, c: byte, d: byte): nat { a + 0x100 * b + 0x1_0000 * c + 0x100_0000 * d }

  lemma LittleEndianCons(b: byte, rest: seq<byte>)
    ensures LittleEndian([b] + rest) == b + 0x100 * LittleEndian(rest)
  {
    assert ([b] + rest)[1..] == rest;
  }

  lemma FourLow(a: byte, b: byte, c: byte, d: byte, rest: seq<byte>)
    ensures LittleEndian([a] + ([b] + ([c] + ([d] + rest))))
         == FourBytes(a, b, c, d) + 0x1_0000_0000 * LittleEndian(rest)
  {
    LittleEndianCons(d, rest);
    LittleEndianCons(c, [d] + rest);
    LittleEndianCons(b, [c] + ([d] + rest));
    LittleEndianCons(a, [b] + ([c] + ([d] + rest)));
  }

  lemma EightBytesAre(d: seq<byte>)
    requires |d| >= 8
    ensures LittleEndian(d[..8]) == EightBytes(d)
  {
    var high := [d[4]] + ([d[5]] + ([d[6]] + ([d[7]] + [])));
    assert d[..8] == [d[0]] + ([d[1]] + ([d[2]] + ([d[3]] + high)));
    FourLow(d[0], d[1], d[2], d[3], high);
    FourLow(d[4], d[5], d[6], d[7], []);
  }

  /** A standard 0x602 frame of at least eight bytes that spell a time from 2020 on is the UTC from then on, and the
      first one is announced; every other frame leaves it as it is. */
  lemma UtcIsTaken(c: Can, f: Frame, handled: int, checked: int)
    ensures var r := TurnOnce(c, Turn(Some(f), handled, checked));
      if f.id == 0x602 && !f.extended && |f.data| >= 8 && EightBytes(f.data) >= 1_577_836_800_000 then
        r.utc == Some(Utc(EightBytes(f.data), handled)) && r.utcCalls == c.utcCalls + if c.utc.None? then 1 else 0
      else r.utc == c.utc && r.utcCalls == c.utcCalls
    ensures TurnOnce(c, Turn(None, handled, checked)).utc == c.utc
  {
    if |f.data| >= 8 {
      EightBytesAre(f.data);
    }
  }

  /** A turn carries the last known state from one word to the next. */
  lemma TurnKeepsWord(c: Can, cmds: seq<Command>, t: Turn)
    requires LastKnown(c.calls) == LastWord(cmds)
    requires c.state != LoggingUnknown ==> LastKnown(c.calls) == c.state
    ensures LastKnown(TurnOnce(c, t).calls) == LastWord(cmds + CommandOf(t))
  {
    var c1 := HandleFrame(c, t.frame, t.handled);
    LastKnownSnoc(c.calls, c1.state);
    LastKnownSnoc(c1.calls, LoggingUnknown);
    if !IsCommand(t.frame) {
      assert cmds + CommandOf(t) == cmds;
    }
  }

  /** The last known logging state, timeouts included, is the word of the last valid command. */
  lemma {:induction false} LastKnownIsLastWord(start: int, turns: seq<Turn>)
    requires Clocked(turns)
    ensures LastKnown(TurnAll(Started(start), turns).calls) == LastWord(Commands(turns))
    decreases |turns|
  {
    if turns == [] {
    } else {
      var before, t := turns[..|turns| - 1], turns[|turns| - 1];
      LastKnownIsLastWord(start, before);
      StateIsLatestCall(start, before);
      KnownOfLatest(TurnAll(Started(start), before).calls);
      TurnKeepsWord(TurnAll(Started(start), before), Commands(before), t);
      assert Commands(turns) == Commands(before) + CommandOf(t);
    }
  }

  lemma KnownOfLatest(calls: seq<Logging>)
    ensures Latest(calls) != LoggingUnknown ==> LastKnown(calls) == Latest(calls)
  {
  }

  lemma LastKnownSnoc(calls: seq<Logging>, x: Logging)
    ensures LastKnown(calls + [x]) == if x == LoggingUnknown then LastKnown(calls) else x
  {
    assert (calls + [x])[..|calls|] == calls;
  }

  lemma {:induction false} StateIsLatestCall(start: int, turns: seq<Turn>)
    ensures var c := TurnAll(Started(start), turns); c.state == Latest(c.calls)
    decreases |turns|
  {
    if turns == [] {
    } else {
      StateIsLatestCall(start, turns[..|turns| - 1]);
    }
  }

  /** can_manager_get_utc_ms at time `now`. */
  function UtcAt(c: Can, now: int): Option<nat>
    requires c.utc.Some? ==> c.utc.value.at <= now
  {
    if c.utc.None? then None else Some((c.utc.value.epochMs + (now - c.utc.value.at) / 1000) % TWO_64)
  }

  /** The UTC pair is the last valid frame's, and its first arrival is announced exactly once. */
  lemma {:induction false} UtcRefinesHistory(start: int, turns: seq<Turn>)
    ensures var c := TurnAll(Started(start), turns);
      c.utc == LastUtc(turns) && c.utcCalls == if LastUtc(turns).Some? then 1 else 0
    decreases |turns|
  {
    if turns == [] {
    } else {
      UtcRefinesHistory(start, turns[..|turns| - 1]);
    }
  }

  /** The clock the cameras are set by: there is one exactly if a valid UTC frame came, it shows that frame's time
      at the frame's arrival, and from then on it advances with the system timer to within a millisecond. */
  lemma UtcClockRuns(start: int, turns: seq<Turn>, t1: int, t2: int)
    requires LastUtc(turns).Some? ==> LastUtc(turns).value.at <= t1 <= t2
    requires LastUtc(turns).Some? ==> LastUtc(turns).value.epochMs + (t2 - LastUtc(turns).value.at) / 1000 < TWO_64
    ensures TurnAll(Started(start), turns).utc == LastUtc(turns)
    ensures var c := TurnAll(Started(start), turns);
      if LastUtc(turns).None? then UtcAt(c, t1).None?
      else
        && UtcAt(c, LastUtc(turns).value.at) == Some(LastUtc(turns).value.epochMs)
        && UtcAt(c, t1).Some? && UtcAt(c, t2).Some?
        && -1000 < 1000 * (UtcAt(c, t2).value - UtcAt(c, t1).value) - (t2 - t1) < 1000
  {
    UtcRefinesHistory(start, turns);
  }

  // ---- End to end: frames to wanted recording ------------------------------------------------

  /** The CAN task, the layers below it, and the slots emptied since the last known logging state. */
  datatype System = System(can: Can, world: World, emptied: set<nat>)

  datatype SysEvent = CanTurn(turn: Turn, accept: nat -> bool) | Other(e: Lifecycle.Event)

  /** The logging callbacks of a turn reach on_logging_state_changed one by one. */
  function Deliver(s: System, states: seq<Logging>, accept: nat -> bool): (r: System)
    requires Sized(s.world.mgr)
    ensures Sized(r.world.mgr) && r.can == s.can
    decreases |states|
  {
    if states == [] then s
    else
      var w := Lifecycle.Step(s.world, LoggingChanged(states[0], accept));
      Deliver(s.(world := w, emptied := if states[0] == LoggingUnknown then s.emptied else {}), states[1..], accept)
  }

  /** The callbacks a turn adds. */
  function NewCalls(c: Can, t: Turn): seq<Logging> {
    var c1 := HandleFrame(c, t.frame, t.handled);
    (if c1.state == c.state then [] else [c1.state])
      + (if TurnOnce(c, t).state == c1.state then [] else [TurnOnce(c, t).state])
  }

  predicate SysEnabled(s: System, e: SysEvent) {
    match e
    case CanTurn(_, _) => true
    case Other(ev) => !ev.LoggingChanged? && Lifecycle.Enabled(s.world, ev)
  }

  function SysStep(s: System, e: SysEvent): (r: System)
    requires Sized(s.world.mgr) && SysEnabled(s, e)
    ensures Sized(r.world.mgr)
  {
    match e
    case CanTurn(t, accept) => Deliver(s.(can := TurnOnce(s.can, t)), NewCalls(s.can, t), accept)
    case Other(ev) =>
      s.(world := Lifecycle.Step(s.world, ev), emptied := if ev.Remove? then s.emptied + {ev.i} else s.emptied)
  }

  lemma NewCallsAreNew(c: Can, t: Turn)
    ensures TurnOnce(c, t).calls == c.calls + NewCalls(c, t)
  {
  }

  /** No web shutter command, and auto-control not switched. */
  predicate HandsOff(e: SysEvent) {
    e.Other? ==> !e.e.ShutterAllCmd? && !e.e.ShutterSlotCmd? && !e.e.AutoControl?
  }

  /** Every slot wants recording exactly when the last known logging state was "logging" and the slot was not
      emptied since. */
  ghost predicate Follows(s: System, known: Logging) {
    && Sized(s.world.mgr) && s.world.mgr.autoControl
    && forall i | 0 <= i < MAX_BONDS ::
         s.world.mgr.cams[i].slot.desired <==> known == LoggingOn && i !in s.emptied
  }

  /** Nothing but a removal changes what a slot wants. */
  lemma WantedUnchanged(w: World, e: Lifecycle.Event, i: nat)
    requires Sized(w.mgr) && Lifecycle.Enabled(w, e) && i < MAX_BONDS
    requires !e.LoggingChanged? && !e.ShutterAllCmd? && !e.ShutterSlotCmd? && !e.AutoControl?
    ensures var m := Lifecycle.Step(w, e).mgr;
      && m.autoControl == w.mgr.autoControl
      && m.cams[i].slot.desired == (w.mgr.cams[i].slot.desired && !(e.Remove? && e.i == i))
  {
    if e.TickTimer? {
      assert Tick(w.mgr, e.accept).cams[i] == TickOne(w.mgr.cams[i], e.accept(i));
    } else if e.Encrypted? {
      EncryptedWants(w.mgr, e.h, w.links[e.h], i);
    } else if e.Link? || e.Unlink? || e.Discovered? {
      ConnectionWants(w, e, i);
    }
  }

  lemma ConnectionWants(w: World, e: Lifecycle.Event, i: nat)
    requires Sized(w.mgr) && Lifecycle.Enabled(w, e) && i < MAX_BONDS && (e.Link? || e.Unlink? || e.Discovered?)
    ensures Lifecycle.Step(w, e).mgr.autoControl == w.mgr.autoControl
    ensures Lifecycle.Step(w, e).mgr.cams[i].slot.desired == w.mgr.cams[i].slot.desired
  {
    if e.Discovered? {
    } else if e.Unlink? {
      UnlinkWants(w.mgr, e.h, i);
    }
  }

  lemma UnlinkWants(m: Manager, h: nat, i: nat)
    requires Sized(m) && i < MAX_BONDS
    ensures DisconnectedCb(m, h).autoControl == m.autoControl
    ensures DisconnectedCb(m, h).cams[i].slot.desired == m.cams[i].slot.desired
  {
    var j := FindByHandle(m.cams, h);
    if j >= 0 {
      var m1 := SetCam(m, j, DropCtx(m.cams[j]));
      assert m1.cams[i].slot.desired == m.cams[i].slot.desired;
    }
  }

  lemma EncryptedWants(m: Manager, h: nat, a: Addr, i: nat)
    requires Sized(m) && i < MAX_BONDS
    ensures EncryptedCb(m, h, a).autoControl == m.autoControl
    ensures EncryptedCb(m, h, a).cams[i].slot.desired == m.cams[i].slot.desired
  {
    var known, free := FindByAddr(m.cams, a), FindFree(m.cams);
    if known < 0 && free >= 0 {
      assert RegisterCamera(m, free, a).cams[i].slot.desired == m.cams[i].slot.desired;
    }
  }

  lemma {:induction false} DeliverFollows(s: System, known: Logging, calls: seq<Logging>, states: seq<Logging>,
                                          accept: nat -> bool)
    requires Follows(s, known) && known == LastKnown(calls)
    ensures Follows(Deliver(s, states, accept), LastKnown(calls + states))
    decreases |states|
  {
    if states == [] {
      assert calls + states == calls;
    } else {
      var x := states[0];
      LastKnownSnoc(calls, x);
      assert calls + states == (calls + [x]) + states[1..];
      var s1 := s.(world := Lifecycle.Step(s.world, LoggingChanged(x, accept)),
                   emptied := if x == LoggingUnknown then s.emptied else {});
      assert Follows(s1, LastKnown(calls + [x])) by {
        if x != LoggingUnknown {
          forall i | 0 <= i < MAX_BONDS ensures s1.world.mgr.cams[i].slot.desired == (x == LoggingOn) {
            ShutterSetsWanted(s.world.mgr, x == LoggingOn, accept, i);
          }
        }
      }
      DeliverFollows(s1, LastKnown(calls + [x]), calls + [x], states[1..], accept);
    }
  }

  lemma ShutterSetsWanted(m: Manager, on: bool, accept: nat -> bool, i: nat)
    requires Sized(m) && i < MAX_BONDS
    ensures ShutterAll(m, on, accept).cams[i].slot.desired == on
    ensures ShutterAll(m, on, accept).autoControl == m.autoControl
  {
    var d := m.cams[i].(slot := m.cams[i].slot.(desired := on));
    assert SetDesired(m, on).cams[i] == d;
    assert StartOne(d, accept(i)).slot.desired == on && StopOne(d).slot.desired == on;
  }

  lemma SysStepFollows(s: System, e: SysEvent)
    requires Follows(s, LastKnown(s.can.calls)) && SysEnabled(s, e) && HandsOff(e)
    ensures Follows(SysStep(s, e), LastKnown(SysStep(s, e).can.calls))
  {
    match e
    case CanTurn(t, accept) =>
      NewCallsAreNew(s.can, t);
      DeliverFollows(s.(can := TurnOnce(s.can, t)), LastKnown(s.can.calls), s.can.calls, NewCalls(s.can, t), accept);
    case Other(ev) =>
      forall i | 0 <= i < MAX_BONDS
        ensures SysStep(s, e).world.mgr.cams[i].slot.desired
             == (s.world.mgr.cams[i].slot.desired && !(ev.Remove? && ev.i == i))
      {
        WantedUnchanged(s.world, ev, i);
      }
      WantedUnchanged(s.world, ev, 0);
  }

  predicate SysValidRun(s: System, run: seq<SysEvent>)
    requires Sized(s.world.mgr)
    decreases |run|
  {
    run == [] || (SysEnabled(s, run[0]) && SysValidRun(SysStep(s, run[0]), run[1..]))
  }

  function SysAfter(s: System, run: seq<SysEvent>): (r: System)
    requires Sized(s.world.mgr) && SysValidRun(s, run)
    ensures Sized(r.world.mgr)
    decreases |run|
  {
    if run == [] then s else SysAfter(SysStep(s, run[0]), run[1..])
  }

  function TurnOf(e: SysEvent): seq<Turn> { if e.CanTurn? then [e.turn] else [] }

  /** The turns of the CAN task in a run. */
  function Turns(run: seq<SysEvent>): seq<Turn> {
    if run == [] then [] else TurnOf(run[0]) + Turns(run[1..])
  }

  lemma TurnAllSnoc(c: Can, past: seq<Turn>, t: Turn)
    ensures TurnAll(c, past + [t]) == TurnOnce(TurnAll(c, past), t)
  {
    assert (past + [t])[..|past|] == past;
  }

  /** Only the CAN task moves its own state. */
  lemma SysStepCan(s: System, e: SysEvent)
    requires Sized(s.world.mgr) && SysEnabled(s, e)
    ensures SysStep(s, e).can == if e.CanTurn? then TurnOnce(s.can, e.turn) else s.can
  {
  }

  lemma {:induction false} RunFollows(s: System, run: seq<SysEvent>)
    requires Follows(s, LastKnown(s.can.calls)) && SysValidRun(s, run)
    requires forall i | 0 <= i < |run| :: HandsOff(run[i])
    ensures Follows(SysAfter(s, run), LastKnown(SysAfter(s, run).can.calls))
    decreases |run|
  {
    if run == [] {
    } else {
      SysStepFollows(s, run[0]);
      assert forall i | 0 <= i < |run[1..]| :: run[1..][i] == run[i + 1];
      RunFollows(SysStep(s, run[0]), run[1..]);
    }
  }

  /** The CAN state after a run is that of the task's turns alone. */
  lemma {:induction false} RunCan(s: System, run: seq<SysEvent>, c: Can, past: seq<Turn>)
    requires Sized(s.world.mgr) && SysValidRun(s, run) && s.can == TurnAll(c, past)
    ensures SysAfter(s, run).can == TurnAll(c, past + Turns(run))
    decreases |run|
  {
    if run == [] {
      assert past + Turns(run) == past;
    } else {
      StepCan(s, run[0], c, past);
      RunCan(SysStep(s, run[0]), run[1..], c, past + TurnOf(run[0]));
      TurnsSplit(past, run);
    }
  }

  lemma TurnsSplit(past: seq<Turn>, run: seq<SysEvent>)
    requires run != []
    ensures past + Turns(run) == (past + TurnOf(run[0])) + Turns(run[1..])
  {
  }

  lemma StepCan(s: System, e: SysEvent, c: Can, past: seq<Turn>)
    requires Sized(s.world.mgr) && SysEnabled(s, e) && s.can == TurnAll(c, past)
    ensures SysStep(s, e).can == TurnAll(c, past + TurnOf(e))
  {
    SysStepCan(s, e);
    if e.CanTurn? {
      TurnAllSnoc(c, past, e.turn);
    } else {
      assert past + [] == past;
    }
  }

  /** Main result, end to end, over every run from boot without web shutter or auto-control commands: each slot
      wants recording exactly when the last valid 0x600 frame said so, however long ago it came, unless the slot
      was emptied since the last known logging state was announced. */
  lemma WantedFollowsFrames(nvs: seq<Option<Record>>, start: int, run: seq<SysEvent>, i: nat)
    requires ValidNvs(nvs) && i < MAX_BONDS
    requires SysValidRun(System(Started(start), World(Init(nvs), map[]), {}), run)
    requires forall k | 0 <= k < |run| :: HandsOff(run[k])
    requires Clocked(Turns(run))
    ensures var s := SysAfter(System(Started(start), World(Init(nvs), map[]), {}), run);
      s.world.mgr.cams[i].slot.desired <==> LastWord(Commands(Turns(run))) == LoggingOn && i !in s.emptied
  {
    var s := System(Started(start), World(Init(nvs), map[]), {});
    assert TurnAll(Started(start), []) == Started(start);
    RunFollows(s, run);
    RunCan(s, run, Started(start), []);
    assert [] + Turns(run) == Turns(run);
    LastKnownIsLastWord(start, Turns(run));
  }

  /** From the frame to the cameras: under auto-control a 0x600 frame that changes the logging state starts or stops
      every camera there and then; one that repeats it does nothing. */
  lemma FrameReachesCameras(s: System, data: seq<byte>, handled: int, checked: int, accept: nat -> bool, i: nat)
    requires Sized(s.world.mgr) && s.world.mgr.autoControl && i < MAX_BONDS
    requires |data| >= 1 && checked - handled <= 5_000_000
    ensures var on := data[0] != 0;
      var r := SysStep(s, CanTurn(Turn(Some(Frame(0x600, false, data)), handled, checked), accept));
      if s.can.state == (if on then LoggingOn else NotLogging) then r.world == s.world
      else if on then SlotEffects.Started(s.world.mgr.cams[i], r.world.mgr.cams[i], accept(i))
      else SlotEffects.Stopped(s.world.mgr.cams[i], r.world.mgr.cams[i])
  {
    var t, on := Turn(Some(Frame(0x600, false, data)), handled, checked), data[0] != 0;
    var now := if on then LoggingOn else NotLogging;
    CommandIsTaken(s.can, data, handled, checked);
    if s.can.state == now {
      assert NewCalls(s.can, t) == [];
    } else {
      assert NewCalls(s.can, t) == [now];
      DeliverOne(s.(can := TurnOnce(s.can, t)), now, accept);
      if on {
        SlotEffects.EverySlotIsStarted(s.world, LoggingChanged(now, accept), i);
      } else {
        SlotEffects.EverySlotIsStopped(s.world, LoggingChanged(now, accept), i);
      }
    }
  }

  lemma DeliverOne(s: System, state: Logging, accept: nat -> bool)
    requires Sized(s.world.mgr)
    ensures Deliver(s, [state], accept).world == Lifecycle.Step(s.world, LoggingChanged(state, accept))
  {
    assert [state][1..] == [];
  }

  /** A 0x600 frame that says "logging". */
  const LOGGING_FRAME := Frame(CAN_ID_RC_COMMAND, false, [1])

  /** Why emptied slots are left out: a logging frame, slot i emptied, and a second logging frame after that.  The
      second one changes no state, so nobody is told, and the slot does not want recording. */
  lemma EmptiedSlotForgets(nvs: seq<Option<Record>>, i: nat, accept: nat -> bool)
    requires ValidNvs(nvs) && i < MAX_BONDS
    ensures var s := System(Started(0), World(Init(nvs), map[]), {});
      var run := [CanTurn(Turn(Some(LOGGING_FRAME), 1, 1), accept), Other(Remove(i)),
                  CanTurn(Turn(Some(LOGGING_FRAME), 2, 2), accept)];
      && SysValidRun(s, run) && LastWord(Commands(Turns(run))) == LoggingOn
      && !SysAfter(s, run).world.mgr.cams[i].slot.desired
  {
    var t1, t2 := Turn(Some(LOGGING_FRAME), 1, 1), Turn(Some(LOGGING_FRAME), 2, 2);
    var s := System(Started(0), World(Init(nvs), map[]), {});
    var run := [CanTurn(t1, accept), Other(Remove(i)), CanTurn(t2, accept)];
    var s1 := SysStep(s, run[0]);
    var s2 := SysStep(s1, run[1]);
    assert s1.can == s2.can == TurnOnce(Started(0), t1);
    assert NewCalls(s2.can, t2) == [];
    assert run[1..] == [run[1], run[2]] && run[1..][1..] == [run[2]] && [run[2]][1..] == [];
    assert SysValidRun(SysStep(s2, run[2]), []);
    assert SysValidRun(s2, [run[2]]) && SysAfter(s2, [run[2]]) == SysStep(s2, run[2]);
    assert SysValidRun(s1, run[1..]) && SysAfter(s1, run[1..]) == SysStep(s2, run[2]);
    assert Turns([run[2]]) == [t2] && Turns(run[1..]) == [t2] && Turns(run) == [t1, t2];
    assert Commands([t1, t2])[|Commands([t1, t2])| - 1] == Command(2, true);
  }

  // ---- The task's handlers -------------------------------------------------------------------

  class CanTask {
    var loggingState: Logging
    var lastCmdRxUs: int
    var utcValid: bool
    var utcMs: nat
    var utcRxTick: int
    ghost var calls: seq<Logging>
    ghost var utcCalls: nat

    ghost function State(): Can
      reads this
    {
      Can(loggingState, lastCmdRxUs, if utcValid then Some(Utc(utcMs, utcRxTick)) else None, calls, utcCalls)
    }

    constructor (now: int)
      ensures State() == Started(now)
    {
      loggingState, lastCmdRxUs := LoggingUnknown, now;
      utcValid, utcMs, utcRxTick := false, 0, 0;
      calls, utcCalls := [], 0;
    }

    /** handle_rc_command. */
    method HandleRcCommand(f: Frame, now: int)
      requires f.id == CAN_ID_RC_COMMAND && !f.extended
      modifies this
      ensures State() == HandleFrame(old(State()), Some(f), now)
    {
      if |f.data| < 1 {
        return;
      }
      lastCmdRxUs := now;
      var newState := if f.data[0] != 0 then LoggingOn else NotLogging;
      if newState == loggingState {
        return;
      }
      loggingState := newState;
      calls := calls + [newState];
    }

    /** handle_rc_utc. */
    method HandleRcUtc(f: Frame, now: int)
      requires f.id == CAN_ID_RC_UTC && !f.extended
      modifies this
      ensures State() == HandleFrame(old(State()), Some(f), now)
    {
      if |f.data| < 8 {
        return;
      }
      var epochMs := UnpackEpoch(f.data);
      if epochMs < JAN_2020_MS {
        return;
      }
      var firstValid := !utcValid;
      utcValid := true;
      utcMs := epochMs;
      utcRxTick := now;
      if firstValid {
        utcCalls := utcCalls + 1;
      }
    }

    /** can_manager_get_utc_ms. */
    method GetUtcMs(now: int) returns (r: Option<nat>)
      requires utcValid ==> utcRxTick <= now
      ensures r == UtcAt(State(), now)
    {
      if !utcValid {
        return None;
      }
      var elapsedMs := (now - utcRxTick) / 1000;
      return Some((utcMs + elapsedMs) % TWO_64);
    }

    /** One turn of can_rx_task. */
    method RunTurn(t: Turn)
      modifies this
      ensures State() == TurnOnce(old(State()), t)
    {
      if t.frame.Some? {
        var f := t.frame.value;
        if f.id == CAN_ID_RC_COMMAND && !f.extended {
          HandleRcCommand(f, t.handled);
        } else if f.id == CAN_ID_RC_UTC && !f.extended {
          HandleRcUtc(f, t.handled);
        }
      }
      if loggingState != LoggingUnknown {
        var elapsed := t.checked - lastCmdRxUs;
        if elapsed > LOGGING_TIMEOUT_US {
          loggingState := LoggingUnknown;
          calls := calls + [LoggingUnknown];
        }
      }
    }
  }

  /** The shifted bytes never overlap, so the C `|=` is written as an addition. */
  method UnpackEpoch(data: seq<byte>) returns (epochMs: nat)
    requires |data| >= 8
    ensures epochMs == LittleEndian(data[..8])
  {
    epochMs := 0;
    var weight: nat := 1;
    for i := 0 to 8
      invariant weight == Pow256(i)
      invariant epochMs == LittleEndian(data[..i])
    {
      LittleEndianSnoc(data[..i], data[i]);
      assert data[..i + 1] == data[..i] + [data[i]];
      epochMs := epochMs + data[i] * weight;
      weight := 0x100 * weight;
    }
  }

  function Pow256(k: nat): nat { if k == 0 then 1 else 0x100 * Pow256(k - 1) }

  lemma {:induction false} LittleEndianSnoc(s: seq<byte>, b: byte)
    ensures LittleEndian(s + [b]) == LittleEndian(s) + b * Pow256(|s|)
  {
    if s == [] {
      assert [b][1..] == [] && s + [b] == [b];
    } else {
      assert (s + [b])[1..] == s[1..] + [b];
      LittleEndianSnoc(s[1..], b);
      var x, p := b as int, Pow256(|s| - 1);
      assert 0x100 * (x * p) == x * (0x100 * p);
    }
  }
}
