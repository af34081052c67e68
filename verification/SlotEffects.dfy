/** What each event of Lifecycle.dfy does to the slots, NVS and the CAN bytes, field by field, and what it leaves
    alone: in these terms a step that is skipped or done to the wrong slot shows. */
module SlotEffects {
  import opened Base
  import opened QueryResponses
  import opened Cameras
  import opened StartGuard
  import opened Lifecycle

  /** Nothing but slot i, its record and its CAN byte differs. */
  predicate OnlySlot(m: Manager, n: Manager, i: nat)
    requires Sized(m) && Sized(n)
  {
    && n.autoControl == m.autoControl
    && forall j | 0 <= j < MAX_BONDS && j != i ::
         n.cams[j] == m.cams[j] && n.nvs[j] == m.nvs[j] && n.can[j] == m.can[j]
  }

  /** Nothing but the slots differs. */
  predicate OnlyCameras(w: World, v: World) {
    v.links == w.links && v.mgr.nvs == w.mgr.nvs && v.mgr.can == w.mgr.can && v.mgr.autoControl == w.mgr.autoControl
  }

  /** The byte the data logger gets: 0 no camera, 1 disconnected, 2 connected, 3 recording. */
  predicate Shows(state: nat, s: Slot) {
    && state <= 3
    && (state == 0 <==> !s.configured)
    && (state == 1 <==> s.configured && s.handle == HANDLE_NONE)
    && (state == 3 <==> s.configured && s.handle != HANDLE_NONE && s.gattReady
                        && s.ctx.Some? && s.ctx.value.status == Active)
  }

  /** A configured slot holds the address. */
  predicate Knows(m: Manager, a: Addr)
    requires Sized(m)
  {
    exists i :: 0 <= i < MAX_BONDS && m.cams[i].slot.configured && m.cams[i].slot.mac == a
  }

  // ---- Pairing -------------------------------------------------------------------------------

  /** First pairing: an encrypted link to an unknown peer takes the first free slot, which gets the address, the
      handle, the GoPro type, a first-pairing context on the handle and its NVS record.  Nothing else changes, and
      after a reboot the address is found in that slot. */
  lemma NewCameraIsRemembered(w: World, h: nat) returns (i: nat)
    requires Inv(w) && h in w.links && !Knows(w.mgr, w.links[h])
    requires exists j :: 0 <= j < MAX_BONDS && !w.mgr.cams[j].slot.configured
    ensures i < MAX_BONDS && !w.mgr.cams[i].slot.configured
    ensures forall j | 0 <= j < i :: w.mgr.cams[j].slot.configured
    ensures var m := Step(w, Encrypted(h)).mgr; var s := m.cams[i].slot;
      && s == Slot(s.name, w.links[h], true, 1, h, false, w.mgr.cams[i].slot.desired,
                   Some(DriverCtx(h, map[], Unknown, true, false)))
      && m.cams[i].trace == w.mgr.cams[i].trace + [NewContext]
      && m.nvs[i] == Some(Record(s.name, w.links[h], true, 1)) && m.can[i] == 2
      && OnlySlot(w.mgr, m, i)
    ensures IsPlaceholder(Step(w, Encrypted(h)).mgr.cams[i].slot.name, w.links[h])
    ensures var reboot := Init(Step(w, Encrypted(h)).mgr.nvs);
      FindByAddr(reboot.cams, w.links[h]) == i && reboot.cams[i].slot.ctx.Some?
  {
    i := NewCameraTakesSlot(w, h);
    var v := Step(w, Encrypted(h));
    StepKeeps(w, Encrypted(h));
    RebootMatches(v, i);
    FindsItsSlot(v, i);
  }

  lemma NewCameraTakesSlot(w: World, h: nat) returns (i: nat)
    requires Inv(w) && h in w.links && !Knows(w.mgr, w.links[h])
    requires exists j :: 0 <= j < MAX_BONDS && !w.mgr.cams[j].slot.configured
    ensures i < MAX_BONDS && !w.mgr.cams[i].slot.configured
    ensures forall j | 0 <= j < i :: w.mgr.cams[j].slot.configured
    ensures var m := Step(w, Encrypted(h)).mgr; var s := m.cams[i].slot;
      && s == Slot(s.name, w.links[h], true, 1, h, false, w.mgr.cams[i].slot.desired,
                   Some(DriverCtx(h, map[], Unknown, true, false)))
      && m.cams[i].trace == w.mgr.cams[i].trace + [NewContext]
      && m.nvs[i] == Some(Record(s.name, w.links[h], true, 1)) && m.can[i] == 2
      && OnlySlot(w.mgr, m, i) && IsPlaceholder(s.name, w.links[h])
  {
    var a := w.links[h];
    assert FindByAddr(w.mgr.cams, a) < 0 && FindFree(w.mgr.cams) >= 0;
    i := FindFree(w.mgr.cams);
    var m1 := RegisterCamera(w.mgr, i, a);
    assert m1.cams[i].slot.handle == HANDLE_NONE;
    PlaceholderReads(a);
  }

  function HexValue(c: char): nat {
    if '0' <= c <= '9' then c as nat - '0' as nat
    else if 'A' <= c <= 'F' then c as nat - 'A' as nat + 10
    else 16
  }

  /** "GoPro " and the two low octets in hexadecimal, the higher one first. */
  predicate IsPlaceholder(name: string, a: Addr) {
    |a.octets| >= 2 ==>
      |name| == 10 && name[..6] == "GoPro "
      && 0x10 * HexValue(name[6]) + HexValue(name[7]) == a.octets[1]
      && 0x10 * HexValue(name[8]) + HexValue(name[9]) == a.octets[0]
  }

  lemma PlaceholderReads(a: Addr)
    ensures IsPlaceholder(PlaceholderName(a), a)
  {
    if |a.octets| >= 2 {
      var name := PlaceholderName(a);
      assert name[6..] == Hex(a.octets[1]) + Hex(a.octets[0]);
      assert name[6] == name[6..][0] && name[7] == name[6..][1] && name[8] == name[6..][2] && name[9] == name[6..][3];
    }
  }

  /** In a table with distinct addresses the search for a camera's address finds its slot. */
  lemma FindsItsSlot(w: World, i: nat)
    requires Inv(w) && i < MAX_BONDS && w.mgr.cams[i].slot.configured
    ensures FindByAddr(w.mgr.cams, w.mgr.cams[i].slot.mac) == i
  {
    var k := FindByAddr(w.mgr.cams, w.mgr.cams[i].slot.mac);
    assert HasAddr(w.mgr.cams[i].slot, w.mgr.cams[i].slot.mac);
    assert !(k < i) && !(i < k);
  }

  /** With no room for a new camera, or for a known one, encryption changes nothing: that one is connected already. */
  lemma OtherwiseNothingChanges(w: World, h: nat)
    requires Inv(w) && h in w.links
    requires Knows(w.mgr, w.links[h]) || forall j | 0 <= j < MAX_BONDS :: w.mgr.cams[j].slot.configured
    ensures Step(w, Encrypted(h)) == w
  {
    var known := FindByAddr(w.mgr.cams, w.links[h]);
    if known >= 0 {
      var c := w.mgr.cams[known];
      assert Consistent(c.slot, w.links);
      assert WithCtxHandle(c, h) == c;
      assert SetCam(w.mgr, known, c) == w.mgr;
    }
  }

  /** A removed camera is gone: from its slot, from NVS, from the search by address, now and after a reboot. */
  lemma RemovedIsGone(w: World, i: nat)
    requires Inv(w) && i < MAX_BONDS
    ensures var m := Step(w, Remove(i)).mgr; var s := m.cams[i].slot;
      && !s.configured && s.handle == HANDLE_NONE && !s.gattReady && !s.desired && s.ctx.None?
      && m.nvs[i].None? && m.can == w.mgr.can && m.cams[i].trace == w.mgr.cams[i].trace
      && OnlySlot(w.mgr, m, i)
    ensures Step(w, Remove(i)).links == w.links
    ensures var was := w.mgr.cams[i].slot; var m := Step(w, Remove(i)).mgr;
      was.configured ==> FindByAddr(m.cams, was.mac) < 0 && FindByAddr(Init(m.nvs).cams, was.mac) < 0
  {
    var v := Step(w, Remove(i));
    StepKeeps(w, Remove(i));
    RebootMatches(v, i);
    if w.mgr.cams[i].slot.configured {
      var a := w.mgr.cams[i].slot.mac;
      forall j | 0 <= j < MAX_BONDS ensures !HasAddr(v.mgr.cams[j].slot, a) {
        assert j != i ==> v.mgr.cams[j] == w.mgr.cams[j];
      }
      assert FindByAddr(v.mgr.cams, a) < 0;
    }
  }

  /** What init makes of a record: the camera's identity, no connection, nothing wanted, and a context exactly for
      a GoPro. */
  lemma Reloaded(nvs: seq<Option<Record>>, i: nat)
    requires |nvs| == MAX_BONDS && i < MAX_BONDS
    ensures var s := Init(nvs).cams[i].slot;
      && s.handle == HANDLE_NONE && !s.gattReady && !s.desired
      && (nvs[i].None? ==> !s.configured && s.ctx.None?)
      && (nvs[i].Some? ==>
            && s.name == nvs[i].value.name && s.mac == nvs[i].value.mac
            && s.configured == nvs[i].value.configured && s.camType == nvs[i].value.camType
            && (nvs[i].value.camType == 1 ==> s.ctx == Some(DriverCtx(0xFFFF, map[], Unknown, false, false)))
            && (nvs[i].value.camType != 1 ==> s.ctx.None?))
    ensures Init(nvs).nvs == nvs && Init(nvs).autoControl && Init(nvs).can == [0, 0, 0, 0]
  {
  }

  // ---- Connections ---------------------------------------------------------------------------

  /** A new link to a remembered camera: slot and context take the handle, the CAN byte says connected, and
      nothing else changes. */
  lemma LinkConnects(w: World, h: nat, a: Addr, i: nat)
    requires Inv(w) && Enabled(w, Link(h, a)) && i < MAX_BONDS
    requires w.mgr.cams[i].slot.configured && w.mgr.cams[i].slot.mac == a
    ensures var v := Step(w, Link(h, a)); var s, t := w.mgr.cams[i].slot, v.mgr.cams[i].slot;
      && v.links == w.links[h := a]
      && t == s.(handle := h, ctx := if s.ctx.None? then None else Some(s.ctx.value.(connHandle := h)))
      && v.mgr.cams[i].trace == w.mgr.cams[i].trace && v.mgr.nvs == w.mgr.nvs && v.mgr.can[i] == 2
      && OnlySlot(w.mgr, v.mgr, i)
  {
    FindsItsSlot(w, i);
    assert Consistent(w.mgr.cams[i].slot, w.links);
  }

  lemma StrangersLinkTouchesNothing(w: World, h: nat, a: Addr)
    requires Inv(w) && Enabled(w, Link(h, a)) && !Knows(w.mgr, a)
    ensures Step(w, Link(h, a)) == World(w.mgr, w.links[h := a])
  {
  }

  /** A lost link: the slot is disconnected and not ready, its context is reset but for the pairing mark, and the
      CAN byte says so. */
  lemma UnlinkDisconnects(w: World, h: nat, i: nat)
    requires Inv(w) && h in w.links && i < MAX_BONDS && w.mgr.cams[i].slot.handle == h
    ensures var v := Step(w, Unlink(h)); var s, t := w.mgr.cams[i].slot, v.mgr.cams[i].slot;
      && v.links == w.links - {h}
      && t == s.(handle := 0xFFFF, gattReady := false, ctx := t.ctx)
      && (s.ctx.None? ==> t.ctx.None? && v.mgr.cams[i].trace == w.mgr.cams[i].trace)
      && (s.ctx.Some? ==> t.ctx == Some(DriverCtx(0xFFFF, map[], Unknown, s.ctx.value.firstPairing, false))
                          && v.mgr.cams[i].trace == w.mgr.cams[i].trace + [Dropped])
      && v.mgr.nvs == w.mgr.nvs && v.mgr.can[i] == 1 && OnlySlot(w.mgr, v.mgr, i)
  {
    FindsItsHandle(w, i);
    assert Consistent(w.mgr.cams[i].slot, w.links);
    UnlinkIs(w.mgr, h);
    UnlinkFrame(w.mgr, h);
  }

  lemma UnlinkFrame(m: Manager, h: nat)
    requires Sized(m) && FindByHandle(m.cams, h) >= 0
    requires m.cams[FindByHandle(m.cams, h)].slot.configured
    ensures var i := FindByHandle(m.cams, h); var r := DisconnectedCb(m, h);
      r.can == m.can[i := 1] && r.autoControl == m.autoControl
  {
    var i := FindByHandle(m.cams, h);
    var m1 := SetCam(m, i, DropCtx(m.cams[i]));
    UnlinkIs(m, h);
    var k := FindByHandle(m1.cams, h);
    assert m1.cams[i].slot.handle == h && forall j | 0 <= j < i :: m1.cams[j] == m.cams[j];
    assert !(k < i) && !(i < k);
  }

  lemma StrangersUnlinkTouchesNothing(w: World, h: nat)
    requires Inv(w) && h in w.links && forall i | 0 <= i < MAX_BONDS :: w.mgr.cams[i].slot.handle != h
    ensures Step(w, Unlink(h)) == World(w.mgr, w.links - {h})
  {
    assert FindByHandle(w.mgr.cams, h) < 0;
  }

  /** The end of discovery: the context of the link's camera has the handles, and the camera is ready if discovery
      got that far; the pairing mark goes once the finish command could be sent. */
  lemma DiscoveryArrives(w: World, h: nat, handles: Handles, ready: bool, i: nat)
    requires Inv(w) && h in w.links && i < MAX_BONDS && w.mgr.cams[i].slot.handle == h
    ensures var v := Step(w, Discovered(h, handles, ready)); var s, t := w.mgr.cams[i].slot, v.mgr.cams[i].slot;
      && t == s.(gattReady := s.gattReady || ready, ctx := t.ctx)
      && (s.ctx.Some? <==> t.ctx.Some?)
      && (s.ctx.Some? ==> t.ctx.value == s.ctx.value.(gatt := handles, firstPairing := t.ctx.value.firstPairing))
      && (s.ctx.Some? ==> (t.ctx.value.firstPairing <==>
            s.ctx.value.firstPairing && !(ready && 0x91 in handles && handles[0x91] != 0)))
      && v.mgr.cams[i].trace == w.mgr.cams[i].trace
      && v.mgr.nvs == w.mgr.nvs && v.links == w.links && OnlySlot(w.mgr, v.mgr, i)
      && (if ready then Shows(v.mgr.can[i], t) else v.mgr.can[i] == w.mgr.can[i])
  {
    FindsItsHandle(w, i);
    assert Consistent(w.mgr.cams[i].slot, w.links);
  }

  lemma StrangersDiscoveryTouchesNothing(w: World, h: nat, handles: Handles, ready: bool)
    requires Inv(w) && h in w.links && forall i | 0 <= i < MAX_BONDS :: w.mgr.cams[i].slot.handle != h
    ensures Step(w, Discovered(h, handles, ready)) == w
  {
    assert FindByHandle(w.mgr.cams, h) < 0;
  }

  // ---- Status responses ----------------------------------------------------------------------

  /** What a walk over flags comes to: the last one is the status, and the guard survives exactly if recording was
      neither the status nor among the flags, or was both throughout. */
  lemma {:induction false} FlagsMean(p: Progress, flags: seq<bool>)
    ensures ObserveAll(p, flags).status
         == if flags == [] then p.status else if flags[|flags| - 1] then Active else Idle
    ensures ObserveAll(p, flags).startPending
         <==> p.startPending && (if p.status == Active then false !in flags else true !in flags)
    decreases |flags|
  {
    if flags == [] {
    } else {
      var q, rest := Observe(p, flags[0]), flags[1..];
      FlagsMean(q, rest);
      assert flags == [flags[0]] + rest;
    }
  }

  /** The marks of a walk: changes of status, each from where the last one led. */
  predicate Leads(marks: seq<Mark>, from: Recording, to: Recording)
    decreases |marks|
  {
    if marks == [] then from == to
    else marks[0].Changed? && marks[0].before == from != marks[0].after && Leads(marks[1..], marks[0].after, to)
  }

  lemma {:induction false} MarksLead(p: Progress, flags: seq<bool>)
    ensures Leads(ChangeMarks(p, flags), p.status, ObserveAll(p, flags).status)
    ensures |ChangeMarks(p, flags)| <= |flags|
    decreases |flags|
  {
    if flags == [] {
    } else {
      var q := Observe(p, flags[0]);
      MarksLead(q, flags[1..]);
      var rest := ChangeMarks(q, flags[1..]);
      if q.status == p.status {
        assert ChangeMarks(p, flags) == rest;
      } else {
        assert ChangeMarks(p, flags) == [Changed(p.status, q.status)] + rest;
        assert ([Changed(p.status, q.status)] + rest)[1..] == rest;
      }
    }
  }

  /** The history of the slot gains the changes of status the response brought, and nothing else. */
  lemma ResponseIsRecorded(w: World, h: nat, flags: seq<bool>, i: nat) returns (marks: seq<Mark>)
    requires Inv(w) && h in w.links && i < MAX_BONDS && w.mgr.cams[i].slot.handle == h
    requires w.mgr.cams[i].slot.gattReady && w.mgr.cams[i].slot.ctx.Some?
    ensures var v := Step(w, StatusResponse(h, flags)); var before := w.mgr.cams[i];
      && v.mgr.cams[i].trace == before.trace + marks && |marks| <= |flags|
      && v.mgr.cams[i].slot.ctx.Some?
      && Leads(marks, before.slot.ctx.value.status, v.mgr.cams[i].slot.ctx.value.status)
  {
    FindsItsHandle(w, i);
    assert Consistent(w.mgr.cams[i].slot, w.links);
    var g := w.mgr.cams[i].slot.ctx.value;
    marks := ChangeMarks(Progress(g.status, g.startPending), flags);
    MarksLead(Progress(g.status, g.startPending), flags);
  }

  /** A status response from a ready camera sets its status to the last flag, lowers the guard when recording began
      or ended, and touches nothing else. */
  lemma ResponseIsSeen(w: World, h: nat, flags: seq<bool>, i: nat)
    requires Inv(w) && h in w.links && i < MAX_BONDS && w.mgr.cams[i].slot.handle == h
    requires w.mgr.cams[i].slot.gattReady && w.mgr.cams[i].slot.ctx.Some?
    ensures var v := Step(w, StatusResponse(h, flags)); var g := w.mgr.cams[i].slot.ctx.value;
      var t := v.mgr.cams[i].slot;
      && t.ctx.Some? && t == w.mgr.cams[i].slot.(ctx := t.ctx)
      && t.ctx.value == g.(status := t.ctx.value.status, startPending := t.ctx.value.startPending)
      && t.ctx.value.status == (if flags == [] then g.status else if flags[|flags| - 1] then Active else Idle)
      && (t.ctx.value.startPending <==>
            g.startPending && (if g.status == Active then false !in flags else true !in flags))
      && OnlyCameras(w, v) && OnlySlot(w.mgr, v.mgr, i)
  {
    FindsItsHandle(w, i);
    assert Consistent(w.mgr.cams[i].slot, w.links);
    var g := w.mgr.cams[i].slot.ctx.value;
    FlagsMean(Progress(g.status, g.startPending), flags);
  }

  /** From the camera's bytes to its slot: the last encoding entry packed is the status seen. */
  lemma StatusPacketIsSeen(w: World, h: nat, header: byte, es: seq<Entry>, i: nat)
    requires Inv(w) && h in w.links && i < MAX_BONDS && w.mgr.cams[i].slot.handle == h
    requires w.mgr.cams[i].slot.gattReady && w.mgr.cams[i].slot.ctx.Some?
    requires header < 0x20 && (forall k | 0 <= k < |es| :: |es[k].value| < 256) && |EncodeEntries(es)| >= 3
    requires es[|es| - 1].id == 0x08 && es[|es| - 1].value != []
    ensures var data := [header, 0x13, 0] + EncodeEntries(es);
      && RouteOf(data) == ToStatus
      && var t := Step(w, StatusResponse(h, Flags(data[3..]))).mgr.cams[i].slot;
         t.ctx.Some? && t.ctx.value.status == if es[|es| - 1].value[0] != 0 then Active else Idle
  {
    StatusIsRouted(header, es);
    LastEntryFlag(es);
    ResponseIsSeen(w, h, EntryFlags(es), i);
  }

  lemma {:induction false} LastEntryFlag(es: seq<Entry>)
    requires es != [] && es[|es| - 1].id == 0x08 && es[|es| - 1].value != []
    ensures EntryFlags(es) != [] && EntryFlags(es)[|EntryFlags(es)| - 1] == (es[|es| - 1].value[0] != 0)
  {
    if |es| == 1 {
      assert EntryFlags(es[1..]) == [];
    } else {
      LastEntryFlag(es[1..]);
    }
  }

  /** Before the camera is ready a status response is dropped. */
  lemma EarlyResponseIsDropped(w: World, h: nat, flags: seq<bool>)
    requires Inv(w) && h in w.links
    requires forall i | 0 <= i < MAX_BONDS && w.mgr.cams[i].slot.handle == h :: !w.mgr.cams[i].slot.gattReady
    ensures Step(w, StatusResponse(h, flags)) == w
  {
  }

  // ---- Commands ------------------------------------------------------------------------------

  /** Connected, ready, and with a command handle. */
  predicate Commandable(s: Slot) {
    && s.configured && s.handle != HANDLE_NONE && s.gattReady && s.ctx.Some?
    && 0x72 in s.ctx.value.gatt && s.ctx.value.gatt[0x72] != 0
  }

  /** What a stop does to a camera: it no longer wants recording; if it can be commanded one stop is sent and the
      guard is down. */
  predicate Stopped(c: Camera, d: Camera) {
    && d.slot == c.slot.(desired := false, ctx := d.slot.ctx)
    && if Commandable(c.slot) then
         d.slot.ctx == Some(c.slot.ctx.value.(startPending := false)) && d.trace == c.trace + [StopCalled]
       else d.slot.ctx == c.slot.ctx && d.trace == c.trace
  }

  /** One start sent, if the camera can be commanded, none is pending and the write is accepted. */
  predicate StartedIf(c: Camera, d: Camera, accept: bool) {
    && d.slot == c.slot.(ctx := d.slot.ctx)
    && if Commandable(c.slot) && !c.slot.ctx.value.startPending && accept then
         d.slot.ctx == Some(c.slot.ctx.value.(startPending := true)) && d.trace == c.trace + [StartSent]
       else d.slot.ctx == c.slot.ctx && d.trace == c.trace
  }

  /** What a start does: the camera wants recording, and is started if that can be. */
  predicate Started(c: Camera, d: Camera, accept: bool) {
    StartedIf(c.(slot := c.slot.(desired := true)), d, accept)
  }

  /** The event switches every camera: the logging callback under auto-control, and the web shutter for all. */
  predicate SwitchesAll(w: World, e: Event, on: bool) {
    (e.LoggingChanged? && w.mgr.autoControl && e.state == (if on then LoggingOn else NotLogging))
    || (e.ShutterAllCmd? && e.on == on)
  }

  /** Logging ended, or all cameras switched off: every slot is stopped. */
  lemma EverySlotIsStopped(w: World, e: Event, i: nat)
    requires Sized(w.mgr) && Enabled(w, e) && SwitchesAll(w, e, false) && i < MAX_BONDS
    ensures Stopped(w.mgr.cams[i], Step(w, e).mgr.cams[i]) && OnlyCameras(w, Step(w, e))
  {
    var d := w.mgr.cams[i].(slot := w.mgr.cams[i].slot.(desired := false));
    assert SetDesired(w.mgr, false).cams[i] == d;
  }

  /** Logging began, or all cameras switched on: every slot is started. */
  lemma EverySlotIsStarted(w: World, e: Event, i: nat)
    requires Sized(w.mgr) && Enabled(w, e) && SwitchesAll(w, e, true) && i < MAX_BONDS
    ensures Started(w.mgr.cams[i], Step(w, e).mgr.cams[i], e.accept(i)) && OnlyCameras(w, Step(w, e))
  {
    var d := w.mgr.cams[i].(slot := w.mgr.cams[i].slot.(desired := true));
    assert SetDesired(w.mgr, true).cams[i] == d;
  }

  /** The web shutter for one camera stops or starts that camera, if there is one, and no other. */
  lemma OneSlotIsSwitched(w: World, i: nat, on: bool, ok: bool)
    requires Sized(w.mgr) && i < MAX_BONDS
    ensures var v := Step(w, ShutterSlotCmd(i, on, ok)); var c, d := w.mgr.cams[i], v.mgr.cams[i];
      && (if !c.slot.configured then d == c else if on then Started(c, d, ok) else Stopped(c, d))
      && OnlyCameras(w, v) && OnlySlot(w.mgr, v.mgr, i)
  {
  }

  /** Without auto-control, and for the unknown state, the logging callback does nothing. */
  lemma OtherwiseLoggingIsIgnored(w: World, state: Logging, accept: nat -> bool)
    requires Sized(w.mgr) && (!w.mgr.autoControl || state == LoggingUnknown)
    ensures Step(w, LoggingChanged(state, accept)) == w
  {
  }

  lemma AutoControlIsSet(w: World, enabled: bool)
    requires Sized(w.mgr)
    ensures Step(w, AutoControl(enabled)) == World(w.mgr.(autoControl := enabled), w.links)
  {
  }

  /** A tick: a camera that wants recording and does not count as recording is started if that can be, the others are
      left as they are, and every CAN byte shows its slot. */
  lemma TickStartsAndShows(w: World, accept: nat -> bool, i: nat)
    requires Sized(w.mgr) && i < MAX_BONDS
    ensures var v := Step(w, TickTimer(accept)); var c, d := w.mgr.cams[i], v.mgr.cams[i];
      && (if c.slot.desired && c.slot.ctx.Some? && c.slot.ctx.value.status != Active then StartedIf(c, d, accept(i))
          else d == c)
      && Shows(v.mgr.can[i], d.slot)
      && v.mgr.nvs == w.mgr.nvs && v.links == w.links && v.mgr.autoControl == w.mgr.autoControl
  {
    assert Tick(w.mgr, accept).cams[i] == TickOne(w.mgr.cams[i], accept(i));
  }
}
